/** `CounterSignalService`: the same counter as `CounterService`, held in
    three writable signals (`count`, `lastAction`, `history`) with four
    computed signals derived from `count`. The logging effect is console
    output only and is not modelled. */
module CounterSignal {
  import opened Common
  import CounterStore

  /** Current values of the three writable signals. */
  datatype Signals = Signals(count: int, lastAction: String, history: seq<int>)

  const Initial := Signals(0, "initialized", [0])

  // ---------------------------------------------------------------------
  // Computed signals

  function DoubleCount(s: Signals): int {
    s.count * 2
  }

  function IsPositive(s: Signals): bool {
    s.count > 0
  }

  function IsNegative(s: Signals): bool {
    s.count < 0
  }

  function AbsoluteCount(s: Signals): (r: nat)
    ensures r == s.count || r == -s.count
  {
    if s.count < 0 then -s.count else s.count
  }

  /** The computed signals agree with each other in every state: at most one
      sign holds, neither holds exactly at zero, and the absolute value is
      the count with its sign removed. */
  lemma ComputedConsistent(s: Signals)
    ensures !(IsPositive(s) && IsNegative(s))
    ensures !IsPositive(s) && !IsNegative(s) <==> s.count == 0
    ensures IsNegative(s) <==> AbsoluteCount(s) == -s.count && s.count != 0
    ensures IsPositive(s) ==> AbsoluteCount(s) == s.count
  {
  }

  // ---------------------------------------------------------------------
  // Operations

  /** `addToHistory()`: reads `count` after it was updated. */
  function AddToHistory(s: Signals): (r: Signals)
    ensures r.count == s.count && r.lastAction == s.lastAction
    ensures 1 <= |r.history| <= CounterStore.HistoryLimit && Last(r.history) == s.count
    ensures IsSuffix(r.history[..|r.history| - 1], s.history)
  {
    var h := CounterStore.KeepLast9(s.history) + [s.count];
    assert h[..|h| - 1] == CounterStore.KeepLast9(s.history);
    s.(history := h)
  }

  function DoIncrement(s: Signals): (r: Signals)
    ensures r.count == s.count + 1 && r.lastAction == "increment"
    ensures 1 <= |r.history| <= CounterStore.HistoryLimit && Last(r.history) == r.count
  {
    AddToHistory(s.(count := s.count + 1).(lastAction := "increment"))
  }

  function DoDecrement(s: Signals): (r: Signals)
    ensures r.count == s.count - 1 && r.lastAction == "decrement"
    ensures 1 <= |r.history| <= CounterStore.HistoryLimit && Last(r.history) == r.count
  {
    AddToHistory(s.(count := s.count - 1).(lastAction := "decrement"))
  }

  function DoReset(s: Signals): (r: Signals)
    ensures r.count == 0 && |r.history| == 1 && Last(r.history) == 0
  {
    Signals(0, "reset", [0])
  }

  function DoSetCount(s: Signals, value: int): (r: Signals)
    ensures r.count == value && r.lastAction == CounterStore.SetAction(value)
    ensures 1 <= |r.history| <= CounterStore.HistoryLimit && Last(r.history) == r.count
  {
    AddToHistory(s.(count := value).(lastAction := CounterStore.SetAction(value)))
  }

  function Apply(s: Signals, op: CounterStore.Op): Signals {
    match op
    case Increment => DoIncrement(s)
    case Decrement => DoDecrement(s)
    case Reset => DoReset(s)
    case SetCount(v) => DoSetCount(s, v)
  }

  function Run(ops: seq<CounterStore.Op>): Signals {
    if ops == [] then Initial else Apply(Run(ops[..|ops| - 1]), Last(ops))
  }

  /** The signals seen as a `CounterState` snapshot. */
  function Snapshot(s: Signals): CounterStore.CounterState {
    CounterStore.CounterState(s.count, s.lastAction, s.history)
  }

  /** One operation has the same effect on both services. */
  lemma ApplyAgrees(s: Signals, op: CounterStore.Op)
    ensures Snapshot(Apply(s, op)) == CounterStore.Apply(Snapshot(s), op)
  {
  }

  /** For any sequence of operations the signal-based service and the
      snapshot-based `CounterService` reach the same count, last action and
      history. */
  lemma {:induction false} SameAsCounterService(ops: seq<CounterStore.Op>)
    ensures Snapshot(Run(ops)) == CounterStore.Run(ops)
  {
    if ops != [] {
      SameAsCounterService(ops[..|ops| - 1]);
      ApplyAgrees(Run(ops[..|ops| - 1]), Last(ops));
    }
  }

  /** Hence every reachable state keeps the history bound and ends its
      history with the current count. */
  lemma ReachableValid(ops: seq<CounterStore.Op>)
    ensures 1 <= |Run(ops).history| <= CounterStore.HistoryLimit
    ensures Last(Run(ops).history) == Run(ops).count
  {
    SameAsCounterService(ops);
    CounterStore.RunMatchesTrajectory(ops);
  }

  /** After any sequence of operations the computed signals are derived
      from the count the reference trajectory ends in. */
  lemma ReachableComputed(ops: seq<CounterStore.Op>)
    ensures DoubleCount(Run(ops)) == 2 * Last(CounterStore.Trajectory(ops))
    ensures IsPositive(Run(ops)) <==> Last(CounterStore.Trajectory(ops)) > 0
    ensures IsNegative(Run(ops)) <==> Last(CounterStore.Trajectory(ops)) < 0
    ensures AbsoluteCount(Run(ops)) == if Last(CounterStore.Trajectory(ops)) < 0
      then -Last(CounterStore.Trajectory(ops)) else Last(CounterStore.Trajectory(ops))
  {
    SameAsCounterService(ops);
    CounterStore.RunMatchesTrajectory(ops);
  }
}
