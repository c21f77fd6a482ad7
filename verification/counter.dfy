/** `CounterService`: a counter held as an immutable state snapshot
    (`BehaviorSubject<CounterState>`); every change publishes a new
    snapshot. The subject itself is the sequence of snapshots; here each
    operation is a function from the current snapshot to the next one. */
module CounterStore {
  import opened Common
  import Text

  datatype CounterState = CounterState(count: int, lastAction: String, history: seq<int>)

  /** `Partial<CounterState>` as passed to `updateState`: absent fields keep
      their current value. */
  datatype Partial = Partial(count: Option<int>, lastAction: Option<String>)

  /** The user-visible operations of both counter services. */
  datatype Op = Increment | Decrement | Reset | SetCount(value: int)

  /** Number of counts the history keeps. */
  const HistoryLimit: nat := 10

  const Initial := CounterState(0, "initialized", [0])

  /** The state every snapshot satisfies: a non-empty history of at most
      `HistoryLimit` counts whose newest entry is the current count. */
  predicate Valid(s: CounterState) {
    1 <= |s.history| <= HistoryLimit && Last(s.history) == s.count
  }

  /** `history.slice(-9)`: the newest nine entries (all of them when fewer). */
  function KeepLast9(h: seq<int>): (r: seq<int>)
    ensures IsSuffix(r, h)
    ensures |r| == Min(9, |h|)
  {
    if |h| <= 9 then h else h[|h| - 9..]
  }

  /** `lastAction` text written by `setCount(value)`. */
  function SetAction(value: int): String {
    "set to " + Text.IntToString(value)
  }

  /** `updateState(partial)`: fields given in `partial` replace the current
      ones, and the new count is appended to the newest nine history entries. */
  function UpdateState(s: CounterState, partial: Partial): (r: CounterState)
    ensures r.count == partial.count.GetOr(s.count)
    ensures r.lastAction == partial.lastAction.GetOr(s.lastAction)
    ensures Valid(r)
    ensures |r.history| == Min(9, |s.history|) + 1
    ensures IsSuffix(r.history[..|r.history| - 1], s.history)
  {
    var newCount := partial.count.GetOr(s.count);
    var h := KeepLast9(s.history) + [newCount];
    assert h[..|h| - 1] == KeepLast9(s.history);
    CounterState(newCount, partial.lastAction.GetOr(s.lastAction), h)
  }

  function DoIncrement(s: CounterState): (r: CounterState)
    ensures r.count == s.count + 1 && r.lastAction == "increment"
    ensures Valid(r)
    ensures IsSuffix(r.history[..|r.history| - 1], s.history)
  {
    UpdateState(s, Partial(Some(s.count + 1), Some("increment")))
  }

  function DoDecrement(s: CounterState): (r: CounterState)
    ensures r.count == s.count - 1 && r.lastAction == "decrement"
    ensures Valid(r)
    ensures IsSuffix(r.history[..|r.history| - 1], s.history)
  {
    UpdateState(s, Partial(Some(s.count - 1), Some("decrement")))
  }

  /** `reset()` bypasses `updateState`: the history restarts. */
  function DoReset(s: CounterState): (r: CounterState)
    ensures Valid(r) && r.count == 0 && |r.history| == 1
  {
    CounterState(0, "reset", [0])
  }

  function DoSetCount(s: CounterState, value: int): (r: CounterState)
    ensures r.count == value && r.lastAction == SetAction(value)
    ensures Valid(r)
    ensures IsSuffix(r.history[..|r.history| - 1], s.history)
  {
    UpdateState(s, Partial(Some(value), Some(SetAction(value))))
  }

  function Apply(s: CounterState, op: Op): CounterState {
    match op
    case Increment => DoIncrement(s)
    case Decrement => DoDecrement(s)
    case Reset => DoReset(s)
    case SetCount(v) => DoSetCount(s, v)
  }

  /** The snapshot after performing `ops` in order on a fresh service. */
  function Run(ops: seq<Op>): CounterState {
    if ops == [] then Initial else Apply(Run(ops[..|ops| - 1]), Last(ops))
  }

  /** `lastAction` each operation writes. */
  function ActionName(op: Op): String {
    match op
    case Increment => "increment"
    case Decrement => "decrement"
    case Reset => "reset"
    case SetCount(v) => SetAction(v)
  }

  /** The count an operation produces from `count`. */
  function Step(count: int, op: Op): int {
    match op
    case Increment => count + 1
    case Decrement => count - 1
    case Reset => 0
    case SetCount(v) => v
  }

  /** Reference definition of the history: every count reached since the
      latest reset (or since start), oldest first, without any bound. */
  function Trajectory(ops: seq<Op>): (t: seq<int>)
    ensures |t| > 0
  {
    if ops == [] then [0]
    else
      var t := Trajectory(ops[..|ops| - 1]);
      if Last(ops).Reset? then [0] else t + [Step(Last(t), Last(ops))]
  }

  /** The newest `n` entries of `t`. */
  function Newest(t: seq<int>, n: nat): seq<int> {
    if |t| <= n then t else t[|t| - n..]
  }

  lemma NewestAppend(t: seq<int>, x: int)
    ensures Newest(t + [x], HistoryLimit) == KeepLast9(Newest(t, HistoryLimit)) + [x]
  {
    var u := t + [x];
    if |t| > HistoryLimit {
      assert u[|u| - 10..] == t[|t| - 9..] + [x];
      assert Newest(t, HistoryLimit)[1..] == t[|t| - 9..];
    } else if |t| == HistoryLimit {
      assert u[|u| - 10..] == t[1..] + [x];
    }
  }

  /** The snapshot agrees with the trajectory: `Valid`, the newest count,
      the newest ten counts, and the last action. */
  predicate MatchesTrajectory(s: CounterState, ops: seq<Op>) {
    && Valid(s)
    && s.count == Last(Trajectory(ops))
    && s.history == Newest(Trajectory(ops), HistoryLimit)
    && s.lastAction == if ops == [] then "initialized" else ActionName(Last(ops))
  }

  /** The last operation keeps the snapshot in step with the trajectory. */
  lemma ApplyMatchesTrajectory(s: CounterState, ops: seq<Op>)
    requires ops != []
    requires MatchesTrajectory(s, ops[..|ops| - 1])
    ensures MatchesTrajectory(Apply(s, Last(ops)), ops)
  {
    var t := Trajectory(ops[..|ops| - 1]);
    if !Last(ops).Reset? {
      NewestAppend(t, Step(Last(t), Last(ops)));
    }
  }

  /** Every snapshot reachable from a fresh service is `Valid`; its count is
      the newest count of the trajectory, its history is exactly the newest
      ten counts of the trajectory, in order, and its last action names the
      last operation. */
  lemma {:induction false} RunMatchesTrajectory(ops: seq<Op>)
    ensures MatchesTrajectory(Run(ops), ops)
  {
    if ops != [] {
      RunMatchesTrajectory(ops[..|ops| - 1]);
      ApplyMatchesTrajectory(Run(ops[..|ops| - 1]), ops);
    }
  }

  /** `reset` ends in the same snapshot whatever state it starts from. */
  lemma ResetForgets(s1: CounterState, s2: CounterState)
    ensures DoReset(s1) == DoReset(s2) == CounterState(0, "reset", [0])
  {
  }

  /** The `lastAction` text of `setCount` identifies the value that was set. */
  lemma SetActionInjective(a: int, b: int)
    ensures SetAction(a) == SetAction(b) ==> a == b
  {
    if SetAction(a) == SetAction(b) {
      assert Text.IntToString(a) == SetAction(a)[7..];
      Text.IntToStringInjective(a, b);
    }
  }
}
