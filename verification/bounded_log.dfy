/** The newest-first log used twice in the application (the form's
    `valueChangesLog` and the dependency-injection demo's `logs`): each new
    entry is put at the front with `unshift`, and one `pop` drops the oldest
    entry once there are more than ten. */
module BoundedLog {
  import opened Common

  const Capacity: nat := 10

  /** `log.unshift(e); if (log.length > 10) log.pop();` */
  function Prepend<T>(log: seq<T>, e: T): (r: seq<T>)
    ensures |r| > 0 && r[0] == e
    ensures |log| < Capacity ==> r[1..] == log
    ensures |log| >= Capacity ==> r[1..] == log[..|log| - 1]
  {
    var grown := [e] + log;
    if |grown| > Capacity then grown[..|grown| - 1] else grown
  }

  /** A log holding at most `Capacity` entries keeps that bound, and the
      entries that survive keep their order behind the new one. */
  lemma PrependBounded<T>(log: seq<T>, e: T)
    requires |log| <= Capacity
    ensures |Prepend(log, e)| == Min(|log| + 1, Capacity)
    ensures IsPrefix(Prepend(log, e)[1..], log)
  {
  }

  /** Entries added in the order given, oldest first. */
  function PrependAll<T>(log: seq<T>, entries: seq<T>): seq<T> {
    if entries == [] then log
    else Prepend(PrependAll(log, entries[..|entries| - 1]), Last(entries))
  }

  /** Newest first: the entries in reverse order of arrival. */
  function Reverse<T>(s: seq<T>): (r: seq<T>)
    ensures |r| == |s|
    ensures forall i :: 0 <= i < |s| ==> r[i] == s[|s| - 1 - i]
  {
    if s == [] then [] else [Last(s)] + Reverse(s[..|s| - 1])
  }

  /** Starting from an empty log, the log holds the newest `Capacity`
      entries, newest first. */
  lemma {:induction false} NewestFirst<T>(entries: seq<T>)
    ensures PrependAll([], entries) == Reverse(entries)[..Min(|entries|, Capacity)]
  {
    if entries != [] {
      var p := entries[..|entries| - 1];
      var e := Last(entries);
      NewestFirst(p);
      assert Reverse(entries) == [e] + Reverse(p);
      var m := Min(|p|, Capacity);
      assert PrependAll([], entries) == Prepend(Reverse(p)[..m], e);
      if |p| >= Capacity {
        assert ([e] + Reverse(p)[..m])[..Capacity] == ([e] + Reverse(p))[..Capacity];
      } else {
        assert Reverse(p)[..m] == Reverse(p);
      }
    }
  }
}
