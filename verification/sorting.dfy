/** Python's stable `sorted(events, key=timestamp)`, as an insertion sort. */
module Sorting {
  import opened Types

  predicate SortedByTimestamp(s: seq<Event>) {
    forall i, j :: 0 <= i < j < |s| ==> s[i].timestamp <= s[j].timestamp
  }

  /** Puts `e` in front of the first element that is not earlier than it. */
  function Insert(e: Event, s: seq<Event>): (r: seq<Event>)
    requires SortedByTimestamp(s)
    ensures SortedByTimestamp(r)
    ensures multiset(r) == multiset(s) + multiset{e}
    ensures |r| == |s| + 1
    ensures r[0] == e || (|s| > 0 && r[0] == s[0])
  {
    if |s| == 0 || e.timestamp <= s[0].timestamp then
      [e] + s
    else
      var rest := Insert(e, s[1..]);
      assert s == [s[0]] + s[1..];
      assert s[0].timestamp <= rest[0].timestamp;
      [s[0]] + rest
  }

  /** A copy of `s` ordered by timestamp; `s` itself is a value and stays as it was. */
  function SortByTimestamp(s: seq<Event>): (r: seq<Event>)
    ensures SortedByTimestamp(r)
    ensures multiset(r) == multiset(s)
    ensures |r| == |s|
  {
    if |s| == 0 then
      []
    else
      assert s == [s[0]] + s[1..];
      Insert(s[0], SortByTimestamp(s[1..]))
  }
}
