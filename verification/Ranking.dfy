/** Picking the best-rated item: the first one no other beats, as Python's `max` with a key does. */
module Ranking {

  function FirstBest<T>(items: seq<T>, score: T -> real): (b: nat)
    requires items != []
    ensures b < |items|
    ensures forall k :: 0 <= k < |items| ==> score(items[k]) <= score(items[b])
    ensures forall k :: 0 <= k < b ==> score(items[k]) < score(items[b])
  {
    if |items| == 1 then 0
    else
      var earlier := FirstBest(items[..|items| - 1], score);
      if score(items[|items| - 1]) > score(items[earlier]) then |items| - 1 else earlier
  }

  method SelectBest<T>(items: seq<T>, score: T -> real) returns (best: T)
    requires items != []
    ensures best == items[FirstBest(items, score)]
  {
    best := items[0];
    for k := 1 to |items|
      invariant best == items[FirstBest(items[..k], score)]
    {
      assert items[..k + 1][..k] == items[..k];
      if score(items[k]) > score(best) {
        best := items[k];
      }
    }
    assert items[..|items|] == items;
  }
}
