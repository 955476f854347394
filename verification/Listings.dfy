/** Lists of names without repeats, and the counters that Go and Python keep in maps. */
module Listings {
  predicate NoRepeats(s: seq<string>) {
    forall i, j :: 0 <= i < j < |s| ==> s[i] != s[j]
  }

  /** The sequence names every member of the set once. */
  ghost predicate Lists(order: seq<string>, names: set<string>) {
    (forall x :: x in order <==> x in names) && NoRepeats(order)
  }

  lemma NoRepeatsGrows(s: seq<string>, x: string)
    requires NoRepeats(s) && x !in s
    ensures NoRepeats(s + [x])
  {
  }

  lemma ListOneMore(order: seq<string>, names: set<string>, x: string)
    requires Lists(order, names) && x !in names
    ensures Lists(order + [x], names + {x})
  {
    NoRepeatsGrows(order, x);
  }

  /** What a counter map holds for a key; a missing key counts as zero. */
  function CountOf(counts: map<string, int>, key: string): int {
    if key in counts then counts[key] else 0
  }
}
