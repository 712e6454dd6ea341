/** Sizes of sets of places, for counters that a loop adds to. */
module Counting {

  /** Looking at one more place. */
  lemma {:induction false} OneMore(n: nat, before: set<nat>, now: set<nat>, more: bool)
    requires forall k :: k in before ==> k < n
    requires forall k :: k in now <==> k in before || (k == n && more)
    ensures |now| == |before| + if more then 1 else 0
  {
    assert now == if more then before + {n} else before;
  }

  ghost function Paired(g: nat, s: set<nat>): set<(nat, nat)> {
    set k | k in s :: (g, k)
  }

  lemma {:induction false} PairedSize(g: nat, s: set<nat>)
    ensures |Paired(g, s)| == |s|
  {
    if s != {} {
      var k :| k in s;
      PairedSize(g, s - {k});
      assert Paired(g, s) == Paired(g, s - {k}) + {(g, k)};
    }
  }

  /** Looking at the places of one more group. */
  lemma {:induction false} OneMoreGroup(n: nat, before: set<(nat, nat)>, now: set<(nat, nat)>, last: set<nat>)
    requires forall p :: p in before ==> p.0 < n
    requires forall p: (nat, nat) :: p in now <==> p in before || (p.0 == n && p.1 in last)
    ensures |now| == |before| + |last|
  {
    PairedSize(n, last);
    assert now == before + Paired(n, last);
    assert before !! Paired(n, last);
  }
}
