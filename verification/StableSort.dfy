/**
 The stable sort of the JavaScript engine, for the scripts that call it.  `before(x, y)` says that the
 comparator puts `x` strictly before `y`.
 */
module StableSort {

  /** What a comparator must be for sorting to make sense. */
  ghost predicate WeakOrder<T(!new)>(before: (T, T) -> bool) {
    && (forall x, y :: before(x, y) ==> !before(y, x))
    && (forall x, y, z :: !before(x, y) && !before(y, z) ==> !before(x, z))
  }

  ghost predicate Ordered<T>(s: seq<T>, before: (T, T) -> bool) {
    forall i, j :: 0 <= i < j < |s| ==> !before(s[j], s[i])
  }

  /** Puts `x` behind everything it does not come before. */
  function Insert<T>(s: seq<T>, x: T, before: (T, T) -> bool): seq<T> {
    if s == [] then [x]
    else if before(x, s[0]) then [x] + s
    else [s[0]] + Insert(s[1..], x, before)
  }

  function Sort<T>(xs: seq<T>, before: (T, T) -> bool): seq<T> {
    if xs == [] then [] else Insert(Sort(xs[..|xs| - 1], before), xs[|xs| - 1], before)
  }

  predicate Ties<T>(x: T, y: T, before: (T, T) -> bool) {
    !before(x, y) && !before(y, x)
  }

  /** The elements that tie with `x`, in order. */
  function Alike<T>(s: seq<T>, x: T, before: (T, T) -> bool): seq<T> {
    if s == [] then []
    else if Ties(x, s[0], before) then [s[0]] + Alike(s[1..], x, before)
    else Alike(s[1..], x, before)
  }

  /** `s` is `xs` in order, with ties in their original order. */
  ghost predicate IsStableSort<T(!new)>(s: seq<T>, xs: seq<T>, before: (T, T) -> bool) {
    Ordered(s, before) && forall x :: Alike(s, x, before) == Alike(xs, x, before)
  }

  lemma {:induction false} InsertPermutes<T>(s: seq<T>, x: T, before: (T, T) -> bool)
    ensures multiset(Insert(s, x, before)) == multiset(s) + multiset{x}
  {
    if s != [] {
      assert s == [s[0]] + s[1..];
      InsertPermutes(s[1..], x, before);
    }
  }

  /** `x` does not come after anything in `s`. */
  ghost predicate First<T>(x: T, s: seq<T>, before: (T, T) -> bool) {
    forall i :: 0 <= i < |s| ==> !before(s[i], x)
  }

  lemma {:induction false} ConsOrdered<T>(x: T, s: seq<T>, before: (T, T) -> bool)
    ensures Ordered([x] + s, before) <==> (Ordered(s, before) && First(x, s, before))
  {
    var all := [x] + s;
    if Ordered(all, before) {
      forall i, j | 0 <= i < j < |s| ensures !before(s[j], s[i]) {
        assert all[i + 1] == s[i] && all[j + 1] == s[j];
      }
      forall i | 0 <= i < |s| ensures !before(s[i], x) {
        assert all[i + 1] == s[i] && all[0] == x;
      }
    }
  }

  lemma {:induction false} InsertFirst<T>(y: T, s: seq<T>, x: T, before: (T, T) -> bool)
    requires First(y, s, before) && !before(x, y)
    ensures First(y, Insert(s, x, before), before)
  {
    if s != [] && !before(x, s[0]) {
      InsertFirst(y, s[1..], x, before);
    }
  }

  lemma {:induction false} InsertOrdered<T(!new)>(s: seq<T>, x: T, before: (T, T) -> bool)
    requires WeakOrder(before) && Ordered(s, before)
    ensures Ordered(Insert(s, x, before), before)
  {
    if s != [] {
      assert s == [s[0]] + s[1..];
      ConsOrdered(s[0], s[1..], before);
      if before(x, s[0]) {
        forall i | 0 <= i < |s| ensures !before(s[i], x) {
          assert i > 0 ==> !before(s[i], s[0]);
        }
        ConsOrdered(x, s, before);
      } else {
        InsertOrdered(s[1..], x, before);
        InsertFirst(s[0], s[1..], x, before);
        ConsOrdered(s[0], Insert(s[1..], x, before), before);
      }
    }
  }

  lemma {:induction false} NothingAlike<T(!new)>(s: seq<T>, x: T, before: (T, T) -> bool)
    requires forall i :: 0 <= i < |s| ==> before(x, s[i])
    ensures Alike(s, x, before) == []
  {
    if s != [] {
      NothingAlike(s[1..], x, before);
    }
  }

  lemma {:induction false} InsertAlike<T(!new)>(s: seq<T>, x: T, y: T, before: (T, T) -> bool)
    requires WeakOrder(before) && Ordered(s, before)
    ensures Alike(Insert(s, x, before), y, before) == Alike(s, y, before) + if Ties(y, x, before) then [x] else []
  {
    if s != [] {
      if before(x, s[0]) {
        assert ([x] + s)[1..] == s;
        if Ties(y, x, before) {
          forall i | 0 <= i < |s| ensures before(y, s[i]) {
            assert i > 0 ==> !before(s[i], s[0]);
          }
          NothingAlike(s, y, before);
        }
      } else {
        InsertAlike(s[1..], x, y, before);
        assert ([s[0]] + Insert(s[1..], x, before))[1..] == Insert(s[1..], x, before);
      }
    }
  }

  lemma {:induction false} AlikeAppend<T>(s: seq<T>, x: T, y: T, before: (T, T) -> bool)
    ensures Alike(s + [x], y, before) == Alike(s, y, before) + if Ties(y, x, before) then [x] else []
  {
    if s == [] {
      assert s + [x] == [x];
    } else {
      assert (s + [x])[1..] == s[1..] + [x];
      AlikeAppend(s[1..], x, y, before);
    }
  }

  /** Sorting is a stable permutation into order. */
  lemma {:induction false} SortMeaning<T(!new)>(xs: seq<T>, before: (T, T) -> bool)
    requires WeakOrder(before)
    ensures IsStableSort(Sort(xs, before), xs, before) && multiset(Sort(xs, before)) == multiset(xs)
  {
    if xs != [] {
      var n := |xs| - 1;
      SortMeaning(xs[..n], before);
      InsertOrdered(Sort(xs[..n], before), xs[n], before);
      InsertPermutes(Sort(xs[..n], before), xs[n], before);
      assert xs == xs[..n] + [xs[n]];
      forall y ensures Alike(Sort(xs, before), y, before) == Alike(xs, y, before) {
        InsertAlike(Sort(xs[..n], before), xs[n], y, before);
        AlikeAppend(xs[..n], xs[n], y, before);
      }
    }
  }

  lemma {:induction false} InsertAtEnd<T>(s: seq<T>, x: T, before: (T, T) -> bool)
    requires forall i :: 0 <= i < |s| ==> !before(x, s[i])
    ensures Insert(s, x, before) == s + [x]
  {
    if s != [] {
      InsertAtEnd(s[1..], x, before);
    }
  }

  /** What is in order is left alone. */
  lemma {:induction false} SortOfOrdered<T>(s: seq<T>, before: (T, T) -> bool)
    requires Ordered(s, before)
    ensures Sort(s, before) == s
  {
    if s != [] {
      SortOfOrdered(s[..|s| - 1], before);
      InsertAtEnd(s[..|s| - 1], s[|s| - 1], before);
    }
  }

  /** There is only one stable sort, so `Sort` is what the engine returns. */
  lemma {:induction false} StableSortIsUnique<T(!new)>(a: seq<T>, b: seq<T>, before: (T, T) -> bool)
    requires WeakOrder(before) && Ordered(a, before) && Ordered(b, before)
    requires forall x :: Alike(a, x, before) == Alike(b, x, before)
    ensures a == b
  {
    if a == [] || b == [] {
      assert a != [] ==> Alike(a, a[0], before) == Alike(b, a[0], before);
      assert b != [] ==> Alike(a, b[0], before) == Alike(b, b[0], before);
    } else {
      SameHead(a, b, before);
      forall x ensures Alike(a[1..], x, before) == Alike(b[1..], x, before) {
        assert Alike(a, x, before) == Alike(b, x, before);
        TailAlike(a, x, before);
        TailAlike(b, x, before);
      }
      StableSortIsUnique(a[1..], b[1..], before);
      assert a == [a[0]] + a[1..] && b == [b[0]] + b[1..];
    }
  }

  lemma {:induction false} TailAlike<T>(s: seq<T>, x: T, before: (T, T) -> bool)
    requires s != []
    ensures Alike(s[1..], x, before) == Alike(s, x, before)[if Ties(x, s[0], before) then 1 else 0..]
  {
  }

  lemma {:induction false} SameHead<T(!new)>(a: seq<T>, b: seq<T>, before: (T, T) -> bool)
    requires WeakOrder(before) && Ordered(a, before) && Ordered(b, before) && a != [] && b != []
    requires Alike(a, a[0], before) == Alike(b, a[0], before) && Alike(a, b[0], before) == Alike(b, b[0], before)
    ensures a[0] == b[0]
  {
    assert Alike(a, a[0], before)[0] == a[0] && Alike(b, b[0], before)[0] == b[0];
    if before(b[0], a[0]) {
      forall i | 0 <= i < |a| ensures before(b[0], a[i]) {
        assert i > 0 ==> !before(a[i], a[0]);
      }
      NothingAlike(a, b[0], before);
    } else if before(a[0], b[0]) {
      forall i | 0 <= i < |b| ensures before(a[0], b[i]) {
        assert i > 0 ==> !before(b[i], b[0]);
      }
      NothingAlike(b, a[0], before);
    }
  }
}
