/**
 The reservoir sample of `tool_io.py`, and why it is fair.

 Random draws are inputs.  The sample of the first n stream positions is a function of the draws
 made so far, so fairness is a statement about counting: over all the draw vectors that can
 happen, every position is kept equally often, and so is every possible sample.
 */
module Reservoir {

  // ----- Counting

  /** The elements of `v` that `key` sends to `k`. */
  ghost function Fibre<A, K(!new)>(v: set<A>, key: A -> K, k: K): set<A> {
    set x | x in v && key(x) == k
  }

  /** If every key has a fibre of `c` elements then there are `c` elements per key. */
  lemma {:induction false} FibreCount<A, K(!new)>(v: set<A>, key: A -> K, keys: set<K>, c: nat)
    requires forall x :: x in v ==> key(x) in keys
    requires forall k :: k in keys ==> |Fibre(v, key, k)| == c
    ensures |v| == |keys| * c
    decreases |keys|
  {
    if keys == {} {
      assert v == {};
    } else {
      var k :| k in keys;
      var here := Fibre(v, key, k);
      var rest := v - here;
      forall k' | k' in keys - {k} ensures |Fibre(rest, key, k')| == c {
        assert Fibre(rest, key, k') == Fibre(v, key, k');
      }
      FibreCount(rest, key, keys - {k}, c);
      assert v == here + rest;
      assert |keys| == |keys - {k}| + 1;
      assert (|keys - {k}| + 1) * c == |keys - {k}| * c + c;
    }
  }

  ghost function UpTo(n: nat): set<nat> {
    if n == 0 then {} else UpTo(n - 1) + {n - 1}
  }

  lemma {:induction false} OneMore(a: set<nat>, x: nat)
    requires x !in a
    ensures |a + {x}| == |a| + 1 && forall y: nat :: y in a + {x} <==> y in a || y == x
  {
  }

  lemma {:induction false} UpToMeaning(n: nat)
    ensures forall x: nat :: x in UpTo(n) <==> x < n
    ensures |UpTo(n)| == n
  {
    if n > 0 {
      UpToMeaning(n - 1);
      OneMore(UpTo(n - 1), n - 1);
    }
  }

  /** The numbers below `n`. */
  ghost function Below(n: nat): (r: set<nat>)
    ensures forall x: nat :: x in r <==> x < n
    ensures |r| == n
  {
    UpToMeaning(n);
    UpTo(n)
  }

  function Init(v: seq<nat>): seq<nat> {
    if v == [] then [] else v[..|v| - 1]
  }

  /** The draws that extend `w` to a member of `v`. */
  ghost function Extensions(v: set<seq<nat>>, w: seq<nat>, n: nat): set<nat> {
    set r | r in Below(n) && w + [r] in v
  }

  lemma {:induction false} ExtensionsAre(v: set<seq<nat>>, w: seq<nat>, n: nat, draws: set<nat>)
    requires draws <= Below(n)
    requires forall r: nat :: r < n ==> (w + [r] in v <==> r in draws)
    ensures Extensions(v, w, n) == draws
  {
  }

  lemma {:induction false} FibreOfPrefix(v: set<seq<nat>>, w: seq<nat>, draws: set<nat>)
    requires forall x :: x in v ==> x != [] && Init(x) == w && x[|x| - 1] in draws
    requires forall r :: r in draws ==> w + [r] in v
    ensures |v| == |draws|
    decreases |draws|
  {
    if draws == {} {
      assert v == {};
    } else {
      var r :| r in draws;
      var x := w + [r];
      forall y | y in v - {x} ensures y[|y| - 1] in draws - {r} {
        assert y == Init(y) + [y[|y| - 1]];
      }
      forall r' | r' in draws - {r} ensures w + [r'] in v - {x} {
        assert (w + [r'])[|w|] == r' && x[|w|] == r;
      }
      FibreOfPrefix(v - {x}, w, draws - {r});
    }
  }

  ghost predicate EndsInPrefix(v: set<seq<nat>>, prefixes: set<seq<nat>>, n: nat) {
    forall x :: x in v ==> x != [] && Init(x) in prefixes && x[|x| - 1] < n
  }

  ghost predicate UniformlyExtended(v: set<seq<nat>>, prefixes: set<seq<nat>>, n: nat, c: nat) {
    forall w {:trigger Extensions(v, w, n)} :: w in prefixes ==> |Extensions(v, w, n)| == c
  }

  /** A set of vectors in which every prefix has `c` possible last draws. */
  lemma {:induction false} PrefixCount(v: set<seq<nat>>, prefixes: set<seq<nat>>, n: nat, c: nat)
    requires EndsInPrefix(v, prefixes, n) && UniformlyExtended(v, prefixes, n, c)
    ensures |v| == |prefixes| * c
  {
    forall w | w in prefixes ensures |Fibre(v, Init, w)| == c {
      var draws := Extensions(v, w, n);
      forall x | x in Fibre(v, Init, w) ensures x[|x| - 1] in draws {
        assert x == w + [x[|x| - 1]];
      }
      forall r | r in draws ensures w + [r] in Fibre(v, Init, w) {
        assert Init(w + [r]) == w;
      }
      FibreOfPrefix(Fibre(v, Init, w), w, draws);
    }
    FibreCount(v, Init, prefixes, c);
  }

  // ----- Draw vectors and samples

  /** Once the reservoir is full, the draw for the t-th item is any number below t. */
  ghost predicate IsVector(size: nat, v: seq<nat>) {
    forall i :: 0 <= i < |v| ==> v[i] <= size + i
  }

  /** `v` is the set of all draw vectors of length `extra`. */
  ghost predicate AllVectors(v: set<seq<nat>>, size: nat, extra: nat) {
    forall x {:trigger x in v} :: x in v <==> |x| == extra && IsVector(size, x)
  }

  lemma {:induction false} VectorsExist(size: nat, extra: nat) returns (v: set<seq<nat>>)
    ensures AllVectors(v, size, extra)
  {
    if extra == 0 {
      v := {[]};
    } else {
      var before := VectorsExist(size, extra - 1);
      v := set w, r | w in before && r in Below(size + extra) :: w + [r];
      forall x | |x| == extra && IsVector(size, x) ensures x in v {
        var w, r := Init(x), x[|x| - 1];
        assert w in before && r in Below(size + extra) && x == w + [r];
      }
    }
  }

  /** Every way the draws can fall while `extra` more items arrive. */
  ghost function Vectors(size: nat, extra: nat): (v: set<seq<nat>>)
    ensures AllVectors(v, size, extra)
  {
    assert exists v :: AllVectors(v, size, extra) by {
      var v := VectorsExist(size, extra);
    }
    var v :| AllVectors(v, size, extra);
    v
  }

  function Identity(n: nat): (s: seq<nat>)
    ensures |s| == n && forall i :: 0 <= i < n ==> s[i] == i
  {
    if n == 0 then [] else Identity(n - 1) + [n - 1]
  }

  /** Stream positions held after `size + |draws|` items; a draw below `size` replaces that slot. */
  function Sample(size: nat, draws: seq<nat>): (s: seq<nat>)
    ensures |s| == size
    decreases |draws|
  {
    if draws == [] then Identity(size)
    else
      var before, r := Sample(size, Init(draws)), draws[|draws| - 1];
      if r < size then before[r := size + |draws| - 1] else before
  }

  ghost function Elements(s: seq<nat>): set<nat> {
    set i | 0 <= i < |s| :: s[i]
  }

  ghost predicate Distinct(s: seq<nat>) {
    forall i, j :: 0 <= i < j < |s| ==> s[i] != s[j]
  }

  lemma {:induction false} DistinctSize(s: seq<nat>)
    requires Distinct(s)
    ensures |Elements(s)| == |s|
  {
    if s != [] {
      var front, x := s[..|s| - 1], s[|s| - 1];
      DistinctSize(front);
      assert Elements(s) == Elements(front) + {x};
      assert x !in Elements(front);
    }
  }

  /** The sample holds `size` different positions, all of them already seen. */
  lemma {:induction false} SampleShape(size: nat, draws: seq<nat>)
    ensures Distinct(Sample(size, draws))
    ensures forall i :: 0 <= i < size ==> Sample(size, draws)[i] < size + |draws|
    ensures |Elements(Sample(size, draws))| == size
    decreases |draws|
  {
    if draws != [] {
      SampleShape(size, Init(draws));
    }
    DistinctSize(Sample(size, draws));
  }

  lemma {:induction false} ReplacedElements(s: seq<nat>, p: nat, x: nat)
    requires Distinct(s) && p < |s| && x !in Elements(s)
    ensures Elements(s[p := x]) == Elements(s) - {s[p]} + {x}
  {
    var t := s[p := x];
    forall y | y in Elements(s) - {s[p]} + {x} ensures y in Elements(t) {
      if y == x {
        assert t[p] == x;
      } else {
        var i :| 0 <= i < |s| && s[i] == y;
        assert t[i] == y;
      }
    }
    forall y | y in Elements(t) ensures y in Elements(s) - {s[p]} + {x} {
      var i :| 0 <= i < |t| && t[i] == y;
      assert i == p || s[i] == y;
    }
  }

  /** The positions held after the draws `w`. */
  ghost function Held(size: nat, w: seq<nat>): (r: set<nat>) {
    Elements(Sample(size, w))
  }

  lemma {:induction false} SampleAppend(size: nat, w: seq<nat>, r: nat)
    ensures Sample(size, w + [r]) == if r < size then Sample(size, w)[r := size + |w|] else Sample(size, w)
  {
    assert Init(w + [r]) == w;
  }

  /** One more draw either changes nothing or swaps one held position for the newest one. */
  lemma {:induction false} OneMoreDraw(size: nat, w: seq<nat>, r: nat)
    ensures r >= size ==> Held(size, w + [r]) == Held(size, w)
    ensures r < size ==> Held(size, w + [r]) == Held(size, w) - {Sample(size, w)[r]} + {size + |w|}
    ensures r < size ==> Sample(size, w)[r] in Held(size, w)
    ensures size + |w| !in Held(size, w)
  {
    SampleAppend(size, w, r);
    SampleShape(size, w);
    var s := Sample(size, w);
    if r < size {
      ReplacedElements(s, r, size + |w|);
      assert s[r] in Elements(s);
    }
  }

  lemma {:induction false} SlotOf(size: nat, w: seq<nat>, x: nat) returns (p: nat)
    requires x in Held(size, w)
    ensures p < size && forall r :: 0 <= r < size ==> (Sample(size, w)[r] == x <==> r == p)
  {
    SampleShape(size, w);
    p :| p < size && Sample(size, w)[p] == x;
  }

  // ----- How many draw vectors there are

  /** (size + 1) * ... * (size + extra) */
  ghost function Rising(size: nat, extra: nat): nat {
    if extra == 0 then 1 else Rising(size, extra - 1) * (size + extra)
  }

  lemma {:induction false} AllVectorsCount(v: set<seq<nat>>, before: set<seq<nat>>, size: nat, extra: nat)
    requires extra > 0 && AllVectors(v, size, extra) && AllVectors(before, size, extra - 1)
    ensures |v| == |before| * (size + extra)
  {
    var n := size + extra;
    forall w | w in before ensures |Extensions(v, w, n)| == n {
      assert Extensions(v, w, n) == Below(n);
    }
    assert UniformlyExtended(v, before, n, n);
    assert EndsInPrefix(v, before, n);
    PrefixCount(v, before, n, n);
  }

  lemma {:induction false} VectorsStep(size: nat, extra: nat)
    requires extra > 0
    ensures |Vectors(size, extra)| == |Vectors(size, extra - 1)| * (size + extra)
  {
    AllVectorsCount(Vectors(size, extra), Vectors(size, extra - 1), size, extra);
  }

  lemma {:induction false} VectorCount(size: nat, extra: nat)
    ensures |Vectors(size, extra)| == Rising(size, extra)
  {
    if extra == 0 {
      assert Vectors(size, 0) == {[]};
    } else {
      VectorCount(size, extra - 1);
      VectorsStep(size, extra);
    }
  }

  // ----- Fairness for one position

  /** `v` is the family of draw vectors that leave position `m` in the sample. */
  ghost predicate KeepsPosition(v: set<seq<nat>>, size: nat, extra: nat, m: nat) {
    forall x {:trigger x in v} :: x in v <==> |x| == extra && IsVector(size, x) && m in Held(size, x)
  }

  ghost function Keeping(size: nat, extra: nat, m: nat): set<seq<nat>> {
    set v | v in Vectors(size, extra) && m in Held(size, v)
  }

  lemma {:induction false} KeepingKeeps(size: nat, extra: nat, m: nat)
    ensures KeepsPosition(Keeping(size, extra, m), size, extra, m)
  {
  }

  lemma {:induction false} SurvivesDraw(v: set<seq<nat>>, size: nat, n: nat, m: nat, w: seq<nat>, p: nat, r: nat)
    requires n == size + |w| + 1 && KeepsPosition(v, size, |w| + 1, m) && r < n
    requires IsVector(size, w) && m in Held(size, w)
    requires p < size && forall q :: 0 <= q < size ==> (Sample(size, w)[q] == m <==> q == p)
    ensures w + [r] in v <==> r != p
  {
    OneMoreDraw(size, w, r);
  }

  lemma {:induction false} OlderSurvives(v: set<seq<nat>>, size: nat, n: nat, m: nat, w: seq<nat>)
    requires n == size + |w| + 1 && KeepsPosition(v, size, |w| + 1, m)
    requires IsVector(size, w) && m in Held(size, w)
    ensures |Extensions(v, w, n)| == n - 1
  {
    var p := SlotOf(size, w, m);
    forall r: nat | r < n ensures w + [r] in v <==> r in Below(n) - {p} {
      SurvivesDraw(v, size, n, m, w, p, r);
    }
    ExtensionsAre(v, w, n, Below(n) - {p});
  }

  lemma {:induction false} OlderWasThere(v: set<seq<nat>>, before: set<seq<nat>>, size: nat, extra: nat, m: nat, n: nat)
    requires extra > 0 && n == size + extra && m < n - 1
    requires KeepsPosition(v, size, extra, m) && KeepsPosition(before, size, extra - 1, m)
    ensures EndsInPrefix(v, before, n)
  {
    forall x | x in v ensures x != [] && Init(x) in before && x[|x| - 1] < n {
      assert x == Init(x) + [x[|x| - 1]];
      OneMoreDraw(size, Init(x), x[|x| - 1]);
    }
  }

  lemma {:induction false} OlderSurvivesEach(v: set<seq<nat>>, before: set<seq<nat>>, size: nat, extra: nat, m: nat, n: nat)
    requires extra > 0 && n == size + extra && m < n - 1
    requires KeepsPosition(v, size, extra, m) && KeepsPosition(before, size, extra - 1, m)
    ensures UniformlyExtended(v, before, n, n - 1)
  {
    forall w | w in before ensures |Extensions(v, w, n)| == n - 1 {
      OlderSurvives(v, size, n, m, w);
    }
  }

  lemma {:induction false} KeepingOlder(v: set<seq<nat>>, before: set<seq<nat>>, size: nat, extra: nat, m: nat, n: nat)
    requires extra > 0 && n == size + extra && m < n - 1
    requires KeepsPosition(v, size, extra, m) && KeepsPosition(before, size, extra - 1, m)
    ensures |v| == |before| * (n - 1)
  {
    OlderWasThere(v, before, size, extra, m, n);
    OlderSurvivesEach(v, before, size, extra, m, n);
    PrefixCount(v, before, n, n - 1);
  }

  lemma {:induction false} NewestEnters(v: set<seq<nat>>, size: nat, n: nat, w: seq<nat>)
    requires n == size + |w| + 1 && KeepsPosition(v, size, |w| + 1, n - 1) && IsVector(size, w)
    ensures |Extensions(v, w, n)| == size
  {
    forall r: nat | r < n ensures w + [r] in v <==> r < size {
      OneMoreDraw(size, w, r);
    }
    assert Extensions(v, w, n) == Below(size);
  }

  lemma {:induction false} KeepingNewest(v: set<seq<nat>>, before: set<seq<nat>>, size: nat, extra: nat, n: nat)
    requires extra > 0 && n == size + extra
    requires KeepsPosition(v, size, extra, n - 1) && AllVectors(before, size, extra - 1)
    ensures |v| == |before| * size
  {
    forall x | x in v ensures x != [] && Init(x) in before && x[|x| - 1] < n {
    }
    forall w | w in before ensures |Extensions(v, w, n)| == size {
      NewestEnters(v, size, n, w);
    }
    PrefixCount(v, before, n, size);
  }

  /** Fair per item: after n = size + extra items each position is in the sample in exactly size
      out of n of all possible runs. */
  lemma {:induction false} EveryPositionIsEquallyLikely(size: nat, extra: nat, m: nat)
    requires m < size + extra
    ensures |Keeping(size, extra, m)| * (size + extra) == size * |Vectors(size, extra)|
  {
    if extra == 0 {
      KeepingAtStart(size, m);
    } else {
      var n, before := size + extra, |Vectors(size, extra - 1)|;
      VectorsStep(size, extra);
      KeepingKeeps(size, extra, m);
      KeepingKeeps(size, extra - 1, m);
      if m == n - 1 {
        KeepingNewest(Keeping(size, extra, m), Vectors(size, extra - 1), size, extra, n);
        Commute(before, size, n);
      } else {
        EveryPositionIsEquallyLikely(size, extra - 1, m);
        KeepingOlder(Keeping(size, extra, m), Keeping(size, extra - 1, m), size, extra, m, n);
        Scale(|Keeping(size, extra - 1, m)|, n - 1, size, before, n);
      }
    }
  }

  lemma {:induction false} NothingDisplacedYet(size: nat)
    ensures Held(size, []) == Below(size)
  {
    forall x | x in Below(size) ensures x in Held(size, []) {
      assert Identity(size)[x] == x;
    }
  }

  lemma {:induction false} KeepingAtStart(size: nat, m: nat)
    requires m < size
    ensures |Keeping(size, 0, m)| == |Vectors(size, 0)| == 1
  {
    NothingDisplacedYet(size);
    assert Vectors(size, 0) == {[]};
    assert Keeping(size, 0, m) == {[]};
  }

  lemma {:induction false} Commute(a: nat, b: nat, c: nat)
    ensures a * b * c == b * (a * c)
  {
  }

  lemma {:induction false} Scale(kept: nat, k: nat, size: nat, before: nat, n: nat)
    requires kept * k == size * before
    ensures kept * k * n == size * (before * n)
  {
  }

  // ----- Fairness for whole samples

  ghost function Factorial(n: nat): nat {
    if n == 0 then 1 else Factorial(n - 1) * n
  }

  /** `v` is the family of draw vectors after which exactly `held` is in the reservoir. */
  ghost predicate YieldsSample(v: set<seq<nat>>, size: nat, extra: nat, held: set<nat>) {
    forall x {:trigger x in v} :: x in v <==> |x| == extra && IsVector(size, x) && Held(size, x) == held
  }

  ghost function Yielding(size: nat, extra: nat, held: set<nat>): set<seq<nat>> {
    set v | v in Vectors(size, extra) && Held(size, v) == held
  }

  ghost function YieldCount(size: nat, extra: nat, held: set<nat>): nat {
    |Yielding(size, extra, held)|
  }

  lemma {:induction false} YieldingYields(size: nat, extra: nat, held: set<nat>)
    ensures YieldsSample(Yielding(size, extra, held), size, extra, held)
  {
  }

  lemma {:induction false} UndisturbedExtensions(v: set<seq<nat>>, size: nat, held: set<nat>, w: seq<nat>)
    requires YieldsSample(v, size, |w| + 1, held) && size + |w| !in held
    requires IsVector(size, w) && Held(size, w) == held
    ensures |Extensions(v, w, size + |w| + 1)| == |w| + 1
  {
    forall r: nat | r < size + |w| + 1 ensures w + [r] in v <==> r >= size {
      OneMoreDraw(size, w, r);
    }
    NumbersFrom(size, size + |w| + 1);
    assert Extensions(v, w, size + |w| + 1) == Below(size + |w| + 1) - Below(size);
  }

  lemma {:induction false} NumbersFrom(low: nat, n: nat)
    requires low <= n
    ensures |Below(n) - Below(low)| == n - low
  {
    assert Below(n) == (Below(n) - Below(low)) + Below(low);
  }

  lemma {:induction false} UndisturbedCount(v: set<seq<nat>>, before: set<seq<nat>>, size: nat, extra: nat, n: nat, held: set<nat>)
    requires extra > 0 && n == size + extra && n - 1 !in held
    requires YieldsSample(v, size, extra, held) && YieldsSample(before, size, extra - 1, held)
    ensures |v| == |before| * extra
  {
    forall x | x in v ensures x != [] && Init(x) in before && x[|x| - 1] < n {
      assert x == Init(x) + [x[|x| - 1]];
      OneMoreDraw(size, Init(x), x[|x| - 1]);
    }
    forall w | w in before ensures |Extensions(v, w, n)| == extra {
      UndisturbedExtensions(v, size, held, w);
    }
    PrefixCount(v, before, n, extra);
  }

  lemma {:induction false} YieldingWithoutNewest(size: nat, extra: nat, held: set<nat>)
    requires extra > 0 && size + extra - 1 !in held
    ensures YieldCount(size, extra, held) == YieldCount(size, extra - 1, held) * extra
  {
    YieldingYields(size, extra, held);
    YieldingYields(size, extra - 1, held);
    UndisturbedCount(Yielding(size, extra, held), Yielding(size, extra - 1, held), size, extra, size + extra, held);
  }

  /** The position whose slot the last draw overwrote. */
  ghost function Displaced(size: nat, v: seq<nat>): nat {
    if v != [] && v[|v| - 1] < size then Sample(size, Init(v))[v[|v| - 1]] else 0
  }

  /** Which extensions of `w` displace `x` and end with `held`: the slot of `x`, if `w` held the rest. */
  lemma {:induction false} DisplacingDraw(size: nat, w: seq<nat>, held: set<nat>, x: nat, r: nat)
    requires size + |w| in held && x !in held && x < size + |w|
    ensures (Held(size, w + [r]) == held && Displaced(size, w + [r]) == x) <==>
            (Held(size, w) == held - {size + |w|} + {x} && r < size && Sample(size, w)[r] == x)
  {
    assert Init(w + [r]) == w;
    OneMoreDraw(size, w, r);
    if r < size {
      var was, newest := Held(size, w), size + |w|;
      if was == held - {newest} + {x} && Sample(size, w)[r] == x {
        assert was - {x} + {newest} == held;
      }
      if Held(size, w + [r]) == held && Sample(size, w)[r] == x {
        assert was == was - {x} + {newest} - {newest} + {x};
      }
    }
  }

  /** `v` is the family of draw vectors that end with `held` after pushing out `x`. */
  ghost predicate PushesOut(v: set<seq<nat>>, size: nat, extra: nat, held: set<nat>, x: nat) {
    forall y {:trigger y in v} ::
      y in v <==> |y| == extra && IsVector(size, y) && Held(size, y) == held && Displaced(size, y) == x
  }

  lemma {:induction false} OneDisplacingDraw(fibre: set<seq<nat>>, size: nat, n: nat, held: set<nat>, x: nat, w: seq<nat>)
    requires n == size + |w| + 1 && n - 1 in held && x !in held && x < n - 1
    requires PushesOut(fibre, size, |w| + 1, held, x)
    requires IsVector(size, w) && Held(size, w) == held - {n - 1} + {x}
    ensures |Extensions(fibre, w, n)| == 1
  {
    var p := SlotOf(size, w, x);
    forall r: nat | r < n ensures w + [r] in fibre <==> r in {p} {
      DisplacingDraw(size, w, held, x, r);
    }
    ExtensionsAre(fibre, w, n, {p});
  }

  lemma {:induction false} DisplacedFibre(fibre: set<seq<nat>>, before: set<seq<nat>>, size: nat, extra: nat, n: nat, held: set<nat>, x: nat)
    requires extra > 0 && n == size + extra && n - 1 in held && x !in held && x < n - 1
    requires PushesOut(fibre, size, extra, held, x)
    requires YieldsSample(before, size, extra - 1, held - {n - 1} + {x})
    ensures |fibre| == |before|
  {
    forall w | w in before ensures |Extensions(fibre, w, n)| == 1 {
      OneDisplacingDraw(fibre, size, n, held, x, w);
    }
    forall v | v in fibre ensures v != [] && Init(v) in before && v[|v| - 1] < n {
      var w, r := Init(v), v[|v| - 1];
      assert v == w + [r];
      DisplacingDraw(size, w, held, x, r);
    }
    PrefixCount(fibre, before, n, 1);
  }

  lemma {:induction false} DisplacedIsOther(size: nat, v: seq<nat>, held: set<nat>)
    requires v != [] && Held(size, v) == held && size + |v| - 1 in held
    ensures Displaced(size, v) < size + |v| - 1 && Displaced(size, v) !in held
  {
    var w, r := Init(v), v[|v| - 1];
    assert v == w + [r];
    OneMoreDraw(size, w, r);
    SampleShape(size, w);
  }

  lemma {:induction false} DisplacedCount(size: nat, extra: nat, n: nat, held: set<nat>, x: nat)
    requires extra > 0 && n == size + extra && n - 1 in held && x !in held && x < n - 1
    ensures |Fibre(Yielding(size, extra, held), v => Displaced(size, v), x)| ==
            YieldCount(size, extra - 1, held - {n - 1} + {x})
  {
    var fibre := Fibre(Yielding(size, extra, held), v => Displaced(size, v), x);
    YieldingYields(size, extra, held);
    YieldingYields(size, extra - 1, held - {n - 1} + {x});
    DisplacedFibre(fibre, Yielding(size, extra - 1, held - {n - 1} + {x}), size, extra, n, held, x);
  }

  lemma {:induction false} PositionsLeftOut(size: nat, extra: nat, held: set<nat>)
    requires extra > 0 && size + extra - 1 in held && |held| == size && held <= Below(size + extra)
    ensures |Below(size + extra - 1) - held| == extra
  {
    var newest := size + extra - 1;
    assert Below(newest) == (Below(newest) - held) + (held - {newest});
    DisjointSum(Below(newest) - held, held - {newest});
    DisjointSum(held - {newest}, {newest});
    assert held == (held - {newest}) + {newest};
  }

  lemma {:induction false} DisjointSum(a: set<nat>, b: set<nat>)
    requires a !! b
    ensures |a + b| == |a| + |b|
  {
  }

  lemma {:induction false} YieldingWithNewest(size: nat, extra: nat, n: nat, held: set<nat>, c: nat)
    requires extra > 0 && n == size + extra && n - 1 in held && |held| == size && held <= Below(n)
    requires forall x :: x in Below(n - 1) - held ==> YieldCount(size, extra - 1, held - {n - 1} + {x}) == c
    ensures YieldCount(size, extra, held) == extra * c
  {
    var others := Below(n - 1) - held;
    var key := v => Displaced(size, v);
    var all := Yielding(size, extra, held);
    forall v | v in all ensures key(v) in others {
      YieldingYields(size, extra, held);
      DisplacedIsOther(size, v, held);
    }
    forall x | x in others ensures |Fibre(all, key, x)| == c {
      DisplacedCount(size, extra, n, held, x);
      assert Fibre(all, key, x) == Fibre(all, v => Displaced(size, v), x);
    }
    FibreCount(all, key, others, c);
    PositionsLeftOut(size, extra, held);
  }

  lemma {:induction false} OneEmptyRun(size: nat, held: set<nat>)
    requires held <= Below(size) && |held| == size
    ensures YieldCount(size, 0, held) == 1
  {
    SameSizeSubset(held, Below(size));
    NothingDisplacedYet(size);
    assert Vectors(size, 0) == {[]};
    assert Yielding(size, 0, held) == {[]};
  }

  /** Whatever position the newest has displaced, the samples before it are equally likely. */
  lemma {:induction false} SamplesBeforeNewest(size: nat, extra: nat, newest: nat, held: set<nat>)
    requires extra > 0 && newest == size + extra - 1 && newest in held && held <= Below(newest + 1) && |held| == size
    ensures forall x :: x in Below(newest) - held ==> YieldCount(size, extra - 1, held - {newest} + {x}) == Factorial(extra - 1)
    decreases extra, 0
  {
    forall x | x in Below(newest) - held ensures YieldCount(size, extra - 1, held - {newest} + {x}) == Factorial(extra - 1) {
      SwapMember(newest, held, x);
      EverySampleIsEquallyLikely(size, extra - 1, held - {newest} + {x});
    }
  }

  /** Fair per sample: every set of `size` positions out of n = size + extra is the final sample
      in the same number of runs, extra!. */
  lemma {:induction false} EverySampleIsEquallyLikely(size: nat, extra: nat, held: set<nat>)
    requires held <= Below(size + extra) && |held| == size
    ensures YieldCount(size, extra, held) == Factorial(extra)
    decreases extra, 1
  {
    if extra == 0 {
      OneEmptyRun(size, held);
    } else if size + extra - 1 in held {
      SamplesBeforeNewest(size, extra, size + extra - 1, held);
      YieldingWithNewest(size, extra, size + extra, held, Factorial(extra - 1));
    } else {
      EverySampleIsEquallyLikely(size, extra - 1, held);
      YieldingWithoutNewest(size, extra, held);
    }
  }

  lemma {:induction false} SwapMember(newest: nat, held: set<nat>, x: nat)
    requires newest in held && held <= Below(newest + 1) && x < newest && x !in held
    ensures |held - {newest} + {x}| == |held| && held - {newest} + {x} <= Below(newest)
  {
    assert x !in held - {newest};
  }

  lemma {:induction false} SameSizeSubset(a: set<nat>, b: set<nat>)
    requires a <= b && |a| == |b|
    ensures a == b
  {
    assert b == a + (b - a);
  }

  // ----- The class

  function Pick<T>(stream: seq<T>, positions: seq<nat>): (r: seq<T>)
    requires forall i :: 0 <= i < |positions| ==> positions[i] < |stream|
    ensures |r| == |positions| && forall i :: 0 <= i < |r| ==> r[i] == stream[positions[i]]
  {
    seq(|positions|, i requires 0 <= i < |positions| => stream[positions[i]])
  }

  /** The items standing at the sampled positions of the stream, slot by slot. */
  ghost predicate IsSampleOf<T>(items: seq<T>, stream: seq<T>, size: nat, draws: seq<nat>) {
    && (forall i :: 0 <= i < size ==> Sample(size, draws)[i] < |stream|)
    && items == Pick(stream, Sample(size, draws))
  }

  class ReservoirSample<T> {
    const size: int
    var items: seq<T>
    var seen: nat
    /** The items added so far, and the draws made since the reservoir filled up. */
    ghost var stream: seq<T>
    ghost var draws: seq<nat>

    ghost predicate Valid()
      reads this
    {
      if size <= 0 then items == [] && seen == 0
      else if seen <= size then items == stream && |stream| == seen && draws == []
      else
        && |stream| == seen == size + |draws|
        && IsVector(size, draws)
        && IsSampleOf(items, stream, size, draws)
    }

    constructor (size: int)
      ensures Valid() && this.size == size && items == [] && stream == [] && draws == []
    {
      this.size := size;
      items, seen, stream, draws := [], 0, [], [];
    }

    /** `draw` is what the generator returns if it is asked for a number below the new count. */
    method Add(item: T, draw: nat)
      requires Valid() && draw <= seen
      modifies this
      ensures Valid()
      ensures size > 0 ==> stream == old(stream) + [item] && seen == old(seen) + 1
      ensures draws == if size <= 0 || old(seen) < size then old(draws) else old(draws) + [draw]
      ensures size <= 0 ==> items == []
    {
      if size <= 0 {
        return;
      }
      ghost var before := stream;
      seen := seen + 1;
      stream := stream + [item];
      if |items| < size {
        items := items + [item];
        return;
      }
      FullReservoir(size, before, draws, item, draw);
      draws := draws + [draw];
      var index := draw;
      if index < size {
        items := items[index := item];
      }
    }
  }

  /** A full reservoir that has only just filled up holds the whole stream in order. */
  lemma {:induction false} FullReservoir<T>(size: nat, stream: seq<T>, draws: seq<nat>, item: T, draw: nat)
    requires size > 0 && |stream| == size + |draws| && draw < |stream| + 1
    requires IsVector(size, draws)
    ensures IsVector(size, draws + [draw])
    ensures forall i :: 0 <= i < size ==> Sample(size, draws)[i] < |stream|
    ensures draws == [] ==> Pick(stream, Sample(size, draws)) == stream
    ensures forall i :: 0 <= i < size ==> Sample(size, draws + [draw])[i] < |stream| + 1
    ensures var held := Pick(stream, Sample(size, draws));
            Pick(stream + [item], Sample(size, draws + [draw])) ==
            if draw < size then held[draw := item] else held
  {
    assert Init(draws + [draw]) == draws;
    SampleShape(size, draws);
    SampleShape(size, draws + [draw]);
  }

  /** The draws made for the first `n` items. */
  function Drawn(draws: seq<nat>, size: int, n: nat): seq<nat>
    requires n <= |draws|
  {
    if size <= 0 || n <= size then [] else draws[size..n]
  }

  lemma {:induction false} DrawNext(draws: seq<nat>, size: int, i: nat)
    requires i < |draws|
    ensures Drawn(draws, size, i + 1) == if size <= 0 || i < size then Drawn(draws, size, i) else Drawn(draws, size, i) + [draws[i]]
  {
  }

  lemma {:induction false} AllDrawn(draws: seq<nat>, size: int)
    ensures 0 < size < |draws| ==> Drawn(draws, size, |draws|) == draws[size..]
  {
  }

  lemma {:induction false} AllTaken<T>(s: seq<T>)
    ensures s[..|s|] == s
  {
  }

  lemma {:induction false} TakeNext<T>(s: seq<T>, i: nat)
    requires i < |s|
    ensures s[..i + 1] == s[..i] + [s[i]]
  {
  }

  /** `sample_reservoir`: the draws are consumed one per item once the reservoir is full. */
  method SampleReservoir<T>(stream: seq<T>, size: int, draws: seq<nat>) returns (items: seq<T>)
    requires |draws| == |stream| && forall t :: 0 <= t < |draws| ==> draws[t] <= t
    ensures size <= 0 ==> items == []
    ensures 0 < size && |stream| <= size ==> items == stream
    ensures 0 < size < |stream| ==> IsVector(size, draws[size..]) && IsSampleOf(items, stream, size, draws[size..])
  {
    var sample := new ReservoirSample<T>(size);
    for i := 0 to |stream|
      invariant sample.Valid() && sample.size == size && fresh(sample)
      invariant size > 0 ==> sample.stream == stream[..i] && sample.seen == i
      invariant sample.draws == Drawn(draws, size, i)
    {
      TakeNext(stream, i);
      DrawNext(draws, size, i);
      sample.Add(stream[i], if size <= 0 then 0 else draws[i]);
    }
    AllTaken(stream);
    AllDrawn(draws, size);
    items := sample.items;
  }
}
