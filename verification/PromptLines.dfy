/**
 Which lines `rewrite-system-prompt.ts` sends to the model, and which part of them, said by the places of
 the characters in a line and of the lines in the file.
 */
module PromptLines {
  import opened Wrappers
  import opened PromptText
  import opened PromptRewrite

  // ----- White space

  /** The code points that ECMAScript trims and `\s` matches. */
  predicate White(c: char) {
    var n := c as int;
    9 <= n <= 13 || 0x2000 <= n <= 0x200a || n in {0x20, 0xa0, 0x1680, 0x2028, 0x2029, 0x202f, 0x205f, 0x3000, 0xfeff}
  }

  ghost predicate AllWhite(s: string, from: nat, to: nat)
    requires from <= to <= |s|
  {
    forall i :: from <= i < to ==> White(s[i])
  }

  lemma {:induction false} WhiteExactly(c: char)
    ensures IsSpace(c) <==> White(c)
  {
  }

  lemma {:induction false} SpacesExactly(s: string, i: nat)
    requires i <= |s|
    ensures AllWhite(s, i, i + Spaces(s, i))
    ensures i + Spaces(s, i) < |s| ==> !White(s[i + Spaces(s, i)])
    decreases |s| - i
  {
    if i < |s| {
      WhiteExactly(s[i]);
      if White(s[i]) {
        SpacesExactly(s, i + 1);
      }
    }
  }

  lemma {:induction false} WhiteIsCounted(s: string, i: nat, n: nat)
    requires i <= n <= |s| && AllWhite(s, i, n)
    ensures n <= i + Spaces(s, i)
  {
    SpacesExactly(s, i);
  }

  lemma {:induction false} TrimStartCuts(s: string) returns (p: nat)
    ensures p <= |s| && TrimStart(s) == s[p..] && AllWhite(s, 0, p) && (p < |s| ==> !White(s[p]))
  {
    if s != "" {
      WhiteExactly(s[0]);
      if White(s[0]) {
        var q := TrimStartCuts(s[1..]);
        p := q + 1;
        assert s[1..][q..] == s[p..];
        forall i | 0 <= i < p ensures White(s[i]) {
          assert i > 0 ==> s[i] == s[1..][i - 1];
        }
        return;
      }
    }
    p := 0;
  }

  lemma {:induction false} TrimEndCuts(s: string) returns (q: nat)
    ensures q <= |s| && TrimEnd(s) == s[..q] && AllWhite(s, q, |s|) && (q > 0 ==> !White(s[q - 1]))
  {
    if s != "" {
      var n := |s| - 1;
      WhiteExactly(s[n]);
      if White(s[n]) {
        q := TrimEndCuts(s[..n]);
        assert s[..n][..q] == s[..q];
        forall i | q <= i < |s| ensures White(s[i]) {
          assert i < n ==> s[i] == s[..n][i];
        }
        return;
      }
    }
    q := |s|;
    assert s[..q] == s;
  }

  /** Trimming takes off the white space at both ends and nothing else. */
  lemma {:induction false} TrimCuts(s: string) returns (p: nat, q: nat)
    ensures p <= q <= |s| && Trim(s) == s[p..q] && AllWhite(s, 0, p) && AllWhite(s, q, |s|)
    ensures p < q ==> !White(s[p]) && !White(s[q - 1])
  {
    p := TrimStartCuts(s);
    var n := TrimEndCuts(s[p..]);
    q := p + n;
    assert s[p..][..n] == s[p..q];
    forall i | q <= i < |s| ensures White(s[i]) {
      assert s[i] == s[p..][i - p];
    }
    if n > 0 {
      assert s[p..][n - 1] == s[q - 1];
    }
  }

  // ----- Marks

  /** Behind white space the line goes on with `mark`. */
  ghost predicate Begins(line: string, p: nat, mark: string) {
    p + |mark| <= |line| && AllWhite(line, 0, p) && line[p..p + |mark|] == mark
  }

  lemma {:induction false} BeginsExactly(line: string, mark: string)
    requires mark != "" && forall i :: 0 <= i < |mark| ==> !White(mark[i])
    ensures StartsWith(Trim(line), mark) <==> exists p: nat :: Begins(line, p, mark)
  {
    var p, q := TrimCuts(line);
    if StartsWith(Trim(line), mark) {
      assert line[p..q][..|mark|] == line[p..p + |mark|];
      assert Begins(line, p, mark);
    }
    if r: nat :| Begins(line, r, mark) {
      var n := |mark|;
      assert line[r] == line[r..r + n][0] && line[r + n - 1] == line[r..r + n][n - 1];
      assert r == p && r + n <= q;
      assert line[p..q][..n] == line[p..p + n];
    }
  }

  /** Nothing but three minus signs. */
  ghost predicate Rule(line: string) {
    exists p: nat :: Begins(line, p, "---") && AllWhite(line, p + 3, |line|)
  }

  lemma {:induction false} RuleExactly(line: string)
    ensures IsRule(line) <==> Rule(line)
  {
    var p, q := TrimCuts(line);
    if IsRule(line) {
      assert Begins(line, p, "---");
    }
    if r: nat :| Begins(line, r, "---") && AllWhite(line, r + 3, |line|) {
      assert line[r] == line[r..r + 3][0] && line[r + 2] == line[r..r + 3][2];
      assert r == p && r + 3 == q;
    }
  }

  /** The line begins with three or more of this fence character. */
  ghost predicate Fences(line: string, c: char) {
    (c == '`' && exists p: nat :: Begins(line, p, "```")) || (c == '~' && exists p: nat :: Begins(line, p, "~~~"))
  }

  lemma {:induction false} FenceExactly(line: string, c: char)
    ensures Fence(line) == Some(c) <==> Fences(line, c)
  {
    BeginsExactly(line, "```");
    BeginsExactly(line, "~~~");
  }

  // ----- Protected lines

  /** The frontmatter ends with line `n`: the first line is a rule, and this is the next one. */
  ghost predicate FrontmatterEnds(lines: seq<string>, n: nat) {
    1 <= n < |lines| && Rule(lines[0]) && Rule(lines[n]) && forall k :: 1 <= k < n ==> !Rule(lines[k])
  }

  lemma {:induction false} BodyStartExactly(lines: seq<string>)
    ensures forall n: nat :: FrontmatterEnds(lines, n) <==> BodyStart(lines) == n + 1
  {
    forall k | 0 <= k < |lines| ensures IsRule(lines[k]) <==> Rule(lines[k]) {
      RuleExactly(lines[k]);
    }
  }

  /** Line `o` opens a block fenced with `c`: it is no line of a block opened before. */
  ghost predicate Opens(lines: seq<string>, body: nat, o: nat, c: char)
    decreases o, 2
  {
    body <= o < |lines| && Fences(lines[o], c) && !Inside(lines, body, o)
  }

  /** A block opened before line `i` is not closed before it. */
  ghost predicate Inside(lines: seq<string>, body: nat, i: nat)
    decreases i, 1
  {
    exists c :: Holds(lines, body, i, c)
  }

  ghost predicate Holds(lines: seq<string>, body: nat, i: nat, c: char)
    decreases i, 0
  {
    exists o: nat :: o < i <= |lines| && Opens(lines, body, o, c) && OpenUntil(lines, o, i, c)
  }

  ghost predicate OpenUntil(lines: seq<string>, o: nat, i: nat, c: char)
    requires i <= |lines|
  {
    forall j :: o < j < i ==> !Fences(lines[j], c)
  }

  lemma {:induction false} OpenFenceExactly(lines: seq<string>, i: nat, c: char)
    requires BodyStart(lines) <= i <= |lines|
    ensures OpenFence(lines, i) == Some(c) <==> Holds(lines, BodyStart(lines), i, c)
    decreases i
  {
    if i > BodyStart(lines) {
      var n := i - 1;
      FenceExactly(lines[n], c);
      forall d ensures OpenFence(lines, n) == Some(d) <==> Holds(lines, BodyStart(lines), n, d) {
        OpenFenceExactly(lines, n, d);
      }
      OpenStep(lines, n, c);
    }
  }

  /** A block is open behind a line if the line opens it, or it was open and the line does not close it. */
  lemma {:induction false} OpenStep(lines: seq<string>, n: nat, c: char)
    requires BodyStart(lines) <= n < |lines|
    ensures Holds(lines, BodyStart(lines), n + 1, c) <==>
            (Holds(lines, BodyStart(lines), n, c) && !Fences(lines[n], c)) || (Fences(lines[n], c) && !Inside(lines, BodyStart(lines), n))
  {
    var body := BodyStart(lines);
    if o: nat :| o < n + 1 && Opens(lines, body, o, c) && OpenUntil(lines, o, n + 1, c) {
      if o < n {
        assert OpenUntil(lines, o, n, c);
      }
    }
    if o: nat :| o < n && Opens(lines, body, o, c) && OpenUntil(lines, o, n, c) && !Fences(lines[n], c) {
      assert OpenUntil(lines, o, n + 1, c);
    }
    if Fences(lines[n], c) && !Inside(lines, body, n) {
      assert Opens(lines, body, n, c) && OpenUntil(lines, n, n + 1, c);
    }
  }

  /** Protected are the frontmatter, every line that opens a fenced block, and all lines behind it up to
      and with the next line with the same fence, or to the end. */
  lemma {:induction false} SkippedExactly(lines: seq<string>, i: nat)
    requires i < |lines|
    ensures Skipped(lines, i) <==>
            || (exists n: nat :: i <= n && FrontmatterEnds(lines, n))
            || Inside(lines, BodyStart(lines), i)
            || exists c :: Opens(lines, BodyStart(lines), i, c)
  {
    BodyStartExactly(lines);
    var body := BodyStart(lines);
    if i < body {
      assert FrontmatterEnds(lines, body - 1);
    } else {
      assert forall n: nat :: i <= n ==> !FrontmatterEnds(lines, n);
      FencedExactly(lines, i);
    }
  }

  lemma {:induction false} FencedExactly(lines: seq<string>, i: nat)
    requires BodyStart(lines) <= i < |lines|
    ensures OpenFence(lines, i).Some? || Fence(lines[i]).Some? <==>
            Inside(lines, BodyStart(lines), i) || exists c :: Opens(lines, BodyStart(lines), i, c)
  {
    var body := BodyStart(lines);
    forall c ensures Holds(lines, body, i, c) <==> OpenFence(lines, i) == Some(c) {
      OpenFenceExactly(lines, i, c);
    }
    forall c ensures Fences(lines[i], c) <==> Fence(lines[i]) == Some(c) {
      FenceExactly(lines[i], c);
    }
    if OpenFence(lines, i).Some? {
      assert Holds(lines, body, i, OpenFence(lines, i).value);
    } else if Fence(lines[i]).Some? {
      assert Fences(lines[i], Fence(lines[i]).value);
      assert Inside(lines, body, i) || Opens(lines, body, i, Fence(lines[i]).value);
    }
  }

  // ----- The part of a line that is sent

  /** White space, two opening braces, text without a closing one, two closing braces, white space. */
  ghost predicate TokenParts(s: string, a: nat, b: nat) {
    && a + 2 <= b && b + 2 <= |s| && AllWhite(s, 0, a) && s[a] == s[a + 1] == '{'
    && (forall i :: a + 2 <= i < b ==> s[i] != '}') && s[b] == s[b + 1] == '}' && AllWhite(s, b + 2, |s|)
  }

  ghost predicate Token(s: string) {
    exists a: nat, b: nat :: TokenParts(s, a, b)
  }

  lemma {:induction false} SpacesAre(s: string, a: nat)
    requires a < |s| && AllWhite(s, 0, a) && !White(s[a])
    ensures Spaces(s, 0) == a
  {
    SpacesExactly(s, 0);
  }

  lemma {:induction false} UntilBraceIs(s: string, i: nat, j: nat)
    requires i <= j < |s| && s[j] == '}' && forall k :: i <= k < j ==> s[k] != '}'
    ensures UntilBrace(s, i) == j
    decreases j - i
  {
    if i < j {
      UntilBraceIs(s, i + 1, j);
    }
  }

  lemma {:induction false} NoBraceBefore(s: string, i: nat)
    requires i <= |s|
    ensures forall k :: i <= k < UntilBrace(s, i) ==> s[k] != '}'
    decreases |s| - i
  {
    if i < |s| && s[i] != '}' {
      NoBraceBefore(s, i + 1);
    }
  }

  /** The block token found at the start is one. */
  lemma {:induction false} BlockIsToken(s: string)
    requires BlockAtStart(s).Some?
    ensures Token(s[..BlockAtStart(s).value])
  {
    var n := BlockAtStart(s).value;
    var a := Spaces(s, 0);
    var b := UntilBrace(s, a + 2);
    SpacesExactly(s, 0);
    SpacesExactly(s, b + 2);
    NoBraceBefore(s, a + 2);
    assert TokenParts(s[..n], a, b);
  }

  lemma {:induction false} PartsAreBlock(s: string, a: nat, b: nat)
    requires a + 2 <= b && b + 2 <= |s| && AllWhite(s, 0, a) && s[a] == s[a + 1] == '{'
    requires (forall i :: a + 2 <= i < b ==> s[i] != '}') && s[b] == s[b + 1] == '}'
    ensures BlockAtStart(s) == Some(b + 2 + Spaces(s, b + 2))
  {
    assert !White(s[a]);
    SpacesAre(s, a);
    UntilBraceIs(s, a + 2, b);
  }

  /** And no token at the start is longer. */
  lemma {:induction false} TokenIsBlock(s: string, n: nat)
    requires n <= |s| && Token(s[..n])
    ensures BlockAtStart(s).Some? && n <= BlockAtStart(s).value
  {
    var t := s[..n];
    var a: nat, b: nat :| TokenParts(t, a, b);
    assert forall i :: 0 <= i < n ==> t[i] == s[i];
    PartsAreBlock(s, a, b);
    WhiteIsCounted(s, b + 2, n);
  }

  ghost predicate TokenAt(s: string, i: nat, j: nat) {
    i <= j <= |s| && Token(s[i..j])
  }

  lemma {:induction false} BlockToEndExactly(s: string, end: nat, k: nat)
    requires k <= end <= |s|
    ensures BlockToEnd(s[..end], k) <==> TokenAt(s, k, end)
  {
    var t := s[..end][k..];
    assert t == s[k..end] && t[..|t|] == t;
    if BlockToEnd(s[..end], k) {
      BlockIsToken(t);
    }
    if TokenAt(s, k, end) {
      TokenIsBlock(t, |t|);
    }
  }

  /** Taking the longest token off the end of `s[..end]`, again and again, leaves `s[..n]`. */
  ghost predicate EndsAt(s: string, end: nat, n: nat)
    requires end <= |s|
    decreases end
  {
    if exists k: nat :: k < end && TokenAt(s, k, end) then
      exists k: nat :: k < end && TokenAt(s, k, end) && (forall j: nat :: j < k ==> !TokenAt(s, j, end)) && EndsAt(s, k, n)
    else n == end
  }

  lemma {:induction false} EndsOneMore(s: string, end: nat, k: nat, n: nat)
    requires k < end <= |s| && TokenAt(s, k, end) && (forall j: nat :: j < k ==> !TokenAt(s, j, end)) && EndsAt(s, k, n)
    ensures EndsAt(s, end, n)
  {
  }

  lemma {:induction false} EndsHere(s: string, end: nat)
    requires end <= |s| && forall k: nat :: k < end ==> !TokenAt(s, k, end)
    ensures EndsAt(s, end, end)
  {
  }

  lemma {:induction false} SuffixExactly(s: string, end: nat)
    requires end <= |s|
    ensures SuffixStart(s[..end]) <= end && EndsAt(s, end, SuffixStart(s[..end]))
    decreases end
  {
    var t := s[..end];
    var at := BlockAtEnd(t, 0);
    BlockAtEndFindsFirst(t, 0);
    forall k: nat | k < end ensures BlockToEnd(t, k) <==> TokenAt(s, k, end) {
      BlockToEndExactly(s, end, k);
    }
    if at.Some? {
      var k := at.value;
      SuffixExactly(s, k);
      assert t[..k] == s[..k];
      EndsOneMore(s, end, k, SuffixStart(s[..k]));
    } else {
      EndsHere(s, end);
    }
  }

  /** Taking the longest token off the start of `s[from..]`, again and again, leaves `s[n..]`. */
  ghost predicate StartsAt(s: string, from: nat, n: nat)
    requires from <= |s|
    decreases |s| - from
  {
    if exists k: nat :: from < k && TokenAt(s, from, k) then
      exists k: nat :: from < k && TokenAt(s, from, k) && (forall j: nat :: k < j ==> !TokenAt(s, from, j)) && StartsAt(s, k, n)
    else n == from
  }

  lemma {:induction false} StartsOneMore(s: string, from: nat, k: nat, n: nat)
    requires from < k <= |s| && TokenAt(s, from, k) && (forall j: nat :: k < j ==> !TokenAt(s, from, j)) && StartsAt(s, k, n)
    ensures StartsAt(s, from, n)
  {
  }

  lemma {:induction false} StartsHere(s: string, from: nat)
    requires from <= |s| && forall k: nat :: from < k ==> !TokenAt(s, from, k)
    ensures StartsAt(s, from, from)
  {
  }

  lemma {:induction false} BlockAtStartExactly(s: string, from: nat)
    requires from <= |s|
    ensures var m := BlockAtStart(s[from..]);
            && (m.Some? ==> TokenAt(s, from, from + m.value))
            && (forall j: nat :: TokenAt(s, from, j) ==> m.Some? && j <= from + m.value)
  {
    var t := s[from..];
    if BlockAtStart(t).Some? {
      BlockIsToken(t);
      assert t[..BlockAtStart(t).value] == s[from..from + BlockAtStart(t).value];
    }
    forall j: nat | TokenAt(s, from, j) ensures BlockAtStart(t).Some? && j <= from + BlockAtStart(t).value {
      assert t[..j - from] == s[from..j];
      TokenIsBlock(t, j - from);
    }
  }

  /** Where the tokens at the start end, counted in the whole text. */
  function PrefixEnd(s: string, from: nat): nat
    requires from <= |s|
  {
    from + PrefixLength(s[from..])
  }

  /** A token at the start is a longest one, and the rest begins behind it. */
  lemma {:induction false} FirstToken(s: string, from: nat) returns (k: nat)
    requires from <= |s| && BlockAtStart(s[from..]).Some?
    ensures from < k <= |s| && TokenAt(s, from, k) && (forall j: nat :: k < j ==> !TokenAt(s, from, j))
    ensures PrefixEnd(s, from) == PrefixEnd(s, k)
  {
    BlockAtStartExactly(s, from);
    var v := BlockAtStart(s[from..]).value;
    k := from + v;
    assert s[from..][v..] == s[k..];
  }

  lemma {:induction false} NoFirstToken(s: string, from: nat)
    requires from <= |s| && BlockAtStart(s[from..]).None?
    ensures PrefixEnd(s, from) == from && forall k: nat :: from < k ==> !TokenAt(s, from, k)
  {
    BlockAtStartExactly(s, from);
  }

  lemma {:induction false} PrefixExactly(s: string, from: nat)
    requires from <= |s|
    ensures StartsAt(s, from, PrefixEnd(s, from))
    decreases |s| - from
  {
    if BlockAtStart(s[from..]).Some? {
      var k := FirstToken(s, from);
      PrefixExactly(s, k);
      StartsOneMore(s, from, k, PrefixEnd(s, k));
    } else {
      NoFirstToken(s, from);
      StartsHere(s, from);
    }
  }

  predicate IsDigit(c: char) {
    c in {'0', '1', '2', '3', '4', '5', '6', '7', '8', '9'}
  }

  /** White space, a minus, star or plus sign or a number with a dot, and white space again. */
  ghost predicate MarkerParts(s: string, a: nat, b: nat) {
    && a < b < |s| && AllWhite(s, 0, a) && AllWhite(s, b, |s|)
    && ((b == a + 1 && s[a] in {'-', '*', '+'})
        || (b >= a + 2 && s[b - 1] == '.' && forall i :: a <= i < b - 1 ==> IsDigit(s[i])))
  }

  ghost predicate Marker(s: string) {
    exists a: nat, b: nat :: MarkerParts(s, a, b)
  }

  lemma {:induction false} DigitsExactly(s: string, i: nat)
    requires i <= |s|
    ensures forall k :: i <= k < i + Digits(s, i) ==> IsDigit(s[k])
    ensures i + Digits(s, i) < |s| ==> !IsDigit(s[i + Digits(s, i)])
    decreases |s| - i
  {
    if i < |s| && '0' <= s[i] <= '9' {
      DigitsExactly(s, i + 1);
    }
  }

  /** Where the parts of a marker found at the start are. */
  lemma {:induction false} FoundHasParts(s: string) returns (a: nat, b: nat)
    requires MarkerAtStart(s) > 0
    ensures a < b < MarkerAtStart(s) <= |s| && AllWhite(s, 0, a) && AllWhite(s, b, MarkerAtStart(s))
    ensures (b == a + 1 && s[a] in {'-', '*', '+'})
            || (b == a + Digits(s, a) + 1 && b >= a + 2 && s[b - 1] == '.')
  {
    a := Spaces(s, 0);
    SpacesExactly(s, 0);
    b := MarkerBody(s, a);
    SpacesExactly(s, b);
  }

  lemma {:induction false} MarkerBody(s: string, a: nat) returns (b: nat)
    requires a == Spaces(s, 0) && MarkerAtStart(s) > 0
    ensures a < b < |s| && Spaces(s, b) > 0 && MarkerAtStart(s) == b + Spaces(s, b)
    ensures (b == a + 1 && s[a] in {'-', '*', '+'})
            || (b == a + Digits(s, a) + 1 && b >= a + 2 && s[b - 1] == '.')
  {
    b := if s[a] == '-' || s[a] == '*' || s[a] == '+' then a + 1 else a + Digits(s, a) + 1;
  }

  lemma {:induction false} FoundIsMarker(s: string)
    requires MarkerAtStart(s) > 0
    ensures Marker(s[..MarkerAtStart(s)])
  {
    var a, b := FoundHasParts(s);
    DigitsExactly(s, a);
    assert MarkerParts(s[..MarkerAtStart(s)], a, b);
  }

  lemma {:induction false} DigitsAre(s: string, i: nat, m: nat)
    requires i <= m < |s| && !IsDigit(s[m]) && forall k :: i <= k < m ==> IsDigit(s[k])
    ensures Digits(s, i) == m - i
  {
    DigitsExactly(s, i);
  }

  /** A marker with these parts is found, with all the white space behind it. */
  lemma {:induction false} PartsAreFound(s: string, a: nat, b: nat)
    requires a < b < |s| && Spaces(s, 0) == a && Spaces(s, b) > 0
    requires (b == a + 1 && s[a] in {'-', '*', '+'}) || (b >= a + 2 && IsDigit(s[a]) && s[b - 1] == '.' && Digits(s, a) == b - 1 - a)
    ensures MarkerAtStart(s) == b + Spaces(s, b)
  {
  }

  lemma {:induction false} MarkerIsFound(s: string, n: nat)
    requires n <= |s| && Marker(s[..n])
    ensures n <= MarkerAtStart(s)
  {
    var t := s[..n];
    var a: nat, b: nat :| MarkerParts(t, a, b);
    assert forall i :: 0 <= i < n ==> t[i] == s[i];
    assert !White(s[a]);
    SpacesAre(s, a);
    assert White(s[b]);
    WhiteIsCounted(s, b, n);
    if b >= a + 2 {
      DigitsAre(s, a, b - 1);
    }
    PartsAreFound(s, a, b);
  }

  /** The longest list marker at `from` ends at `to`; without one nothing is taken. */
  ghost predicate MarkerEnds(s: string, from: nat, to: nat) {
    && from <= to <= |s| && (from < to ==> Marker(s[from..to]))
    && forall j :: to < j <= |s| ==> !Marker(s[from..j])
  }

  lemma {:induction false} MarkerExactly(s: string, from: nat)
    requires from <= |s|
    ensures MarkerEnds(s, from, from + MarkerAtStart(s[from..]))
  {
    var t := s[from..];
    var n := MarkerAtStart(t);
    if n > 0 {
      FoundIsMarker(t);
      assert t[..n] == s[from..from + n];
    }
    forall j | from + n < j <= |s| ensures !Marker(s[from..j]) {
      assert t[..j - from] == s[from..j];
      if Marker(s[from..j]) {
        MarkerIsFound(t, j - from);
      }
    }
  }

  /** The prefix and the suffix are the tokens at both ends, and a marker behind those at the start. */
  ghost predicate PeelsTo(line: string, prefix: string, core: string, suffix: string) {
    && line == prefix + core + suffix
    && EndsAt(line, |line|, |prefix + core|)
    && exists n: nat :: n <= |prefix| && StartsAt(prefix + core, 0, n) && MarkerEnds(prefix + core, n, |prefix|)
  }

  lemma {:induction false} PartsMakeUp(line: string, n: nat, c: nat)
    requires c <= n <= |line|
    ensures line[..n][..c] + line[..n][c..] == line[..n] && line[..n] + line[n..] == line
  {
  }

  lemma {:induction false} PeelsExactly(line: string)
    ensures var s := line[..SuffixStart(line)];
            PeelsTo(line, s[..CoreStart(s)], s[CoreStart(s)..], line[SuffixStart(line)..])
  {
    var s := line[..SuffixStart(line)];
    SuffixOfLine(line);
    PrefixOfText(s);
    MarkerOfText(s);
    PartsMakeUp(line, SuffixStart(line), CoreStart(s));
  }

  lemma {:induction false} SuffixOfLine(line: string)
    ensures EndsAt(line, |line|, SuffixStart(line))
  {
    assert line[..|line|] == line;
    SuffixExactly(line, |line|);
  }

  lemma {:induction false} PrefixOfText(s: string)
    ensures StartsAt(s, 0, PrefixLength(s))
  {
    assert s[0..] == s;
    PrefixExactly(s, 0);
  }

  lemma {:induction false} MarkerOfText(s: string)
    ensures MarkerEnds(s, PrefixLength(s), CoreStart(s))
  {
    MarkerExactly(s, PrefixLength(s));
  }

  lemma {:induction false} SomethingLeft(s: string)
    ensures Trim(s) != "" <==> exists k :: 0 <= k < |s| && !White(s[k])
  {
    var p, q := TrimCuts(s);
    if p == q {
      assert forall k :: 0 <= k < |s| ==> White(s[k]);
    }
  }

  /** A line is sent if and only if it is not protected, not verbatim, and has more than white space left when
      peeled; its entry holds the parts it is peeled to. */
  lemma {:induction false} ProseExactly(lines: seq<string>, i: nat, cl: Classifier)
    requires i < |lines|
    ensures var e := EntryAt(lines, i, cl);
            && PeelsTo(lines[i], e.prefix, e.core, e.suffix) && e.lineIndex == i && e.tokens == cl.tokensOf(e.core)
            && (IsProse(lines, i, cl) <==>
                !Skipped(lines, i) && !cl.isVerbatim(lines[i]) && exists k :: 0 <= k < |e.core| && !White(e.core[k]))
  {
    PeelsExactly(lines[i]);
    SomethingLeft(CoreOf(lines[i]));
  }
}
