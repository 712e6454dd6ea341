/** The text tests of `rewrite-system-prompt.ts`: peeling a line and keeping its fragile tokens. */
module PromptText {
  import opened Wrappers

  /** White space and line terminators of ECMAScript. */
  predicate IsSpace(c: char) {
    '\t' <= c <= '\r' || c == ' ' || c == '\U{A0}' || c == '\U{1680}' || '\U{2000}' <= c <= '\U{200A}' || c == '\U{2028}' ||
    c == '\U{2029}' || c == '\U{202F}' || c == '\U{205F}' || c == '\U{3000}' || c == '\U{FEFF}'
  }

  /** How many characters from `i` on satisfy `IsSpace`. */
  function Spaces(s: string, i: nat): (n: nat)
    requires i <= |s|
    ensures i + n <= |s|
    ensures i + n == |s| || !IsSpace(s[i + n])
    decreases |s| - i
  {
    if i < |s| && IsSpace(s[i]) then 1 + Spaces(s, i + 1) else 0
  }

  /** The first closing brace from `i` on, or the end. */
  function UntilBrace(s: string, i: nat): (j: nat)
    requires i <= |s|
    ensures i <= j <= |s| && (j < |s| ==> s[j] == '}')
    decreases |s| - i
  {
    if i < |s| && s[i] != '}' then UntilBrace(s, i + 1) else i
  }

  /** Length of a block token with the spaces around it, at the start of `s`. */
  function BlockAtStart(s: string): (r: Option<nat>)
    ensures r.Some? ==> 4 <= r.value <= |s|
  {
    var a := Spaces(s, 0);
    if a + 2 > |s| || s[a] != '{' || s[a + 1] != '{' then None
    else
      var b := UntilBrace(s, a + 2);
      if b + 2 > |s| || s[b + 1] != '}' then None
      else Some(b + 2 + Spaces(s, b + 2))
  }

  /** A block token with its spaces reaches from `i` to the end. */
  predicate BlockToEnd(s: string, i: nat)
    requires i <= |s|
  {
    BlockAtStart(s[i..]) == Some(|s| - i)
  }

  /** Leftmost place from `i` on where a block token reaches to the end of the line. */
  function BlockAtEnd(s: string, i: nat): (r: Option<nat>)
    requires i <= |s|
    ensures r.Some? ==> i <= r.value < |s|
    decreases |s| - i
  {
    if i == |s| then None
    else if BlockToEnd(s, i) then Some(i)
    else BlockAtEnd(s, i + 1)
  }

  function Digits(s: string, i: nat): (n: nat)
    requires i <= |s|
    ensures i + n <= |s|
    decreases |s| - i
  {
    if i < |s| && '0' <= s[i] <= '9' then 1 + Digits(s, i + 1) else 0
  }

  /** Length of a list marker with the spaces around it, at the start of `s`; zero without one. */
  function MarkerAtStart(s: string): (n: nat)
    ensures n <= |s|
  {
    var a := Spaces(s, 0);
    if a == |s| then 0
    else
      var end := if s[a] == '-' || s[a] == '*' || s[a] == '+' then a + 1
                 else
                   var d := Digits(s, a);
                   if d > 0 && a + d < |s| && s[a + d] == '.' then a + d + 1 else a;
      if end > a && Spaces(s, end) > 0 then end + Spaces(s, end) else 0
  }

  /** No block token reaches to the end of the text. */
  ghost predicate NoBlockAtEnd(s: string) {
    forall k :: 0 <= k < |s| ==> !BlockToEnd(s, k)
  }

  lemma {:induction false} BlockAtEndFindsFirst(s: string, i: nat)
    requires i <= |s|
    ensures BlockAtEnd(s, i).Some? ==>
              var k := BlockAtEnd(s, i).value;
              BlockToEnd(s, k) && forall j :: i <= j < k ==> !BlockToEnd(s, j)
    ensures BlockAtEnd(s, i).None? ==> forall j :: i <= j < |s| ==> !BlockToEnd(s, j)
    decreases |s| - i
  {
    if i < |s| {
      BlockAtEndFindsFirst(s, i + 1);
    }
  }

  lemma {:induction false} NoBlockAtEndOfTail(s: string, k: nat)
    requires k <= |s| && NoBlockAtEnd(s)
    ensures NoBlockAtEnd(s[k..])
  {
    forall i | 0 <= i < |s[k..]| ensures !BlockToEnd(s[k..], i) {
      assert s[k..][i..] == s[k + i..];
      assert !BlockToEnd(s, k + i);
    }
  }

  /** How much of the line is left without its trailing block tokens. */
  function SuffixStart(s: string): (n: nat)
    ensures n <= |s|
    decreases |s|
  {
    var at := BlockAtEnd(s, 0);
    if at.Some? then SuffixStart(s[..at.value]) else |s|
  }

  /** Length of the leading block tokens. */
  function PrefixLength(s: string): (n: nat)
    ensures n <= |s|
    decreases |s|
  {
    var m := BlockAtStart(s);
    if m.Some? then m.value + PrefixLength(s[m.value..]) else 0
  }

  lemma {:induction false} SuffixIsAllOff(s: string)
    ensures NoBlockAtEnd(s[..SuffixStart(s)])
    decreases |s|
  {
    var at := BlockAtEnd(s, 0);
    BlockAtEndFindsFirst(s, 0);
    if at.Some? {
      SuffixIsAllOff(s[..at.value]);
      assert s[..at.value][..SuffixStart(s)] == s[..SuffixStart(s)];
    } else {
      assert s[..|s|] == s;
    }
  }

  lemma {:induction false} PrefixIsAllOff(s: string)
    ensures BlockAtStart(s[PrefixLength(s)..]).None?
    decreases |s|
  {
    var m := BlockAtStart(s);
    if m.Some? {
      PrefixIsAllOff(s[m.value..]);
      assert s[m.value..][PrefixLength(s[m.value..])..] == s[PrefixLength(s)..];
    }
  }

  /** What one block token taken off the end leaves. */
  lemma {:induction false} PeelNext(line: string, s: string, suffix: string, at: nat)
    requires |s| <= |line| && s == line[..|s|] && suffix == line[|s|..] && at < |s|
    ensures s[..at] == line[..at] && s[at..] + suffix == line[at..]
  {
  }

  method PeelSuffix(line: string) returns (s: string, suffix: string)
    ensures s == line[..SuffixStart(line)] && suffix == line[SuffixStart(line)..]
  {
    s, suffix := line, "";
    var at := BlockAtEnd(s, 0);
    while at.Some?
      invariant |s| <= |line| && s == line[..|s|] && suffix == line[|s|..] && at == BlockAtEnd(s, 0)
      invariant SuffixStart(s) == SuffixStart(line)
      decreases |s|
    {
      PeelNext(line, s, suffix, at.value);
      suffix := s[at.value..] + suffix;
      s := s[..at.value];
      at := BlockAtEnd(s, 0);
    }
  }

  method PeelPrefix(text: string) returns (prefix: string, s: string)
    ensures prefix == text[..PrefixLength(text)] && s == text[PrefixLength(text)..]
  {
    prefix, s := "", text;
    var m := BlockAtStart(s);
    while m.Some?
      invariant |prefix| <= |text| && prefix == text[..|prefix|] && s == text[|prefix|..] && m == BlockAtStart(s)
      invariant |prefix| + PrefixLength(s) == PrefixLength(text)
      decreases |s|
    {
      assert prefix + s[..m.value] == text[..|prefix| + m.value];
      prefix := prefix + s[..m.value];
      s := s[m.value..];
      m := BlockAtStart(s);
    }
  }

  /** Where the core of a line starts: behind the leading block tokens and one list marker. */
  function CoreStart(text: string): (n: nat)
    ensures n <= |text|
  {
    PrefixLength(text) + MarkerAtStart(text[PrefixLength(text)..])
  }

  /** The three parts always make up the line again; block tokens at both ends and one list marker
      are taken off. */
  method Peel(line: string) returns (prefix: string, core: string, suffix: string)
    ensures prefix + core + suffix == line
    ensures suffix == line[SuffixStart(line)..] && prefix == line[..SuffixStart(line)][..CoreStart(line[..SuffixStart(line)])]
  {
    var s, rest: string;
    s, suffix := PeelSuffix(line);
    prefix, rest := PeelPrefix(s);
    var marker := MarkerAtStart(rest);
    Slices(s, PrefixLength(s), marker);
    Slices(line, 0, SuffixStart(line));
    prefix := prefix + rest[..marker];
    core := rest[marker..];
  }

  lemma {:induction false} Slices(s: string, p: nat, m: nat)
    requires p + m <= |s|
    ensures s[..p] + s[p..][..m] == s[..p + m] && s[p..][m..] == s[p + m..]
    ensures s[..p + m] + s[p + m..] == s
  {
  }

  /** The core ends in no block token, and before its list marker it starts with none. */
  lemma {:induction false} CoreIsPeeled(line: string)
    ensures var s := line[..SuffixStart(line)];
            NoBlockAtEnd(s[CoreStart(s)..]) && BlockAtStart(s[PrefixLength(s)..]).None?
  {
    var s := line[..SuffixStart(line)];
    SuffixIsAllOff(line);
    PrefixIsAllOff(s);
    NoBlockAtEndOfTail(s, CoreStart(s));
  }

  // ----- Fragile tokens

  predicate StartsWith(s: string, tok: string) {
    |tok| <= |s| && s[..|tok|] == tok
  }

  /** `s.split(tok).length - 1`: occurrences from the left without overlap; splitting at the empty
      string cuts between all characters. */
  function Occurrences(s: string, tok: string): (n: int)
    ensures tok != "" ==> n >= 0
    decreases |s|
  {
    if tok == "" then |s| - 1
    else if |s| < |tok| then 0
    else if StartsWith(s, tok) then 1 + Occurrences(s[|tok|..], tok)
    else Occurrences(s[1..], tok)
  }

  ghost predicate Preserves(text: string, tokens: seq<string>) {
    forall tok :: tok in tokens ==> multiset(tokens)[tok] <= Occurrences(text, tok)
  }

  /** Every token occurs at least as often in the rewritten text as it is listed. */
  method PreservesTokens(rewritten: string, tokens: seq<string>) returns (r: bool)
    ensures r <==> Preserves(rewritten, tokens)
  {
    var want: map<string, nat> := map[];
    for i := 0 to |tokens|
      invariant forall tok :: tok in want <==> tok in tokens[..i]
      invariant forall tok :: tok in want ==> want[tok] == multiset(tokens[..i])[tok]
    {
      var tok := tokens[i];
      assert tokens[..i + 1] == tokens[..i] + [tok];
      assert tok !in tokens[..i] ==> multiset(tokens[..i])[tok] == 0;
      want := want[tok := (if tok in want then want[tok] else 0) + 1];
    }
    assert tokens[..|tokens|] == tokens;
    var left := want.Keys;
    while left != {}
      invariant left <= want.Keys
      invariant forall tok :: tok in want && tok !in left ==> want[tok] <= Occurrences(rewritten, tok)
      decreases |left|
    {
      var tok :| tok in left;
      assert tok in tokens;
      if Occurrences(rewritten, tok) < want[tok] {
        return false;
      }
      left := left - {tok};
    }
    return true;
  }

  /** Ascending starts of occurrences of `tok` that do not overlap. */
  ghost predicate DisjointOccurrences(s: string, tok: string, starts: seq<nat>) {
    && (forall k :: 0 <= k < |starts| ==> starts[k] + |tok| <= |s| && s[starts[k]..starts[k] + |tok|] == tok)
    && (forall j, k :: 0 <= j < k < |starts| ==> starts[j] + |tok| <= starts[k])
  }

  function ShiftLeft(starts: seq<nat>, by': nat): (r: seq<nat>)
    requires forall k :: 0 <= k < |starts| ==> by' <= starts[k]
    ensures |r| == |starts| && forall k :: 0 <= k < |r| ==> r[k] == starts[k] - by'
  {
    seq(|starts|, k requires 0 <= k < |starts| => starts[k] - by')
  }

  lemma {:induction false} ShiftOccurrences(s: string, tok: string, starts: seq<nat>, n: nat)
    requires DisjointOccurrences(s, tok, starts) && n <= |s|
    requires forall k :: 0 <= k < |starts| ==> n <= starts[k]
    ensures DisjointOccurrences(s[n..], tok, ShiftLeft(starts, n))
  {
    var shifted := ShiftLeft(starts, n);
    forall k | 0 <= k < |shifted|
      ensures shifted[k] + |tok| <= |s[n..]| && s[n..][shifted[k]..shifted[k] + |tok|] == tok
    {
      assert s[n..][shifted[k]..shifted[k] + |tok|] == s[starts[k]..starts[k] + |tok|];
    }
  }

  function ShiftRight(starts: seq<nat>, by': nat): (r: seq<nat>)
    ensures |r| == |starts| && forall k :: 0 <= k < |r| ==> r[k] == starts[k] + by'
  {
    seq(|starts|, k requires 0 <= k < |starts| => starts[k] + by')
  }

  lemma {:induction false} ShiftedOccurrences(s: string, tok: string, starts: seq<nat>, n: nat)
    requires n <= |s| && DisjointOccurrences(s[n..], tok, starts)
    ensures DisjointOccurrences(s, tok, ShiftRight(starts, n))
  {
    var shifted := ShiftRight(starts, n);
    forall k | 0 <= k < |shifted|
      ensures shifted[k] + |tok| <= |s| && s[shifted[k]..shifted[k] + |tok|] == tok
    {
      assert s[n..][starts[k]..starts[k] + |tok|] == s[shifted[k]..shifted[k] + |tok|];
    }
  }

  /** As many occurrences as are counted do stand in the text side by side. */
  lemma {:induction false} CountIsReached(s: string, tok: string) returns (starts: seq<nat>)
    requires tok != ""
    ensures DisjointOccurrences(s, tok, starts) && |starts| == Occurrences(s, tok)
    decreases |s|
  {
    if |s| < |tok| {
      return [];
    }
    var n := if StartsWith(s, tok) then |tok| else 1;
    var rest := CountIsReached(s[n..], tok);
    ShiftedOccurrences(s, tok, rest, n);
    starts := ShiftRight(rest, n);
    if StartsWith(s, tok) {
      OneInFront(s, tok, starts);
      starts := [0] + starts;
    }
  }

  lemma {:induction false} OneInFront(s: string, tok: string, starts: seq<nat>)
    requires StartsWith(s, tok) && DisjointOccurrences(s, tok, starts)
    requires forall k :: 0 <= k < |starts| ==> |tok| <= starts[k]
    ensures DisjointOccurrences(s, tok, [0] + starts)
  {
    var more := [0] + starts;
    forall k | 0 <= k < |more| ensures more[k] + |tok| <= |s| && s[more[k]..more[k] + |tok|] == tok {
      assert k > 0 ==> more[k] == starts[k - 1];
    }
  }

  /** Counting from the left finds as many occurrences as any disjoint choice of them. */
  lemma {:induction false} CountingFromLeftIsMaximal(s: string, tok: string, starts: seq<nat>)
    requires tok != "" && DisjointOccurrences(s, tok, starts)
    ensures |starts| <= Occurrences(s, tok)
    decreases |s|
  {
    if starts != [] {
      assert s[starts[0]..starts[0] + |tok|] == tok;
      if StartsWith(s, tok) {
        var rest := starts[1..];
        ShiftOccurrences(s, tok, rest, |tok|);
        CountingFromLeftIsMaximal(s[|tok|..], tok, ShiftLeft(rest, |tok|));
      } else {
        assert starts[0] != 0;
        ShiftOccurrences(s, tok, starts, 1);
        CountingFromLeftIsMaximal(s[1..], tok, ShiftLeft(starts, 1));
      }
    }
  }

  /** Matches of the token pattern: non-empty pieces of the text, one after the other. */
  datatype Match = Match(start: nat, end: nat)

  ghost predicate AreMatches(s: string, ms: seq<Match>) {
    && (forall k :: 0 <= k < |ms| ==> ms[k].start < ms[k].end <= |s|)
    && (forall j, k :: 0 <= j < k < |ms| ==> ms[j].end <= ms[k].start)
  }

  function TokensOf(s: string, ms: seq<Match>): seq<string>
    requires forall k :: 0 <= k < |ms| ==> ms[k].start < ms[k].end <= |s|
  {
    if ms == [] then [] else TokensOf(s, ms[..|ms| - 1]) + [s[ms[|ms| - 1].start..ms[|ms| - 1].end]]
  }

  function StartsOf(s: string, ms: seq<Match>, tok: string): seq<nat>
    requires forall k :: 0 <= k < |ms| ==> ms[k].start < ms[k].end <= |s|
  {
    if ms == [] then []
    else
      var m := ms[|ms| - 1];
      StartsOf(s, ms[..|ms| - 1], tok) + if s[m.start..m.end] == tok then [m.start] else []
  }

  lemma {:induction false} OneMoreOccurrence(s: string, tok: string, starts: seq<nat>, at: nat)
    requires DisjointOccurrences(s, tok, starts) && at + |tok| <= |s| && s[at..at + |tok|] == tok
    requires forall k :: 0 <= k < |starts| ==> starts[k] + |tok| <= at
    ensures DisjointOccurrences(s, tok, starts + [at])
  {
  }

  /** All occurrences end at or before `end`. */
  ghost predicate EndBy(starts: seq<nat>, tok: string, end: nat) {
    forall k :: 0 <= k < |starts| ==> starts[k] + |tok| <= end
  }

  lemma {:induction false} EndsEarlier(starts: seq<nat>, tok: string, end: nat, later: nat)
    requires EndBy(starts, tok, end) && end <= later
    ensures EndBy(starts, tok, later)
  {
  }

  lemma {:induction false} EarlierMatches(s: string, ms: seq<Match>)
    requires AreMatches(s, ms) && ms != []
    ensures AreMatches(s, ms[..|ms| - 1])
    ensures |ms| > 1 ==> ms[..|ms| - 1][|ms| - 2].end <= ms[|ms| - 1].start
  {
    var front := ms[..|ms| - 1];
    forall j, k | 0 <= j < k < |front| ensures front[j].end <= front[k].start {
      assert ms[j].end <= ms[k].start;
    }
  }

  lemma {:induction false} StartsBefore(s: string, ms: seq<Match>, tok: string)
    requires AreMatches(s, ms) && ms != []
    requires |ms| > 1 ==> EndBy(StartsOf(s, ms[..|ms| - 1], tok), tok, ms[..|ms| - 1][|ms| - 2].end)
    ensures EndBy(StartsOf(s, ms[..|ms| - 1], tok), tok, ms[|ms| - 1].start)
  {
    EarlierMatches(s, ms);
    var n := |ms| - 1;
    if n > 0 {
      EndsEarlier(StartsOf(s, ms[..n], tok), tok, ms[..n][n - 1].end, ms[n].start);
    }
  }

  lemma {:induction false} StartsAreOccurrences(s: string, ms: seq<Match>, tok: string)
    requires AreMatches(s, ms)
    ensures DisjointOccurrences(s, tok, StartsOf(s, ms, tok))
    ensures ms != [] ==> EndBy(StartsOf(s, ms, tok), tok, ms[|ms| - 1].end)
    ensures ms == [] ==> StartsOf(s, ms, tok) == []
  {
    if ms != [] {
      var n := |ms| - 1;
      var front, m := StartsOf(s, ms[..n], tok), ms[n];
      EarlierMatches(s, ms);
      StartsAreOccurrences(s, ms[..n], tok);
      StartsBefore(s, ms, tok);
      EndsEarlier(front, tok, m.start, m.end);
      if s[m.start..m.end] == tok {
        OneMoreOccurrence(s, tok, front, m.start);
      }
    }
  }

  lemma {:induction false} StartsAreCounted(s: string, ms: seq<Match>, tok: string)
    requires AreMatches(s, ms)
    ensures |StartsOf(s, ms, tok)| == multiset(TokensOf(s, ms))[tok]
  {
    if ms != [] {
      StartsAreCounted(s, ms[..|ms| - 1], tok);
    }
  }

  lemma {:induction false} TokensAreNotEmpty(s: string, ms: seq<Match>)
    requires AreMatches(s, ms)
    ensures forall k :: 0 <= k < |TokensOf(s, ms)| ==> TokensOf(s, ms)[k] != ""
  {
    if ms != [] {
      TokensAreNotEmpty(s, ms[..|ms| - 1]);
    }
  }

  /** The check never turns down a text that was left alone. */
  lemma {:induction false} UnchangedTextIsAccepted(s: string, ms: seq<Match>)
    requires AreMatches(s, ms)
    ensures Preserves(s, TokensOf(s, ms))
  {
    TokensAreNotEmpty(s, ms);
    forall tok | tok in TokensOf(s, ms) ensures multiset(TokensOf(s, ms))[tok] <= Occurrences(s, tok) {
      StartsAreOccurrences(s, ms, tok);
      StartsAreCounted(s, ms, tok);
      CountingFromLeftIsMaximal(s, tok, StartsOf(s, ms, tok));
    }
  }
}
