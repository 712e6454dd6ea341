/**
 The `getopts` builtin of `getopts.rs`: one call reports one option and keeps its place in shell
 variables.  A whole run of calls is compared with a one-shot parse of the argument list, which
 follows the `getopts` utility of POSIX.1-2017 (XCU) and the Utility Syntax Guidelines of
 section 12.2 of XBD.
 */
module GetOpts {
  import opened Wrappers

  // ----- The option string

  /** Which letters are options, whether each takes an argument, and silent error reporting. */
  datatype OptionSpec = OptionSpec(defs: map<char, bool>, silent: bool)

  function FirstIndex(s: string, c: char): (i: nat)
    requires c in s
    ensures i < |s| && s[i] == c && c !in s[..i]
  {
    if s[0] == c then 0
    else
      var i := FirstIndex(s[1..], c);
      assert s[..i + 1] == [s[0]] + s[1..][..i];
      i + 1
  }

  /** The first occurrence of the letter decides: a colon right after it asks for an argument. */
  predicate TakesArgument(s: string, c: char)
    requires c in s
  {
    var i := FirstIndex(s, c);
    i + 1 < |s| && s[i + 1] == ':'
  }

  function SpecOf(s: string): OptionSpec {
    OptionSpec(map c | c in s && c != ':' :: TakesArgument(s, c), s != [] && s[0] == ':')
  }

  lemma {:induction false} FirstIndexStable(p: string, x: char, c: char)
    requires c in p
    ensures c in p + [x] && FirstIndex(p + [x], c) == FirstIndex(p, c)
  {
    assert (p + [x])[0] == p[0];
    if p[0] != c {
      assert (p + [x])[1..] == p[1..] + [x];
      FirstIndexStable(p[1..], x, c);
    }
  }

  lemma {:induction false} FirstIndexNew(p: string, c: char)
    requires c !in p
    ensures c in p + [c] && FirstIndex(p + [c], c) == |p|
  {
    if p != [] {
      assert (p + [c])[1..] == p[1..] + [c];
      FirstIndexNew(p[1..], c);
    }
  }

  /** What the loop remembers as `last_char`: the letter only colons have followed since, unless
      that letter was a repetition. */
  ghost predicate LastChar(p: string, last: Option<char>) {
    match last
    case Some(l) => l != ':' && l in p && forall k :: FirstIndex(p, l) < k < |p| ==> p[k] == ':'
    case None => p != [] && p[|p| - 1] != ':' ==> FirstIndex(p, p[|p| - 1]) < |p| - 1
  }

  lemma {:induction false} ColonStep(p: string, last: Option<char>, c: char)
    requires LastChar(p, last) && c in p && c != ':'
    ensures c in p + ":"
    ensures TakesArgument(p + ":", c) <==> TakesArgument(p, c) || last == Some(c)
    ensures LastChar(p + ":", last)
  {
    FirstIndexStable(p, ':', c);
    if last.Some? {
      FirstIndexStable(p, ':', last.value);
    }
  }

  lemma {:induction false} LetterStep(p: string, x: char, c: char)
    requires c in p && x != ':'
    ensures c in p + [x] && (TakesArgument(p + [x], c) <==> TakesArgument(p, c))
  {
    FirstIndexStable(p, x, c);
  }

  ghost predicate SpecLoop(p: string, defs: map<char, bool>, silent: bool, last: Option<char>) {
    && defs == SpecOf(p).defs && silent == SpecOf(p).silent && LastChar(p, last)
  }

  lemma {:induction false} DefsAre(p: string, defs: map<char, bool>)
    requires forall c :: c in defs <==> c in p && c != ':'
    requires forall c :: c in defs ==> defs[c] == TakesArgument(p, c)
    ensures defs == SpecOf(p).defs
  {
  }

  lemma {:induction false} ColonDefs(p: string, last: Option<char>)
    requires LastChar(p, last)
    ensures SpecOf(p + ":").defs == if last.Some? then SpecOf(p).defs[last.value := true] else SpecOf(p).defs
  {
    var defs := if last.Some? then SpecOf(p).defs[last.value := true] else SpecOf(p).defs;
    forall c | c in defs ensures defs[c] == TakesArgument(p + ":", c) {
      ColonStep(p, last, c);
    }
    DefsAre(p + ":", defs);
  }

  lemma {:induction false} ColonKeepsLoop(p: string, defs: map<char, bool>, silent: bool, last: Option<char>)
    requires SpecLoop(p, defs, silent, last)
    ensures SpecLoop(p + ":", if last.Some? then defs[last.value := true] else defs,
                     silent || (last.None? && defs == map[]), last)
  {
    ColonDefs(p, last);
    if p != [] {
      assert (p + ":")[0] == p[0];
      assert p[0] != ':' ==> p[0] in defs;
      if last.Some? {
        ColonStep(p, last, last.value);
      }
    }
  }

  lemma {:induction false} LetterDefs(p: string, x: char)
    requires x != ':'
    ensures SpecOf(p + [x]).defs == if x in p then SpecOf(p).defs else SpecOf(p).defs[x := false]
  {
    var defs := if x in p then SpecOf(p).defs else SpecOf(p).defs[x := false];
    forall c | c in defs ensures defs[c] == TakesArgument(p + [x], c) {
      if c in p {
        LetterStep(p, x, c);
      } else {
        FirstIndexNew(p, x);
      }
    }
    DefsAre(p + [x], defs);
  }

  lemma {:induction false} LetterLast(p: string, x: char)
    requires x != ':'
    ensures LastChar(p + [x], if x in p then None else Some(x))
  {
    if x in p {
      FirstIndexStable(p, x, x);
    } else {
      FirstIndexNew(p, x);
    }
  }

  lemma {:induction false} LetterKeepsLoop(p: string, defs: map<char, bool>, silent: bool, last: Option<char>, x: char)
    requires SpecLoop(p, defs, silent, last) && x != ':'
    ensures SpecLoop(p + [x], if x in defs then defs else defs[x := false], silent, if x in defs then None else Some(x))
  {
    LetterDefs(p, x);
    LetterLast(p, x);
    if p != [] {
      assert (p + [x])[0] == p[0];
    }
  }

  method ParseOptionSpec(spec: string) returns (r: OptionSpec)
    ensures r == SpecOf(spec)
  {
    var defs: map<char, bool> := map[];
    var silent := false;
    var lastChar: Option<char> := None;
    for i := 0 to |spec|
      invariant SpecLoop(spec[..i], defs, silent, lastChar)
    {
      var c := spec[i];
      assert spec[..i + 1] == spec[..i] + [c];
      if c == ':' {
        ColonKeepsLoop(spec[..i], defs, silent, lastChar);
        if lastChar.Some? {
          defs := defs[lastChar.value := true];
        } else if defs == map[] {
          silent := true;
        }
        continue;
      }
      LetterKeepsLoop(spec[..i], defs, silent, lastChar, c);
      if c !in defs {
        defs := defs[c := false];
        lastChar := Some(c);
      } else {
        lastChar := None;
      }
    }
    assert spec[..|spec|] == spec;
    r := OptionSpec(defs, silent);
  }

  // ----- One option

  /** What one successful step found. */
  datatype Item = Flag(c: char) | WithArgument(c: char, value: string) | Unknown(c: char) | Missing(c: char)

  /** How an item shows in the target variable and in OPTARG. */
  datatype Report = Report(variable: string, optarg: Option<string>)

  function Show(spec: OptionSpec, item: Item): Report {
    match item
    case Flag(c) => Report([c], None)
    case WithArgument(c, value) => Report([c], Some(value))
    case Unknown(c) => Report("?", if spec.silent then Some([c]) else None)
    case Missing(c) => if spec.silent then Report(":", Some([c])) else Report("?", None)
  }

  predicate IsOption(arg: string) {
    arg != [] && arg[0] == '-' && arg != "--" && arg != "-"
  }

  /** `parse_next_option`: report, new OPTIND, stored char index, and whether an option was found. */
  datatype Next = Next(report: Report, optind: nat, nextChar: Option<nat>, success: bool)

  const DEFAULT_NEXT_CHAR: nat := 1

  function ParseNextOption(spec: OptionSpec, args: seq<string>, index: nat, nextChar: Option<nat>): Next
    requires index >= 1
  {
    if index > |args| then Next(Report("?", None), |args| + 1, nextChar, false)
    else
      var arg := args[index - 1];
      if !IsOption(arg) then
        Next(Report("?", None), if arg == "--" then index + 1 else index, nextChar, false)
      else
        var stored := if nextChar.Some? then nextChar.value else DEFAULT_NEXT_CHAR;
        var at := if stored < |arg| then stored else DEFAULT_NEXT_CHAR;
        var c, last := arg[at], at == |arg| - 1;
        if c in spec.defs && spec.defs[c] then
          if !last then Next(Report([c], Some(arg[at + 1..])), index + 1, None, true)
          else if index >= |args| then
            Next(if spec.silent then Report(":", Some([c])) else Report("?", None), index + 1, None, true)
          else Next(Report([c], Some(args[index])), index + 2, None, true)
        else
          var report := if c in spec.defs then Report([c], None)
                        else Report("?", if spec.silent then Some([c]) else None);
          if last then Next(report, index + 1, None, true)
          else Next(report, index, Some(at + 1), true)
  }

  // ----- The shell variables

  const I32_MAX: int := 0x7fff_ffff

  /** A variable holding `n`, read back as a 32-bit integer. */
  function ReadBack(n: nat): Option<int> {
    if n <= I32_MAX then Some(n) else None
  }

  /** OPTIND and the two hidden variables as numbers (`None` when unset or not a number), OPTARG,
      and the target variable. */
  datatype Vars = Vars(
    optind: Option<int>, lastOptind: Option<int>, nextChar: Option<nat>,
    optarg: Option<string>, variable: string)

  function SignedIndex(v: Vars): int {
    if v.optind.Some? then v.optind.value else 1
  }

  /** The char index survives only if OPTIND is still what the previous call left there. */
  function KeptChar(v: Vars): Option<nat> {
    if v.lastOptind == Some(SignedIndex(v)) then v.nextChar else None
  }

  function Index(v: Vars): nat {
    if SignedIndex(v) > 1 then SignedIndex(v) else 1
  }

  /** One call of the builtin on the arguments it has to parse. */
  function Call(v: Vars, spec: OptionSpec, args: seq<string>): (r: (Vars, bool)) {
    Leave(ParseNextOption(spec, args, Index(v), KeptChar(v)))
  }

  /** What a call leaves in the variables, and its status. */
  function Leave(next: Next): (Vars, bool) {
    (Vars(ReadBack(next.optind), ReadBack(next.optind), next.nextChar, next.report.optarg, next.report.variable),
     next.success)
  }

  /** Shell state the builtin touches; `positional` are the shell's current arguments. */
  class Shell {
    var optind: Option<int>
    var lastOptind: Option<int>
    var nextChar: Option<nat>
    var optarg: Option<string>
    var variable: string
    const positional: seq<string>

    constructor (positional: seq<string>)
      ensures this.positional == positional && Variables() == Vars(None, None, None, None, "")
    {
      this.positional := positional;
      optind, lastOptind, nextChar, optarg, variable := None, None, None, None, "";
    }

    ghost function Variables(): Vars
      reads this
    {
      Vars(optind, lastOptind, nextChar, optarg, variable)
    }

    /** `execute`, with the outcome of the variable-name check given. */
    method Execute(optstring: string, validName: bool, args: seq<string>) returns (success: bool)
      modifies this
      ensures !validName ==> !success && Variables() == old(Variables())
      ensures validName ==>
                (Variables(), success) == Call(old(Variables()), SpecOf(optstring), if args != [] then args else positional)
    {
      if !validName {
        return false;
      }
      var spec := ParseOptionSpec(optstring);
      var signed := if optind.Some? then optind.value else 1;
      if lastOptind != Some(signed) {
        nextChar := None;
      }
      var index: nat := if signed > 1 then signed else 1;
      var toParse := if args != [] then args else positional;
      ghost var next := ParseNextOption(spec, toParse, index, nextChar);
      var report, newIndex, ok := NextOption(spec, toParse, index);
      variable := report.variable;
      optarg := report.optarg;
      optind := ReadBack(newIndex);
      lastOptind := ReadBack(newIndex);
      success := ok;
    }

    /** `parse_next_option`, updating the stored char index in place. */
    method NextOption(spec: OptionSpec, args: seq<string>, index: nat) returns (report: Report, newIndex: nat, ok: bool)
      requires index >= 1
      modifies this`nextChar
      ensures Next(report, newIndex, nextChar, ok) == ParseNextOption(spec, args, index, old(nextChar))
    {
      if index > |args| {
        return Report("?", None), |args| + 1, false;
      }
      var arg := args[index - 1];
      if !IsOption(arg) {
        return Report("?", None), if arg == "--" then index + 1 else index, false;
      }
      var at := if nextChar.Some? then nextChar.value else DEFAULT_NEXT_CHAR;
      if at >= |arg| {
        at := DEFAULT_NEXT_CHAR;
      }
      var c, last, nextIndex := arg[at], at == |arg| - 1, index;
      if c in spec.defs {
        report := Report([c], None);
        if spec.defs[c] {
          report, nextIndex := ResolveArgument(spec, c, arg, args, at, index);
          last := true;
        }
      } else {
        report := Report("?", if spec.silent then Some([c]) else None);
      }
      if last {
        nextChar := None;
        newIndex := nextIndex + 1;
      } else {
        nextChar := Some(at + 1);
        newIndex := nextIndex;
      }
      ok := true;
    }

    /** `resolve_option_argument`; the option is finished either way. */
    method ResolveArgument(spec: OptionSpec, c: char, arg: string, args: seq<string>, at: nat, index: nat)
      returns (report: Report, nextIndex: nat)
      requires 1 <= index <= |args| && at < |arg|
      ensures report == if at < |arg| - 1 then Report([c], Some(arg[at + 1..]))
                        else if index < |args| then Report([c], Some(args[index]))
                        else Show(spec, Missing(c))
      ensures nextIndex == if at == |arg| - 1 && index < |args| then index + 1 else index
    {
      nextIndex := index;
      if at == |arg| - 1 {
        if nextIndex >= |args| {
          report := if spec.silent then Report(":", Some([c])) else Report("?", None);
        } else {
          nextIndex := nextIndex + 1;
          report := Report([c], Some(args[nextIndex - 1]));
        }
      } else {
        report := Report([c], Some(arg[at + 1..]));
      }
    }
  }

  // ----- The one-shot parse

  /** The options of an argument list and how many arguments they take up. */
  datatype Parse = Parse(items: seq<Item>, consumed: nat)

  function Shift(p: Parse, count: nat): Parse {
    p.(consumed := p.consumed + count)
  }

  function Cons(item: Item, p: Parse): Parse {
    p.(items := [item] + p.items)
  }

  function ParseArgs(spec: OptionSpec, args: seq<string>): Parse
    decreases args, 0
  {
    if args == [] || !IsOption(args[0]) then Parse([], if args != [] && args[0] == "--" then 1 else 0)
    else Shift(ParseCluster(spec, args[0][1..], args[1..]), 1)
  }

  /** The rest of one argument, read letter by letter, and then the arguments after it. */
  function ParseCluster(spec: OptionSpec, letters: string, rest: seq<string>): Parse
    requires letters != []
    decreases rest, |letters|
  {
    var c, tail := letters[0], letters[1..];
    if c in spec.defs && spec.defs[c] then
      if tail != [] then Cons(WithArgument(c, tail), ParseArgs(spec, rest))
      else if rest != [] then Cons(WithArgument(c, rest[0]), Shift(ParseArgs(spec, rest[1..]), 1))
      else Parse([Missing(c)], 0)
    else
      Cons(if c in spec.defs then Flag(c) else Unknown(c),
           if tail != [] then ParseCluster(spec, tail, rest) else ParseArgs(spec, rest))
  }

  // ----- A whole run of calls

  /** A variable state stands at argument `i`, letter `k` of `args`. */
  ghost predicate At(v: Vars, args: seq<string>, i: nat, k: nat) {
    && i >= 1 && Index(v) == i
    && (i <= |args| && IsOption(args[i - 1]) ==>
          1 <= k < |args[i - 1]| && (KeptChar(v) == Some(k) || (k == 1 && KeptChar(v) == None)))
    && (i > |args| || !IsOption(args[i - 1]) ==> k == 1)
  }

  /** What remains to be parsed from a position. */
  ghost function Remaining(spec: OptionSpec, args: seq<string>, i: nat, k: nat): Parse
    requires i >= 1
    requires i <= |args| && IsOption(args[i - 1]) ==> 1 <= k < |args[i - 1]|
  {
    if i > |args| then Parse([], 0)
    else if IsOption(args[i - 1]) then Shift(ParseCluster(spec, args[i - 1][k..], args[i..]), 1)
    else ParseArgs(spec, args[i - 1..])
  }

  lemma {:induction false} RemainingAtStart(spec: OptionSpec, args: seq<string>, i: nat)
    requires 1 <= i <= |args| + 1
    ensures Remaining(spec, args, i, 1) == ParseArgs(spec, args[i - 1..])
  {
    if i <= |args| {
      assert args[i - 1..][0] == args[i - 1] && args[i - 1..][1..] == args[i..];
    }
  }

  /** Where a successful call leaves the position. */
  ghost function NextPosition(spec: OptionSpec, args: seq<string>, i: nat, k: nat): (nat, nat)
    requires 1 <= i <= |args| && IsOption(args[i - 1]) && 1 <= k < |args[i - 1]|
  {
    var c, last := args[i - 1][k], k == |args[i - 1]| - 1;
    if c in spec.defs && spec.defs[c] then (if last && i < |args| then (i + 2, 1) else (i + 1, 1))
    else if last then (i + 1, 1) else (i, k + 1)
  }

  /** A call from a position inside an option reports the first remaining item, moves on, and
      leaves the rest of the parse for later calls. */
  lemma {:induction false} SuccessfulCall(v: Vars, spec: OptionSpec, args: seq<string>, i: nat, k: nat)
    requires |args| < I32_MAX - 1 && At(v, args, i, k) && i <= |args| && IsOption(args[i - 1])
    ensures var (v', ok) := Call(v, spec, args);
            var (i', k') := NextPosition(spec, args, i, k);
            && ok && At(v', args, i', k')
            && i' <= |args| + 1 && (i < i' || (i == i' && k < k'))
            && Remaining(spec, args, i, k).items != []
            && Report(v'.variable, v'.optarg) == Show(spec, Remaining(spec, args, i, k).items[0])
            && Remaining(spec, args, i', k').items == Remaining(spec, args, i, k).items[1..]
            && i' + Remaining(spec, args, i', k').consumed == i + Remaining(spec, args, i, k).consumed
  {
    var arg := args[i - 1];
    var letters, rest := arg[k..], args[i..];
    assert letters[0] == arg[k] && letters[1..] == arg[k + 1..];
    var (i', k') := NextPosition(spec, args, i, k);
    CallState(v, spec, args, i, k);
    if i' == i + 1 {
      RemainingAtStart(spec, args, i');
    } else if i' == i + 2 {
      RemainingAtStart(spec, args, i');
      assert rest[0] == args[i] && rest[1..] == args[i + 1..];
    }
  }

  lemma {:induction false} CallState(v: Vars, spec: OptionSpec, args: seq<string>, i: nat, k: nat)
    requires |args| < I32_MAX - 1 && At(v, args, i, k) && i <= |args| && IsOption(args[i - 1])
    ensures var (v', ok) := Call(v, spec, args);
            var (i', k') := NextPosition(spec, args, i, k);
            ok && At(v', args, i', k')
    ensures var (v', _) := Call(v, spec, args);
            var c := args[i - 1][k];
            Report(v'.variable, v'.optarg) ==
            if c in spec.defs && spec.defs[c] then
              if k < |args[i - 1]| - 1 then Report([c], Some(args[i - 1][k + 1..]))
              else if i < |args| then Report([c], Some(args[i])) else Show(spec, Missing(c))
            else Show(spec, if c in spec.defs then Flag(c) else Unknown(c))
  {
  }

  /** Calls after the last option keep failing and leave OPTIND on the first operand. */
  lemma {:induction false} FinalCall(v: Vars, spec: OptionSpec, args: seq<string>, i: nat, k: nat)
    requires |args| < I32_MAX - 1 && At(v, args, i, k) && i <= |args| + 1
    requires i > |args| || !IsOption(args[i - 1])
    ensures var (v', ok) := Call(v, spec, args);
            && !ok && v'.variable == "?" && v'.optarg == None
            && v'.optind == Some(i + Remaining(spec, args, i, k).consumed)
            && Remaining(spec, args, i, k).items == []
  {
  }

  lemma {:induction false} SucceedsOnOptions(v: Vars, spec: OptionSpec, args: seq<string>, i: nat, k: nat)
    requires |args| < I32_MAX - 1 && At(v, args, i, k) && i <= |args| + 1
    ensures Call(v, spec, args).1 <==> i <= |args| && IsOption(args[i - 1])
  {
  }

  /** The reports of the successful calls, and the state after the first failing one. */
  ghost function RunFrom(v: Vars, spec: OptionSpec, args: seq<string>, i: nat, k: nat): (seq<Report>, Vars)
    requires |args| < I32_MAX - 1 && At(v, args, i, k) && i <= |args| + 1
    decreases |args| + 1 - i, if i <= |args| then |args[i - 1]| - k else 0
  {
    var (v', ok) := Call(v, spec, args);
    SucceedsOnOptions(v, spec, args, i, k);
    if !ok then ([], v')
    else
      SuccessfulCall(v, spec, args, i, k);
      var (i', k') := NextPosition(spec, args, i, k);
      var (reports, last) := RunFrom(v', spec, args, i', k');
      ([Report(v'.variable, v'.optarg)] + reports, last)
  }

  function ShowAll(spec: OptionSpec, items: seq<Item>): (r: seq<Report>)
    ensures |r| == |items| && forall j :: 0 <= j < |r| ==> r[j] == Show(spec, items[j])
  {
    seq(|items|, j requires 0 <= j < |items| => Show(spec, items[j]))
  }

  lemma {:induction false} ShowCons(spec: OptionSpec, items: seq<Item>)
    requires items != []
    ensures ShowAll(spec, items) == [Show(spec, items[0])] + ShowAll(spec, items[1..])
  {
  }

  lemma {:induction false} RunFromIsRemaining(v: Vars, spec: OptionSpec, args: seq<string>, i: nat, k: nat)
    requires |args| < I32_MAX - 1 && At(v, args, i, k) && i <= |args| + 1
    ensures RunFrom(v, spec, args, i, k).0 == ShowAll(spec, Remaining(spec, args, i, k).items)
    ensures RunFrom(v, spec, args, i, k).1.optind == Some(i + Remaining(spec, args, i, k).consumed)
    ensures RunFrom(v, spec, args, i, k).1.variable == "?"
    decreases |args| + 1 - i, if i <= |args| then |args[i - 1]| - k else 0
  {
    if i > |args| || !IsOption(args[i - 1]) {
      FinalCall(v, spec, args, i, k);
    } else {
      SuccessfulCall(v, spec, args, i, k);
      var v' := Call(v, spec, args).0;
      var (i', k') := NextPosition(spec, args, i, k);
      RunFromIsRemaining(v', spec, args, i', k');
      ShowCons(spec, Remaining(spec, args, i, k).items);
    }
  }

  /** OPTIND unset or 1, and no char index that could be resumed. */
  ghost predicate Fresh(v: Vars) {
    SignedIndex(v) == 1 && KeptChar(v) == None
  }

  /** Calling getopts until it fails reports exactly the options of the one-shot parse, in order,
      and leaves OPTIND just behind the arguments that parse takes up. */
  lemma {:induction false} RunIsOneShotParse(v: Vars, spec: OptionSpec, args: seq<string>)
    requires Fresh(v) && |args| < I32_MAX - 1
    ensures At(v, args, 1, 1)
    ensures RunFrom(v, spec, args, 1, 1).0 == ShowAll(spec, ParseArgs(spec, args).items)
    ensures RunFrom(v, spec, args, 1, 1).1.optind == Some(1 + ParseArgs(spec, args).consumed)
    ensures RunFrom(v, spec, args, 1, 1).1.variable == "?"
  {
    RunFromIsRemaining(v, spec, args, 1, 1);
    RemainingAtStart(spec, args, 1);
    assert args[0..] == args;
  }

  // ----- Which arguments are options

  /** A call succeeds exactly at an argument that starts with a dash, says more, and is not `--`. */
  lemma {:induction false} CallSucceedsExactly(v: Vars, spec: OptionSpec, args: seq<string>, i: nat)
    requires v.optind == Some(i) && i >= 1
    ensures Call(v, spec, args).1 <==>
            i <= |args| && |args[i - 1]| >= 2 && args[i - 1][0] == '-' && !(|args[i - 1]| == 2 && args[i - 1][1] == '-')
  {
    if i <= |args| && |args[i - 1]| == 2 {
      assert args[i - 1] == [args[i - 1][0], args[i - 1][1]];
    }
  }

  /** An empty argument, a single dash and an argument without a dash stop the scan where it stands. */
  lemma {:induction false} OperandStopsTheScan(v: Vars, spec: OptionSpec, args: seq<string>, i: nat)
    requires v.optind == Some(i) && 1 <= i <= |args| < I32_MAX - 1
    requires |args[i - 1]| == 0 || args[i - 1][0] != '-' || |args[i - 1]| == 1
    ensures var (after, ok) := Call(v, spec, args);
            !ok && after.variable == "?" && after.optarg == None && after.optind == Some(i)
    ensures ParseArgs(spec, args[i - 1..]) == Parse([], 0)
  {
    assert args[i - 1..][0] == args[i - 1];
  }

  /** `--` stops it behind itself. */
  lemma {:induction false} EndMarkerStopsTheScan(v: Vars, spec: OptionSpec, args: seq<string>, i: nat)
    requires v.optind == Some(i) && 1 <= i <= |args| < I32_MAX - 1 && args[i - 1] == "--"
    ensures var (after, ok) := Call(v, spec, args);
            !ok && after.variable == "?" && after.optarg == None && after.optind == Some(i + 1)
    ensures ParseArgs(spec, args[i - 1..]) == Parse([], 1)
  {
    assert args[i - 1..][0] == args[i - 1];
  }

  /** Behind the arguments OPTIND is set to the number of arguments and one. */
  lemma {:induction false} NothingLeftToScan(v: Vars, spec: OptionSpec, args: seq<string>, i: nat)
    requires v.optind == Some(i) && |args| < i && |args| < I32_MAX - 1
    ensures var (after, ok) := Call(v, spec, args);
            !ok && after.variable == "?" && after.optarg == None && after.optind == Some(|args| + 1)
  {
  }

  /** An OPTIND that is unset or not a number counts as 1; one below 1 starts at the first argument. */
  lemma {:induction false} OptindDefaultsToOne(v: Vars, spec: OptionSpec, args: seq<string>, n: int)
    requires n < 1 && v.lastOptind != Some(n)
    ensures Call(v.(optind := None), spec, args) == Call(v.(optind := Some(1)), spec, args)
    ensures Call(v.(optind := Some(n)), spec, args) == Call(v.(optind := Some(1), nextChar := None), spec, args)
  {
  }

  // ----- Writing to OPTIND between calls

  /** The script has written `i` to OPTIND. */
  function Reset(v: Vars, i: nat): Vars {
    v.(optind := Some(i))
  }

  /** The same, with nothing left over from earlier calls. */
  function FreshAt(v: Vars, i: nat): Vars {
    v.(optind := Some(i), lastOptind := None, nextChar := None)
  }

  /** The one coincidence: in `-?x` a call that takes `x` for the argument of the option `?` and a call
      that takes it for an unknown option leave the same variables. */
  predicate LooksTheSame(spec: OptionSpec, arg: string, k: nat) {
    && |arg| == 3 && k == 2 && arg[1] == '?'
    && '?' in spec.defs && spec.defs['?'] && arg[2] !in spec.defs && spec.silent
  }

  /** The write is noticed, or there is no letter inside the argument to resume at. */
  predicate RestartsAt(v: Vars, spec: OptionSpec, arg: string, i: nat) {
    v.lastOptind != Some(i) || v.nextChar.None? || v.nextChar.value == 1 || v.nextChar.value >= |arg| ||
    LooksTheSame(spec, arg, v.nextChar.value)
  }

  /** What a call leaves when it looks at letter `k` of an option-like argument. */
  function AfterLetter(spec: OptionSpec, args: seq<string>, i: nat, k: nat): Next
    requires 1 <= i <= |args| && IsOption(args[i - 1]) && k < |args[i - 1]|
  {
    ParseNextOption(spec, args, i, Some(k))
  }

  /** The letter that a stored position stands for. */
  function LetterAt(arg: string, nextChar: Option<nat>): nat {
    if nextChar.Some? && nextChar.value < |arg| then nextChar.value else 1
  }

  lemma {:induction false} CallReadsLetter(v: Vars, spec: OptionSpec, args: seq<string>, i: nat)
    requires 1 <= i <= |args| && IsOption(args[i - 1]) && v.optind == Some(i)
    ensures LetterAt(args[i - 1], KeptChar(v)) < |args[i - 1]|
    ensures Call(v, spec, args) == Leave(AfterLetter(spec, args, i, LetterAt(args[i - 1], KeptChar(v))))
  {
    assert ParseNextOption(spec, args, i, KeptChar(v)) == AfterLetter(spec, args, i, LetterAt(args[i - 1], KeptChar(v)));
  }

  lemma {:induction false} LeaveTellsApart(spec: OptionSpec, args: seq<string>, i: nat, k: nat)
    requires 1 <= i <= |args| < I32_MAX - 1 && IsOption(args[i - 1]) && k < |args[i - 1]|
    ensures Leave(AfterLetter(spec, args, i, k)) == Leave(AfterLetter(spec, args, i, 1))
            <==> AfterLetter(spec, args, i, k) == AfterLetter(spec, args, i, 1)
  {
    var a, b := AfterLetter(spec, args, i, k), AfterLetter(spec, args, i, 1);
    assert a.optind <= i + 2 && b.optind <= i + 2;
    if Leave(a) == Leave(b) {
      LeaveIsInjective(a, b);
    }
  }

  lemma {:induction false} LeaveIsInjective(a: Next, b: Next)
    requires a.optind <= I32_MAX && b.optind <= I32_MAX && Leave(a) == Leave(b)
    ensures a == b
  {
  }

  /** Different letters of an argument leave different variables, but for the coincidence. */
  lemma {:induction false} LettersTellApart(optstring: string, args: seq<string>, i: nat, k: nat)
    requires 1 <= i <= |args| && IsOption(args[i - 1]) && k < |args[i - 1]| && k != 1
    ensures AfterLetter(SpecOf(optstring), args, i, k) == AfterLetter(SpecOf(optstring), args, i, 1)
            <==> LooksTheSame(SpecOf(optstring), args[i - 1], k)
  {
    var spec, arg := SpecOf(optstring), args[i - 1];
    var rest, rest' := arg[2..], arg[k + 1..];
    assert |rest| == |arg| - 2 && |rest'| == |arg| - 1 - k;
    if |arg| == 3 {
      assert rest == [arg[2]];
    }
  }

  /** After writing `i` the next call does what a first call at argument `i` does, if and only if the
      write is noticed or no letter inside the argument is stored. */
  lemma {:induction false} ResettingOptindRestartsExactly(v: Vars, optstring: string, args: seq<string>, i: nat)
    requires 1 <= i <= |args| < I32_MAX - 1 && IsOption(args[i - 1])
    ensures Call(Reset(v, i), SpecOf(optstring), args) == Call(FreshAt(v, i), SpecOf(optstring), args)
            <==> RestartsAt(v, SpecOf(optstring), args[i - 1], i)
  {
    var arg, spec := args[i - 1], SpecOf(optstring);
    var k := LetterAt(arg, KeptChar(Reset(v, i)));
    CallReadsLetter(Reset(v, i), spec, args, i);
    CallReadsLetter(FreshAt(v, i), spec, args, i);
    LeaveTellsApart(spec, args, i, k);
    if k != 1 {
      LettersTellApart(optstring, args, i, k);
    }
  }

  /** Where the write is noticed the scan restarts there, whatever stands at `i`. */
  lemma {:induction false} NoticedResetRestarts(v: Vars, args: seq<string>, i: nat)
    requires 1 <= i <= |args| + 1 && v.lastOptind != Some(i)
    ensures At(Reset(v, i), args, i, 1)
  {
  }

  /** `OPTIND=1` inside the first cluster is lost: the letter after it is read next. */
  lemma {:induction false} ResetInsideTheFirstClusterIsLost(v: Vars)
    requires Fresh(v)
    ensures var once := Call(v, SpecOf("ab"), ["-ab"]);
            && once.1 && once.0.variable == "a" && once.0.optind == Some(1)
            && Call(Reset(once.0, 1), SpecOf("ab"), ["-ab"]).0.variable == "b"
  {
    assert "-ab"[1] == 'a' && "-ab"[2] == 'b';
    assert 'a' in "ab" && 'b' in "ab";
    assert !TakesArgument("ab", 'a') && !TakesArgument("ab", 'b');
  }

  // ----- How many options there can be

  function Letters(args: seq<string>): nat {
    if args == [] then 0 else (if IsOption(args[0]) then |args[0]| - 1 else 0) + Letters(args[1..])
  }

  lemma {:induction false} ClusterIsBounded(spec: OptionSpec, letters: string, rest: seq<string>)
    requires letters != []
    ensures |ParseCluster(spec, letters, rest).items| <= |letters| + Letters(rest)
    ensures ParseCluster(spec, letters, rest).consumed <= |rest|
    decreases rest, |letters|
  {
    var c, tail := letters[0], letters[1..];
    if c in spec.defs && spec.defs[c] {
      if tail != [] {
        SuccessesAreBounded(spec, rest);
      } else if rest != [] {
        SuccessesAreBounded(spec, rest[1..]);
      }
    } else if tail != [] {
      ClusterIsBounded(spec, tail, rest);
    } else {
      SuccessesAreBounded(spec, rest);
    }
  }

  /** At most one success per letter of an option-like argument; never more arguments than there are. */
  lemma {:induction false} SuccessesAreBounded(spec: OptionSpec, args: seq<string>)
    ensures |ParseArgs(spec, args).items| <= Letters(args)
    ensures ParseArgs(spec, args).consumed <= |args|
    decreases args, 0
  {
    if args != [] && IsOption(args[0]) {
      ClusterIsBounded(spec, args[0][1..], args[1..]);
    }
  }

  // ----- Clusters and attached arguments are only spelling

  /** One argument (or two) per option, then `--` and the operands. */
  function Spell(items: seq<Item>, operands: seq<string>): seq<string> {
    if items == [] then ["--"] + operands
    else match items[0]
      case WithArgument(c, value) => [['-', c], value] + Spell(items[1..], operands)
      case item => [['-', item.c]] + Spell(items[1..], operands)
  }

  /** An item that the option string allows and that can be spelled as `-c`. */
  predicate Spellable(spec: OptionSpec, item: Item) {
    && item.c != '-'
    && match item
       case Flag(c) => c in spec.defs && !spec.defs[c]
       case WithArgument(c, _) => c in spec.defs && spec.defs[c]
       case Unknown(c) => c !in spec.defs
       case Missing(_) => false
  }

  lemma {:induction false} SpelledItemParses(spec: OptionSpec, item: Item, rest: seq<string>)
    requires Spellable(spec, item)
    ensures var args := (if item.WithArgument? then [['-', item.c], item.value] else [['-', item.c]]) + rest;
            ParseArgs(spec, args) ==
            Cons(item, Shift(ParseArgs(spec, rest), if item.WithArgument? then 2 else 1))
  {
    var args := (if item.WithArgument? then [['-', item.c], item.value] else [['-', item.c]]) + rest;
    assert args[0] == ['-', item.c] && IsOption(args[0]);
    assert args[0][1..] == [item.c];
    assert [item.c][1..] == [];
    if item.WithArgument? {
      assert args[1..][0] == item.value && args[1..][1..] == rest;
    } else {
      assert args[1..] == rest;
    }
  }

  lemma {:induction false} DropTwice<T>(s: seq<T>, n: nat, m: nat)
    requires n + m <= |s|
    ensures s[n..][m..] == s[n + m..]
  {
  }

  /** Parsing a spelled-out list gives back the items and stops exactly before the operands. */
  lemma {:induction false} SpelledListParses(spec: OptionSpec, items: seq<Item>, operands: seq<string>)
    requires forall j :: 0 <= j < |items| ==> Spellable(spec, items[j])
    ensures ParseArgs(spec, Spell(items, operands)).items == items
    ensures |Spell(items, operands)| == ParseArgs(spec, Spell(items, operands)).consumed + |operands|
    ensures Spell(items, operands)[ParseArgs(spec, Spell(items, operands)).consumed..] == operands
  {
    var args := Spell(items, operands);
    if items != [] {
      var item, rest := items[0], Spell(items[1..], operands);
      assert Spellable(spec, item);
      SpelledListParses(spec, items[1..], operands);
      SpelledItemParses(spec, item, rest);
      var n := if item.WithArgument? then 2 else 1;
      assert args[n..] == rest;
      DropTwice(args, n, ParseArgs(spec, rest).consumed);
      assert items == [item] + items[1..];
    }
  }

  lemma {:induction false} ClusterItemsAllowed(spec: OptionSpec, letters: string, rest: seq<string>)
    requires letters != []
    ensures forall j :: 0 <= j < |ParseCluster(spec, letters, rest).items| ==>
              Allowed(spec, ParseCluster(spec, letters, rest).items[j])
    decreases rest, |letters|
  {
    var c, tail := letters[0], letters[1..];
    if c in spec.defs && spec.defs[c] {
      if tail != [] {
        ParsedItemsAllowed(spec, rest);
      } else if rest != [] {
        ParsedItemsAllowed(spec, rest[1..]);
      }
    } else if tail != [] {
      ClusterItemsAllowed(spec, tail, rest);
    } else {
      ParsedItemsAllowed(spec, rest);
    }
  }

  predicate Allowed(spec: OptionSpec, item: Item) {
    item.Missing? || item.c == '-' || Spellable(spec, item)
  }

  lemma {:induction false} ParsedItemsAllowed(spec: OptionSpec, args: seq<string>)
    ensures forall j :: 0 <= j < |ParseArgs(spec, args).items| ==> Allowed(spec, ParseArgs(spec, args).items[j])
    decreases args, 0
  {
    if args != [] && IsOption(args[0]) {
      ClusterItemsAllowed(spec, args[0][1..], args[1..]);
    }
  }

  /** Guidelines 5 to 7 and 10: grouping letters, attaching an argument and leaving out `--` are
      only spelling.  A parse that met no missing argument and no `-` as a letter reads the same
      options and operands when every option is written out on its own. */
  lemma {:induction false} SpellingOutKeepsTheMeaning(spec: OptionSpec, args: seq<string>)
    requires var items := ParseArgs(spec, args).items;
             forall j :: 0 <= j < |items| ==> !items[j].Missing? && items[j].c != '-'
    ensures ParseArgs(spec, args).consumed <= |args|
    ensures var parse := ParseArgs(spec, args);
            var spelled := Spell(parse.items, args[parse.consumed..]);
            var again := ParseArgs(spec, spelled);
            && again.items == parse.items
            && again.consumed <= |spelled| && spelled[again.consumed..] == args[parse.consumed..]
  {
    SuccessesAreBounded(spec, args);
    ParsedItemsAllowed(spec, args);
    var parse := ParseArgs(spec, args);
    forall j | 0 <= j < |parse.items| ensures Spellable(spec, parse.items[j]) {
      assert Allowed(spec, parse.items[j]);
    }
    SpelledListParses(spec, parse.items, args[parse.consumed..]);
  }

  /** The exception is real: `-a-` holds two letters, but spelled out its second is the end marker. */
  lemma {:induction false} DashLetterCannotBeSpelledOut()
    ensures var spec := SpecOf("a-");
            && ParseArgs(spec, ["-a-"]).items == [Flag('a'), Flag('-')]
            && ParseArgs(spec, ["-a", "--"]).items == [Flag('a')]
  {
    var spec := SpecOf("a-");
    assert FirstIndex("a-", 'a') == 0;
    assert "a-"[1..] == "-";
    assert FirstIndex("-", '-') == 0 && FirstIndex("a-", '-') == 1;
    assert "-a-"[1..] == "a-" && "-a"[1..] == "a" && "a"[1..] == "" && "-"[1..] == "";
    assert ["-a-"][1..] == [] && ["-a", "--"][1..] == ["--"];
    assert ParseCluster(spec, "-", []) == Parse([Flag('-')], 0);
  }
}
