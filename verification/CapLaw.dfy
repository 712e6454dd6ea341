/**
 Exactly when raising `max_lines` in `read_optimizer.py` never makes a group of reads pay for more
 calls: without context lines always, with context lines only for a cap of one against a cap at
 least twice the leading context.

 A replay is followed here through the set of lines delivered so far.
 */
module CapLaw {
  import opened Spans
  import opened ReadOptimizer

  function Calls(group: seq<ReadCall>, cfg: Config): nat {
    Play(group, cfg).bounded + Play(group, cfg).unbounded
  }

  // ----- Replays as sets of lines

  ghost function Asked(call: ReadCall, cfg: Config): set<int>
    requires !call.Unbounded?
  {
    Range(Requested(call, cfg).value.lo, Requested(call, cfg).value.hi)
  }

  ghost function Given(call: ReadCall, cfg: Config): set<int>
    requires !call.Unbounded?
  {
    Range(Delivered(call, cfg).value.lo, Delivered(call, cfg).value.hi)
  }

  /** Whether a call brings something: the request is not yet delivered whole. */
  ghost predicate Brings(seen: set<int>, call: ReadCall, cfg: Config) {
    !call.Unbounded? && !(Asked(call, cfg) <= seen)
  }

  ghost function One(b: bool): nat { if b then 1 else 0 }

  ghost function See(seen: set<int>, call: ReadCall, cfg: Config): set<int> {
    if Brings(seen, call, cfg) then seen + Given(call, cfg) else seen
  }

  ghost function SeeAll(seen: set<int>, calls: seq<ReadCall>, cfg: Config): set<int> {
    if calls == [] then seen
    else See(SeeAll(seen, calls[..|calls| - 1], cfg), calls[|calls| - 1], cfg)
  }

  ghost function Paid(seen: set<int>, calls: seq<ReadCall>, cfg: Config): nat {
    if calls == [] then 0
    else
      var n := |calls| - 1;
      Paid(seen, calls[..n], cfg) + One(Brings(SeeAll(seen, calls[..n], cfg), calls[n], cfg))
  }

  lemma {:induction false} PlaySees(group: seq<ReadCall>, cfg: Config)
    requires Sensible(group, cfg)
    ensures Canonical(Play(group, cfg).coverage) && Lines(Play(group, cfg).coverage) == SeeAll({}, group, cfg)
    ensures Play(group, cfg).bounded == Paid({}, group, cfg)
  {
    if group != [] {
      var n := |group| - 1;
      assert WellBounded(group[n]);
      PlaySees(group[..n], cfg);
      StepSees(Play(group[..n], cfg), group[n], cfg, n == 0);
    }
  }

  lemma {:induction false} StepSees(run: Run, call: ReadCall, cfg: Config, first: bool)
    requires WellBounded(call) && cfg.page >= 1 && cfg.maxLines >= 1 && cfg.leading >= 0 && cfg.trailing >= 0
    requires Canonical(run.coverage) && (first ==> run.coverage == [])
    ensures Canonical(Step(run, call, cfg, first).coverage)
    ensures Lines(Step(run, call, cfg, first).coverage) == See(Lines(run.coverage), call, cfg)
    ensures Step(run, call, cfg, first).bounded == run.bounded + One(Brings(Lines(run.coverage), call, cfg))
  {
    if !call.Unbounded? {
      DeliveredIsNonEmpty(call, cfg);
      var req := Requested(call, cfg).value;
      assert req.lo in Asked(call, cfg);
      CoverageTestsAreExact(run.coverage, req);
      AddIntervalMeaning(run.coverage, Delivered(call, cfg).value);
    }
  }

  lemma {:induction false} UnboundedAlike(group: seq<ReadCall>, cfg: Config, cfg': Config)
    ensures Play(group, cfg).unbounded == Play(group, cfg').unbounded
  {
    if group != [] {
      UnboundedAlike(group[..|group| - 1], cfg, cfg');
    }
  }

  lemma {:induction false} SeeConcat(seen: set<int>, a: seq<ReadCall>, b: seq<ReadCall>, cfg: Config)
    ensures SeeAll(seen, a + b, cfg) == SeeAll(SeeAll(seen, a, cfg), b, cfg)
    ensures Paid(seen, a + b, cfg) == Paid(seen, a, cfg) + Paid(SeeAll(seen, a, cfg), b, cfg)
  {
    if b == [] {
      assert a + b == a;
    } else {
      assert (a + b)[..|a + b| - 1] == a + b[..|b| - 1];
      SeeConcat(seen, a, b[..|b| - 1], cfg);
    }
  }

  lemma {:induction false} SeeAppend(seen: set<int>, calls: seq<ReadCall>, call: ReadCall, cfg: Config)
    ensures SeeAll(seen, calls + [call], cfg) == See(SeeAll(seen, calls, cfg), call, cfg)
    ensures Paid(seen, calls + [call], cfg) == Paid(seen, calls, cfg) + One(Brings(SeeAll(seen, calls, cfg), call, cfg))
  {
    assert (calls + [call])[..|calls|] == calls;
  }

  lemma {:induction false} SeeTwo(seen: set<int>, a: ReadCall, b: ReadCall, cfg: Config)
    ensures SeeAll(seen, [a, b], cfg) == See(See(seen, a, cfg), b, cfg)
  {
    assert [a, b][..1] == [a] && [a][..0] == [];
    assert SeeAll(seen, [a], cfg) == See(seen, a, cfg);
  }

  lemma {:induction false} PaidIsBounded(seen: set<int>, calls: seq<ReadCall>, cfg: Config)
    ensures Paid(seen, calls, cfg) <= |calls|
  {
    if calls != [] {
      PaidIsBounded(seen, calls[..|calls| - 1], cfg);
    }
  }

  // ----- A cap of one

  ghost predicate Followed(seen: set<int>, seen': set<int>, leading: int) {
    forall y :: y in seen && (y >= 2 || leading == 0) ==> y + leading in seen'
  }

  /** Every line the cap of one has seen was fetched by a request `leading` lines further on, which the
      larger cap has seen; and each line only the cap of one has seen is a call it has paid ahead. */
  ghost predicate Indebted(seen: set<int>, paid: nat, seen': set<int>, paid': nat, leading: int) {
    && Followed(seen, seen', leading)
    && paid' + |seen - seen'| <= paid
  }

  lemma {:induction false} OneLineAtATime(call: ReadCall, small: Config, large: Config)
    requires WellBounded(call) && !call.Unbounded?
    requires small.page == small.maxLines == 1 && small.leading >= 0 && small.trailing >= 0
    requires 2 <= large.maxLines && 2 * small.leading <= large.maxLines && large == WithCap(small, large.maxLines)
    ensures var s, d, d', req := Requested(call, small).value.lo, Delivered(call, small).value,
                                 Delivered(call, large).value, Requested(call, small).value;
            && req == Requested(call, large).value && req.lo <= req.hi
            && d.lo == d.hi == d'.lo <= s <= d'.hi && s <= d.lo + small.leading
            && 1 <= d.lo && (d.lo == 1 || d.lo == s - small.leading)
            && (d'.hi >= req.hi || d'.hi == d'.lo + large.maxLines - 1)
  {
  }

  /** A line that is asked for and missing under the larger cap is among those it delivers next. */
  lemma {:induction false} MissingLineIsDelivered(seen: set<int>, seen': set<int>, call: ReadCall, small: Config, large: Config)
    returns (g: int)
    requires WellBounded(call) && !call.Unbounded?
    requires small.page == small.maxLines == 1 && small.leading >= 0 && small.trailing >= 0
    requires 2 <= large.maxLines && 2 * small.leading <= large.maxLines && large == WithCap(small, large.maxLines)
    requires Followed(seen, seen', small.leading)
    requires Brings(seen', call, large) && !Brings(seen, call, small)
    ensures g in seen && g !in seen' && g in Given(call, large)
  {
    OneLineAtATime(call, small, large);
    var req, d' := Requested(call, small).value, Delivered(call, large).value;
    g :| g in Asked(call, large) && g !in seen';
    var y := g - small.leading;
    assert y in Asked(call, small) ==> y in seen;
  }

  lemma {:induction false} Subset(a: set<int>, b: set<int>)
    requires a <= b
    ensures |a| <= |b|
  {
    assert b == a + (b - a);
  }

  lemma {:induction false} BothSee(seen: set<int>, more: set<int>, seen': set<int>, more': set<int>)
    requires more <= more'
    ensures |(seen + more) - (seen' + more')| <= |seen - seen'|
  {
    Subset((seen + more) - (seen' + more'), seen - seen');
  }

  lemma {:induction false} OneAhead(seen: set<int>, d: int, seen': set<int>)
    ensures |(seen + {d}) - seen'| <= |seen - seen'| + 1
  {
    Subset((seen + {d}) - seen', (seen - seen') + {d});
  }

  lemma {:induction false} CatchUp(seen: set<int>, seen': set<int>, more': set<int>, g: int)
    requires g in seen && g !in seen' && g in more'
    ensures |seen - (seen' + more')| + 1 <= |seen - seen'|
  {
    Subset(seen - (seen' + more'), (seen - seen') - {g});
  }

  /** One line is fetched only together with the request it leads to. */
  lemma {:induction false} FetchedFromAhead(seen: set<int>, seen': set<int>, call: ReadCall, small: Config, large: Config)
    requires WellBounded(call) && !call.Unbounded?
    requires small.page == small.maxLines == 1 && small.leading >= 0 && small.trailing >= 0
    requires 2 <= large.maxLines && 2 * small.leading <= large.maxLines && large == WithCap(small, large.maxLines)
    requires Followed(seen, seen', small.leading)
    ensures Followed(See(seen, call, small), See(seen', call, large), small.leading)
  {
    OneLineAtATime(call, small, large);
    var s := Requested(call, small).value.lo;
    assert s in Asked(call, large) && s in Given(call, large);
    assert s in See(seen', call, large);
  }

  lemma {:induction false} DebtIsPaid(seen: set<int>, seen': set<int>, call: ReadCall, small: Config, large: Config)
    requires WellBounded(call) && !call.Unbounded?
    requires small.page == small.maxLines == 1 && small.leading >= 0 && small.trailing >= 0
    requires 2 <= large.maxLines && 2 * small.leading <= large.maxLines && large == WithCap(small, large.maxLines)
    requires Followed(seen, seen', small.leading)
    ensures One(Brings(seen', call, large)) + |See(seen, call, small) - See(seen', call, large)|
            <= |seen - seen'| + One(Brings(seen, call, small))
  {
    OneLineAtATime(call, small, large);
    var d := Delivered(call, small).value.lo;
    if Brings(seen, call, small) {
      assert Given(call, small) == {d};
      if Brings(seen', call, large) {
        BothSee(seen, {d}, seen', Given(call, large));
      } else {
        OneAhead(seen, d, seen');
      }
    } else if Brings(seen', call, large) {
      var g := MissingLineIsDelivered(seen, seen', call, small, large);
      CatchUp(seen, seen', Given(call, large), g);
    }
  }

  lemma {:induction false} DebtStep(seen: set<int>, paid: nat, seen': set<int>, paid': nat, call: ReadCall, small: Config, large: Config)
    requires WellBounded(call) && !call.Unbounded?
    requires small.page == small.maxLines == 1 && small.leading >= 0 && small.trailing >= 0
    requires 2 <= large.maxLines && 2 * small.leading <= large.maxLines && large == WithCap(small, large.maxLines)
    requires Indebted(seen, paid, seen', paid', small.leading)
    ensures Indebted(See(seen, call, small), paid + One(Brings(seen, call, small)),
                     See(seen', call, large), paid' + One(Brings(seen', call, large)), small.leading)
  {
    FetchedFromAhead(seen, seen', call, small, large);
    DebtIsPaid(seen, seen', call, small, large);
  }

  lemma {:induction false} CapOfOneStaysBehind(group: seq<ReadCall>, small: Config, large: Config)
    requires Sensible(group, small) && small.page == small.maxLines == 1
    requires 2 <= large.maxLines && 2 * small.leading <= large.maxLines && large == WithCap(small, large.maxLines)
    ensures Indebted(SeeAll({}, group, small), Paid({}, group, small), SeeAll({}, group, large), Paid({}, group, large), small.leading)
  {
    if group != [] {
      var n := |group| - 1;
      assert WellBounded(group[n]);
      CapOfOneStaysBehind(group[..n], small, large);
      if !group[n].Unbounded? {
        DebtStep(SeeAll({}, group[..n], small), Paid({}, group[..n], small),
                 SeeAll({}, group[..n], large), Paid({}, group[..n], large), group[n], small, large);
      }
    }
  }

  // ----- Groups that defeat the larger cap

  /** The same request again and again. */
  function Again(call: ReadCall, n: nat): seq<ReadCall> {
    if n == 0 then [] else Again(call, n - 1) + [call]
  }

  lemma {:induction false} AgainIsAnswered(seen: set<int>, call: ReadCall, n: nat, cfg: Config)
    requires !Brings(seen, call, cfg)
    ensures SeeAll(seen, Again(call, n), cfg) == seen && Paid(seen, Again(call, n), cfg) == 0
  {
    if n > 0 {
      AgainIsAnswered(seen, call, n - 1, cfg);
      SeeAppend(seen, Again(call, n - 1), call, cfg);
    }
  }

  lemma {:induction false} AgainNeverGives(seen: set<int>, call: ReadCall, n: nat, cfg: Config, x: int)
    requires !call.Unbounded? && x !in Given(call, cfg) && x !in seen
    ensures x !in SeeAll(seen, Again(call, n), cfg)
  {
    if n > 0 {
      AgainNeverGives(seen, call, n - 1, cfg, x);
      SeeAppend(seen, Again(call, n - 1), call, cfg);
    }
  }

  lemma {:induction false} PaidOnceMore(seen: set<int>, calls: seq<ReadCall>, call: ReadCall, cfg: Config, x: int)
    requires !call.Unbounded? && x in Asked(call, cfg) && x !in SeeAll(seen, calls, cfg)
    ensures Paid(seen, calls + [call], cfg) == Paid(seen, calls, cfg) + 1
  {
    assert Brings(SeeAll(seen, calls, cfg), call, cfg);
    SeeAppend(seen, calls, call, cfg);
  }

  /** A request for a line that its own answer does not reach is paid for every time. */
  lemma {:induction false} PaidAgain(seen: set<int>, call: ReadCall, n: nat, cfg: Config, x: int)
    requires n > 0 && !call.Unbounded? && x in Asked(call, cfg) && x !in Given(call, cfg) && x !in seen
    ensures Paid(seen, Again(call, n), cfg) == Paid(seen, Again(call, n - 1), cfg) + 1
  {
    AgainNeverGives(seen, call, n - 1, cfg, x);
    PaidOnceMore(seen, Again(call, n - 1), call, cfg, x);
  }

  lemma {:induction false} NonePaid(seen: set<int>, call: ReadCall, cfg: Config)
    ensures Paid(seen, Again(call, 0), cfg) == 0
  {
  }

  lemma {:induction false} AgainIsPaid(seen: set<int>, call: ReadCall, n: nat, cfg: Config, x: int)
    requires !call.Unbounded? && x in Asked(call, cfg) && x !in Given(call, cfg) && x !in seen
    ensures Paid(seen, Again(call, n), cfg) == n
  {
    NonePaid(seen, call, cfg);
    var k: nat := 0;
    while k < n
      invariant k <= n && Paid(seen, Again(call, k), cfg) == k
    {
      k := k + 1;
      PaidAgain(seen, call, k, cfg, x);
    }
  }

  ghost predicate AllExplicit(calls: seq<ReadCall>) {
    forall k :: 0 <= k < |calls| ==> calls[k].Explicit? && 1 <= calls[k].start <= calls[k].end
  }

  lemma {:induction false} AgainExplicit(call: ReadCall, n: nat)
    requires call.Explicit? && 1 <= call.start <= call.end
    ensures AllExplicit(Again(call, n))
  {
    if n > 0 {
      AgainExplicit(call, n - 1);
    }
  }

  /** After some calls the smaller cap has answered a request that the larger cap never will. */
  ghost predicate Defeats(setup: seq<ReadCall>, call: ReadCall, x: int, small: Config, large: Config) {
    && AllExplicit(setup) && call.Explicit? && 1 <= call.start <= call.end
    && !Brings(SeeAll({}, setup, small), call, small)
    && x in Asked(call, large) && x !in Given(call, large) && x !in SeeAll({}, setup, large)
  }

  lemma {:induction false} DefeatCosts(setup: seq<ReadCall>, call: ReadCall, x: int, small: Config, large: Config) returns (group: seq<ReadCall>)
    requires Sensible([], small) && large.maxLines >= 1 && large == WithCap(small, large.maxLines)
    requires Defeats(setup, call, x, small, large)
    ensures Sensible(group, small) && Calls(group, large) > Calls(group, small)
  {
    var n := |setup| + 1;
    group := setup + Again(call, n);
    AgainExplicit(call, n);
    assert forall k :: 0 <= k < |group| ==> WellBounded(group[k]);
    SeeConcat({}, setup, Again(call, n), small);
    SeeConcat({}, setup, Again(call, n), large);
    AgainIsAnswered(SeeAll({}, setup, small), call, n, small);
    AgainIsPaid(SeeAll({}, setup, large), call, n, large, x);
    PaidIsBounded({}, setup, small);
    PlaySees(group, small);
    PlaySees(group, large);
    UnboundedAlike(group, small, large);
  }

  // Sweeping over lines with requests that all end at the same line

  function Sweep(x: int, n: nat, leading: int, end: int): seq<ReadCall> {
    if n == 0 then [] else Sweep(x, n - 1, leading, end) + [Explicit(x + n - 1 + leading, end)]
  }

  lemma {:induction false} SweepExplicit(x: int, n: nat, leading: int, end: int)
    requires x >= 1 && leading >= 0 && x + n - 1 + leading <= end
    ensures AllExplicit(Sweep(x, n, leading, end))
  {
    if n > 0 {
      SweepExplicit(x, n - 1, leading, end);
    }
  }

  lemma {:induction false} SweepIsAnswered(seen: set<int>, x: int, n: nat, end: int, cfg: Config)
    requires Range(x + cfg.leading, end) <= seen
    ensures SeeAll(seen, Sweep(x, n, cfg.leading, end), cfg) == seen
  {
    if n > 0 {
      SweepIsAnswered(seen, x, n - 1, end, cfg);
      SeeAppend(seen, Sweep(x, n - 1, cfg.leading, end), Explicit(x + n - 1 + cfg.leading, end), cfg);
    }
  }

  /** A window of `maxLines` lines that starts `leading` lines before the request. */
  lemma {:induction false} SweepWindow(y: int, end: int, cfg: Config)
    requires cfg.leading >= 1 && cfg.trailing >= 0 && cfg.maxLines >= 1 && y >= 1
    requires y + cfg.leading <= end && y + cfg.maxLines - 1 <= end
    ensures Given(Explicit(y + cfg.leading, end), cfg) == Range(y, y + cfg.maxLines - 1)
  {
  }

  /** These calls lead from the lines seen before to those seen after. */
  ghost predicate Leads(seen: set<int>, calls: seq<ReadCall>, after: set<int>, cfg: Config) {
    SeeAll(seen, calls, cfg) == after
  }

  lemma {:induction false} LeadsThrough(seen: set<int>, a: seq<ReadCall>, mid: set<int>, b: seq<ReadCall>, after: set<int>, cfg: Config)
    requires Leads(seen, a, mid, cfg) && Leads(mid, b, after, cfg)
    ensures Leads(seen, a + b, after, cfg)
  {
    SeeConcat(seen, a, b, cfg);
  }

  lemma {:induction false} LeadsThree(seen: set<int>, a: seq<ReadCall>, one: set<int>, b: seq<ReadCall>, two: set<int>,
                                      c: seq<ReadCall>, three: set<int>, cfg: Config)
    requires Leads(seen, a, one, cfg) && Leads(one, b, two, cfg) && Leads(two, c, three, cfg)
    ensures Leads(seen, a + b + c, three, cfg)
  {
    LeadsThrough(seen, a, one, b, two, cfg);
    LeadsThrough(seen, a + b, two, c, three, cfg);
  }

  lemma {:induction false} RangesMeet(x: int, a: int, y: int, b: int)
    requires x <= y <= a + 1 && a <= b
    ensures Range(x, a) + Range(y, b) == Range(x, b)
  {
  }

  /** While the last line is missing, each request of a sweep fetches the lines from its own on. */
  lemma {:induction false} SweepGrows(seen: set<int>, x: int, n: nat, end: int, cfg: Config, last: int, before: set<int>)
    requires cfg.leading >= 1 && cfg.trailing >= 0 && cfg.maxLines >= 1 && x >= 1 && n >= 1
    requires x + n - 1 + cfg.leading <= end && end !in seen
    requires last == x + n - 1 + cfg.maxLines - 1 <= end
    requires before == if n > 1 then seen + Range(x, last - 1) else seen
    requires Leads(seen, Sweep(x, n - 1, cfg.leading, end), before, cfg)
    ensures Leads(seen, Sweep(x, n, cfg.leading, end), seen + Range(x, last), cfg)
  {
    var y, rest := x + n - 1, Sweep(x, n - 1, cfg.leading, end);
    Extend(seen, x, y, last, before);
    SweepStep(before, y, end, cfg, last, seen + Range(x, last));
    LeadsThrough(seen, rest, before, [Explicit(y + cfg.leading, end)], seen + Range(x, last), cfg);
  }

  lemma {:induction false} SweepFetches(seen: set<int>, x: int, n: nat, end: int, cfg: Config, last: int)
    requires cfg.leading >= 1 && cfg.trailing >= 0 && cfg.maxLines >= 1 && x >= 1 && n >= 1
    requires x + n - 1 + cfg.leading <= end && end !in seen
    requires last == x + n - 1 + cfg.maxLines - 1 <= end
    ensures Leads(seen, Sweep(x, n, cfg.leading, end), seen + Range(x, last), cfg)
  {
    if n > 1 {
      SweepFetches(seen, x, n - 1, end, cfg, last - 1);
      SweepGrows(seen, x, n, end, cfg, last, seen + Range(x, last - 1));
    } else {
      LeadsNowhere(seen, cfg);
      SweepGrows(seen, x, n, end, cfg, last, seen);
    }
  }

  lemma {:induction false} LeadsNowhere(seen: set<int>, cfg: Config)
    ensures Leads(seen, [], seen, cfg)
  {
  }

  lemma {:induction false} Extend(seen: set<int>, x: int, y: int, last: int, before: set<int>)
    requires x <= y <= last
    requires before == if y > x then seen + Range(x, last - 1) else seen
    ensures before + Range(y, last) == seen + Range(x, last)
  {
    RangesMeet(x, last - 1, y, last);
    Unite(seen, Range(x, last - 1), Range(y, last));
  }

  lemma {:induction false} SweepStep(before: set<int>, y: int, end: int, cfg: Config, last: int, after: set<int>)
    requires cfg.leading >= 1 && cfg.trailing >= 0 && cfg.maxLines >= 1 && y >= 1
    requires y + cfg.leading <= end && last == y + cfg.maxLines - 1 <= end && end !in before
    requires after == before + Range(y, last)
    ensures Leads(before, [Explicit(y + cfg.leading, end)], after, cfg)
  {
    SweepWindow(y, end, cfg);
    SweepOne(before, Explicit(y + cfg.leading, end), end, Range(y, last), cfg);
    SeeAppend(before, [], Explicit(y + cfg.leading, end), cfg);
    assert [] + [Explicit(y + cfg.leading, end)] == [Explicit(y + cfg.leading, end)];
  }

  lemma {:induction false} Unite(a: set<int>, b: set<int>, c: set<int>)
    ensures a + b + c == a + (b + c)
  {
  }

  lemma {:induction false} SweepOne(seen: set<int>, call: ReadCall, missing: int, given: set<int>, cfg: Config)
    requires !call.Unbounded? && missing in Asked(call, cfg) && missing !in seen && Given(call, cfg) == given
    ensures See(seen, call, cfg) == seen + given
  {
  }

  function LongContextSetup(l: int, m': int): seq<ReadCall> {
    [Explicit(3 * l + 1, 3 * l + 1), Explicit(2 * l + 1, 2 * l + m')]
  }

  /** A request for line L + 1 asks for that line, and its answer ends at line m'. */
  lemma {:induction false} LongContextCall(cfg: Config, l: int)
    requires cfg.page >= 1 && cfg.trailing >= 0 && l == cfg.leading && 1 <= cfg.maxLines
    ensures Asked(Explicit(l + 1, l + 1), cfg) == {l + 1}
    ensures cfg.maxLines <= l ==> l + 1 !in Given(Explicit(l + 1, l + 1), cfg)
  {
  }

  /** Leading context at least as long as the larger cap: the answer to a request for line L + 1 ends
      before that line, but the smaller cap got it as context of a longer request. */
  lemma {:induction false} LongContextDefeats(small: Config, large: Config)
    requires Sensible([], small) && large == WithCap(small, large.maxLines)
    requires small.maxLines < large.maxLines <= small.leading
    ensures var l := small.leading;
            Defeats(LongContextSetup(l, large.maxLines), Explicit(l + 1, l + 1), l + 1, small, large)
  {
    var l, m' := small.leading, large.maxLines;
    LongContextSmall(small, l, m');
    LongContextLarge(large, l, m');
    LongContextCall(small, l);
    LongContextCall(large, l);
  }

  lemma {:induction false} LongContextFirst(cfg: Config, l: int)
    requires cfg.page >= 1 && cfg.trailing >= 0 && l == cfg.leading && 1 <= cfg.maxLines <= l
    ensures var first := Explicit(3 * l + 1, 3 * l + 1);
            3 * l + 1 in Asked(first, cfg) && Given(first, cfg) == Range(2 * l + 1, 2 * l + cfg.maxLines)
  {
  }

  lemma {:induction false} LongContextSecond(cfg: Config, l: int, m': int)
    requires cfg.page >= 1 && cfg.trailing >= 0 && l == cfg.leading && 1 <= cfg.maxLines < m' <= l
    ensures var second := Explicit(2 * l + 1, 2 * l + m');
            2 * l + m' in Asked(second, cfg) && Given(second, cfg) == Range(l + 1, l + cfg.maxLines)
  {
  }

  lemma {:induction false} LongContextSmall(cfg: Config, l: int, m': int)
    requires cfg.page >= 1 && cfg.trailing >= 0 && l == cfg.leading && 1 <= cfg.maxLines < m' <= l
    ensures l + 1 in SeeAll({}, LongContextSetup(l, m'), cfg)
  {
    var m, first, second := cfg.maxLines, Explicit(3 * l + 1, 3 * l + 1), Explicit(2 * l + 1, 2 * l + m');
    SeeTwo({}, first, second, cfg);
    LongContextFirst(cfg, l);
    LongContextSecond(cfg, l, m');
    SweepOne({}, first, 3 * l + 1, Range(2 * l + 1, 2 * l + m), cfg);
    SweepOne(Range(2 * l + 1, 2 * l + m), second, 2 * l + m', Range(l + 1, l + m), cfg);
  }

  lemma {:induction false} LongContextLarge(cfg: Config, l: int, m': int)
    requires cfg.page >= 1 && cfg.trailing >= 0 && l == cfg.leading && 1 <= cfg.maxLines == m' <= l
    ensures SeeAll({}, LongContextSetup(l, m'), cfg) == Range(2 * l + 1, 2 * l + m')
  {
    var first, second := Explicit(3 * l + 1, 3 * l + 1), Explicit(2 * l + 1, 2 * l + m');
    SeeTwo({}, first, second, cfg);
    LongContextFirst(cfg, l);
    SweepOne({}, first, 3 * l + 1, Range(2 * l + 1, 2 * l + m'), cfg);
  }

  function ShortContextStart(l: int, m': int): seq<ReadCall> {
    [Explicit(1, m'), Explicit(m' + 2 + l, 2 * m' + 2 + l)]
  }

  /** The first two calls: from line 1, and from the line after next behind what the larger cap gives. */
  lemma {:induction false} BlockOf(cfg: Config, l: int, x: int, m': int)
    requires cfg.page >= 1 && cfg.trailing >= 0 && l == cfg.leading && 1 <= l < m' && 1 <= cfg.maxLines <= m' && x >= 1
    ensures var call := Explicit(x + l, x + m' + l);
            x + m' + l in Asked(call, cfg) && Given(call, cfg) == Range(x, x + cfg.maxLines - 1)
  {
  }

  lemma {:induction false} FirstBlock(cfg: Config, l: int, m': int)
    requires cfg.page >= 1 && cfg.trailing >= 0 && l == cfg.leading && 1 <= l < m' && 1 <= cfg.maxLines <= m'
    ensures 1 in Asked(Explicit(1, m'), cfg) && Given(Explicit(1, m'), cfg) == Range(1, cfg.maxLines)
  {
  }

  lemma {:induction false} TwoBlocks(cfg: Config, l: int, m': int)
    requires cfg.page >= 1 && cfg.trailing >= 0 && l == cfg.leading && 1 <= l < m' && 1 <= cfg.maxLines <= m'
    ensures SeeAll({}, ShortContextStart(l, m'), cfg) == Range(1, cfg.maxLines) + Range(m' + 2, m' + 1 + cfg.maxLines)
  {
    var first, second := Explicit(1, m'), Explicit(m' + 2 + l, 2 * m' + 2 + l);
    SeeTwo({}, first, second, cfg);
    FirstBlock(cfg, l, m');
    BlockOf(cfg, l, m' + 2, m');
    SweepOne({}, first, 1, Range(1, cfg.maxLines), cfg);
    SweepOne(Range(1, cfg.maxLines), second, 2 * m' + 2 + l, Range(m' + 2, m' + 1 + cfg.maxLines), cfg);
  }

  /** How far the first sweep goes: to where its window reaches line m', if the context allows. */
  function FirstSweep(l: int, m: int, m': int): (n: nat)
    requires 1 <= l < m' && 1 <= m < m'
    ensures 1 <= n && n + l <= m' && n + m - 1 <= m'
  {
    if m - 1 <= l then m' - l else m' - m + 1
  }

  function ShortContextSetup(l: int, m: int, m': int): seq<ReadCall>
    requires 1 <= l < m' && 1 <= m < m'
  {
    ShortContextStart(l, m') + Sweep(1, FirstSweep(l, m, m'), l, m') + Sweep(m' + 2 - l, l, l, 2 * m' + 1)
  }

  lemma {:induction false} SweepsLarge(cfg: Config, l: int, m': int, n: nat, seen: set<int>)
    requires cfg.page >= 1 && cfg.trailing >= 0 && l == cfg.leading && 1 <= l < m' == cfg.maxLines
    requires seen == Range(1, m') + Range(m' + 2, 2 * m' + 1)
    ensures Leads(seen, Sweep(1, n, l, m'), seen, cfg) && Leads(seen, Sweep(m' + 2 - l, l, l, 2 * m' + 1), seen, cfg)
  {
    SweepIsAnswered(seen, 1, n, m', cfg);
    SweepIsAnswered(seen, m' + 2 - l, l, 2 * m' + 1, cfg);
  }

  lemma {:induction false} ShortContextLarge(cfg: Config, l: int, m: int, m': int, seen: set<int>)
    requires cfg.page >= 1 && cfg.trailing >= 0 && l == cfg.leading && 1 <= l < m' == cfg.maxLines && 1 <= m < m'
    requires seen == Range(1, m') + Range(m' + 2, 2 * m' + 1)
    ensures Leads({}, ShortContextSetup(l, m, m'), seen, cfg)
  {
    var n := FirstSweep(l, m, m');
    TwoBlocks(cfg, l, m');
    SweepsLarge(cfg, l, m', n, seen);
    LeadsThree({}, ShortContextStart(l, m'), seen, Sweep(1, n, l, m'), seen, Sweep(m' + 2 - l, l, l, 2 * m' + 1), seen, cfg);
  }

  lemma {:induction false} StartSmall(cfg: Config, l: int, m: int, m': int) returns (one: set<int>)
    requires cfg.page >= 1 && cfg.trailing >= 0 && l == cfg.leading && 1 <= l < m' && 1 <= m == cfg.maxLines < m'
    ensures Leads({}, ShortContextStart(l, m'), one, cfg) && m' !in one && 2 * m' + 1 !in one
  {
    one := Range(1, m) + Range(m' + 2, m' + 1 + m);
    TwoBlocks(cfg, l, m');
  }

  lemma {:induction false} FirstSweepSmall(cfg: Config, l: int, m: int, m': int, n: nat, one: set<int>) returns (two: set<int>)
    requires cfg.page >= 1 && cfg.trailing >= 0 && l == cfg.leading && 1 <= l < m' && 1 <= m == cfg.maxLines < m'
    requires n == FirstSweep(l, m, m') && m' !in one && 2 * m' + 1 !in one
    ensures Leads(one, Sweep(1, n, l, m'), two, cfg) && 2 * m' + 1 !in two && Range(1, n + m - 1) <= two
  {
    two := one + Range(1, n + m - 1);
    SweepFetches(one, 1, n, m', cfg, n + m - 1);
  }

  lemma {:induction false} SecondSweepSmall(cfg: Config, l: int, m: int, m': int, two: set<int>) returns (three: set<int>)
    requires cfg.page >= 1 && cfg.trailing >= 0 && l == cfg.leading && 1 <= l < m' && 1 <= m == cfg.maxLines < m'
    requires 2 * m' + 1 !in two
    ensures Leads(two, Sweep(m' + 2 - l, l, l, 2 * m' + 1), three, cfg) && two + Range(m' + 2 - l, m' + m) <= three
  {
    three := two + Range(m' + 2 - l, m' + m);
    SweepFetches(two, m' + 2 - l, l, 2 * m' + 1, cfg, m' + m);
  }

  lemma {:induction false} ShortContextSmall(cfg: Config, l: int, m: int, m': int, n: nat) returns (three: set<int>)
    requires cfg.page >= 1 && cfg.trailing >= 0 && l == cfg.leading && 1 <= l < m' && 1 <= m == cfg.maxLines < m'
    requires n == FirstSweep(l, m, m')
    ensures Leads({}, ShortContextSetup(l, m, m'), three, cfg)
    ensures Range(1, n + m - 1) + Range(m' + 2 - l, m' + m) <= three
  {
    var one := StartSmall(cfg, l, m, m');
    var two := FirstSweepSmall(cfg, l, m, m', n, one);
    three := SecondSweepSmall(cfg, l, m, m', two);
    LeadsThree({}, ShortContextStart(l, m'), one, Sweep(1, n, l, m'), two, Sweep(m' + 2 - l, l, l, 2 * m' + 1), three, cfg);
  }

  lemma {:induction false} ConcatExplicit(a: seq<ReadCall>, b: seq<ReadCall>)
    requires AllExplicit(a) && AllExplicit(b)
    ensures AllExplicit(a + b)
  {
  }

  lemma {:induction false} ShortContextExplicit(l: int, m: int, m': int)
    requires 1 <= l < m' && 1 <= m < m'
    ensures AllExplicit(ShortContextSetup(l, m, m'))
  {
    var start, n := ShortContextStart(l, m'), FirstSweep(l, m, m');
    SweepExplicit(1, n, l, m');
    SweepExplicit(m' + 2 - l, l, l, 2 * m' + 1);
    ConcatExplicit(start, Sweep(1, n, l, m'));
    ConcatExplicit(start + Sweep(1, n, l, m'), Sweep(m' + 2 - l, l, l, 2 * m' + 1));
  }

  /** Shorter leading context: the larger cap holds lines 1 to m' and a block behind line m' + 1, which it
      never fetches; the smaller cap collects that line too, as context of requests the larger one skips. */
  lemma {:induction false} ShortContextDefeats(small: Config, large: Config)
    requires Sensible([], small) && large == WithCap(small, large.maxLines) && small.maxLines < large.maxLines
    requires 1 <= small.leading < large.maxLines && (small.maxLines >= 2 || large.maxLines < 2 * small.leading)
    ensures var l, m' := small.leading, large.maxLines;
            Defeats(ShortContextSetup(l, small.maxLines, m'), Explicit(l + 1, m' + 1), m' + 1, small, large)
  {
    var l, m, m' := small.leading, small.maxLines, large.maxLines;
    var n := FirstSweep(l, m, m');
    ShortContextExplicit(l, m, m');
    ShortContextLarge(large, l, m, m', Range(1, m') + Range(m' + 2, 2 * m' + 1));
    var three := ShortContextSmall(small, l, m, m', n);
    assert Asked(Explicit(l + 1, m' + 1), small) <= three;
    assert m' + 1 in Asked(Explicit(l + 1, m' + 1), large);
  }

  // Trailing context alone

  function Singles(n: nat): seq<ReadCall> {
    if n == 0 then [] else Singles(n - 1) + [Explicit(n, n)]
  }

  lemma {:induction false} SinglesExplicit(n: nat)
    ensures AllExplicit(Singles(n))
  {
    if n > 0 {
      SinglesExplicit(n - 1);
    }
  }

  lemma {:induction false} SingleFetch(seen: set<int>, n: int, cfg: Config)
    requires cfg.leading == 0 && cfg.trailing >= 0 && cfg.maxLines >= 1 && n >= 1
    ensures n in See(seen, Explicit(n, n), cfg) && seen <= See(seen, Explicit(n, n), cfg)
    ensures n in seen ==> See(seen, Explicit(n, n), cfg) == seen
  {
    assert n in Given(Explicit(n, n), cfg);
    assert n in Asked(Explicit(n, n), cfg);
  }

  lemma {:induction false} SinglesFetch(seen: set<int>, n: nat, cfg: Config)
    requires cfg.leading == 0 && cfg.trailing >= 0 && cfg.maxLines >= 1
    ensures seen + Range(1, n) <= SeeAll(seen, Singles(n), cfg)
    ensures Range(1, n) <= seen ==> SeeAll(seen, Singles(n), cfg) == seen
  {
    if n > 0 {
      var rest := Singles(n - 1);
      assert Singles(n) == rest + [Explicit(n, n)];
      SinglesFetch(seen, n - 1, cfg);
      SeeAppend(seen, rest, Explicit(n, n), cfg);
      SingleFetch(SeeAll(seen, rest, cfg), n, cfg);
    }
  }

  /** Trailing context alone: the smaller cap gets line m' + 1 behind a request for line m', which the
      larger cap skips. */
  lemma {:induction false} TrailingContextDefeats(small: Config, large: Config)
    requires Sensible([], small) && large == WithCap(small, large.maxLines)
    requires 2 <= small.maxLines < large.maxLines && small.leading == 0 && small.trailing >= 1
    ensures var m' := large.maxLines;
            Defeats([Explicit(1, m'), Explicit(m', m')] + Singles(m'), Explicit(1, m' + 1), m' + 1, small, large)
  {
    var m' := large.maxLines;
    SinglesExplicit(m');
    ConcatExplicit([Explicit(1, m'), Explicit(m', m')], Singles(m'));
    TrailingSmall(small, m');
    TrailingLarge(large, m');
    assert m' + 1 in Asked(Explicit(1, m' + 1), large);
  }

  lemma {:induction false} TrailingSmall(cfg: Config, m': int)
    requires cfg.page >= 1 && cfg.leading == 0 && cfg.trailing >= 1 && 2 <= cfg.maxLines < m'
    ensures Range(1, m' + 1) <= SeeAll({}, [Explicit(1, m'), Explicit(m', m')] + Singles(m'), cfg)
  {
    var first, second := Explicit(1, m'), Explicit(m', m');
    SeeTwo({}, first, second, cfg);
    SweepOne({}, first, 1, Range(1, cfg.maxLines), cfg);
    assert m' in Asked(second, cfg) && m' + 1 in Given(second, cfg);
    SeeConcat({}, [first, second], Singles(m'), cfg);
    SinglesFetch(SeeAll({}, [first, second], cfg), m', cfg);
  }

  lemma {:induction false} TrailingLarge(cfg: Config, m': int)
    requires cfg.page >= 1 && cfg.leading == 0 && cfg.trailing >= 1 && 2 <= cfg.maxLines == m'
    ensures SeeAll({}, [Explicit(1, m'), Explicit(m', m')] + Singles(m'), cfg) == Range(1, m')
  {
    var first, second := Explicit(1, m'), Explicit(m', m');
    SeeTwo({}, first, second, cfg);
    SweepOne({}, first, 1, Range(1, m'), cfg);
    assert {} + Range(1, m') == Range(1, m');
    assert !Brings(Range(1, m'), second, cfg);
    SeeConcat({}, [first, second], Singles(m'), cfg);
    SinglesFetch(Range(1, m'), m', cfg);
  }

  // ----- The exact condition

  /** A cap of one can be raised to any cap at least twice the leading context; another cap only where
      there is no context at all. */
  predicate Monotone(small: Config, maxLines: int) {
    if small.maxLines == 1 then 2 * small.leading <= maxLines else small.leading == small.trailing == 0
  }

  lemma {:induction false} RaisingKeepsTheLaw(group: seq<ReadCall>, small: Config, maxLines: int)
    requires Sensible(group, small) && small.page <= small.maxLines < maxLines && Monotone(small, maxLines)
    ensures Calls(group, WithCap(small, maxLines)) <= Calls(group, small)
  {
    var large := WithCap(small, maxLines);
    if small.maxLines == 1 {
      CapOfOneStaysBehind(group, small, large);
      PlaySees(group, small);
      PlaySees(group, large);
      UnboundedAlike(group, small, large);
    } else {
      RaisingTheCapNeverCostsCalls(group, small, maxLines);
    }
  }

  lemma {:induction false} TrailingContextCosts(small: Config, large: Config) returns (group: seq<ReadCall>)
    requires Sensible([], small) && large == WithCap(small, large.maxLines)
    requires 2 <= small.maxLines < large.maxLines && small.leading == 0 && small.trailing >= 1
    ensures Sensible(group, small) && Calls(group, large) > Calls(group, small)
  {
    var m' := large.maxLines;
    TrailingContextDefeats(small, large);
    group := DefeatCosts([Explicit(1, m'), Explicit(m', m')] + Singles(m'), Explicit(1, m' + 1), m' + 1, small, large);
  }

  lemma {:induction false} LongContextCosts(small: Config, large: Config) returns (group: seq<ReadCall>)
    requires Sensible([], small) && large == WithCap(small, large.maxLines)
    requires small.maxLines < large.maxLines <= small.leading
    ensures Sensible(group, small) && Calls(group, large) > Calls(group, small)
  {
    var l := small.leading;
    LongContextDefeats(small, large);
    group := DefeatCosts(LongContextSetup(l, large.maxLines), Explicit(l + 1, l + 1), l + 1, small, large);
  }

  lemma {:induction false} ShortContextCosts(small: Config, large: Config) returns (group: seq<ReadCall>)
    requires Sensible([], small) && large == WithCap(small, large.maxLines) && small.maxLines < large.maxLines
    requires 1 <= small.leading < large.maxLines && (small.maxLines >= 2 || large.maxLines < 2 * small.leading)
    ensures Sensible(group, small) && Calls(group, large) > Calls(group, small)
  {
    var l, m' := small.leading, large.maxLines;
    ShortContextDefeats(small, large);
    group := DefeatCosts(ShortContextSetup(l, small.maxLines, m'), Explicit(l + 1, m' + 1), m' + 1, small, large);
  }

  lemma {:induction false} LeadingContextCosts(small: Config, large: Config) returns (group: seq<ReadCall>)
    requires Sensible([], small) && large == WithCap(small, large.maxLines) && small.maxLines < large.maxLines
    requires small.leading >= 1 && (small.maxLines >= 2 || large.maxLines < 2 * small.leading)
    ensures Sensible(group, small) && Calls(group, large) > Calls(group, small)
  {
    if large.maxLines <= small.leading {
      group := LongContextCosts(small, large);
    } else {
      group := ShortContextCosts(small, large);
    }
  }

  lemma {:induction false} RaisingBreaksTheLaw(small: Config, maxLines: int) returns (group: seq<ReadCall>)
    requires Sensible([], small) && small.page <= small.maxLines < maxLines && !Monotone(small, maxLines)
    ensures Sensible(group, small) && Calls(group, WithCap(small, maxLines)) > Calls(group, small)
  {
    if small.leading == 0 {
      group := TrailingContextCosts(small, WithCap(small, maxLines));
    } else {
      group := LeadingContextCosts(small, WithCap(small, maxLines));
    }
  }

  /** For settings the grid builds, raising the cap costs no group a call if and only if the settings are
      monotone. */
  lemma {:induction false} CapLawHoldsExactly(small: Config, maxLines: int)
    requires 1 <= small.page <= small.maxLines < maxLines && small.leading >= 0 && small.trailing >= 0
    ensures (forall group :: Sensible(group, small) ==> Calls(group, WithCap(small, maxLines)) <= Calls(group, small))
            <==> Monotone(small, maxLines)
  {
    if Monotone(small, maxLines) {
      forall group | Sensible(group, small) ensures Calls(group, WithCap(small, maxLines)) <= Calls(group, small) {
        RaisingKeepsTheLaw(group, small, maxLines);
      }
    } else {
      var group := RaisingBreaksTheLaw(small, maxLines);
    }
  }
}
