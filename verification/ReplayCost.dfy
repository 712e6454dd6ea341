/**
 What the replay of `optimize_read_config.py` pays in its first phase, call by call, and how many lines
 one call may return.
 */
module ReplayCost {
  import opened Spans
  import opened ReplayPair

  // ----- The cap of one call

  /** The byte cap lets through as many lines as fit, but at least one. */
  lemma {:induction false} BytesAllowExactly(fs: FileStats, cfg: Config)
    requires fs.bytesPerLine > 0.0
    ensures var n := ByteLines(fs, cfg);
            && n >= 1 && (n == 1 || n as real * fs.bytesPerLine <= cfg.byteCap as real)
            && (n + 1) as real * fs.bytesPerLine > cfg.byteCap as real
  {
    var q := cfg.byteCap as real / fs.bytesPerLine;
    assert q * fs.bytesPerLine == cfg.byteCap as real;
    var n := ByteLines(fs, cfg);
    FloorOrOne(q);
    Around(n as real, (n + 1) as real, q, fs.bytesPerLine, cfg.byteCap as real);
  }

  lemma {:induction false} Around(low: real, high: real, q: real, c: real, cap: real)
    requires c > 0.0 && q * c == cap && q < high
    ensures high * c > cap
    ensures low <= q ==> low * c <= cap
  {
    Scaled(q, high, c);
    if low <= q {
      ScaledWeakly(low, q, c);
    }
  }

  lemma {:induction false} FloorOrOne(q: real)
    ensures var n := Max(1, q.Floor); q < (n + 1) as real && (n != 1 ==> n as real <= q)
  {
  }

  lemma {:induction false} Scaled(a: real, b: real, c: real)
    requires a < b && c > 0.0
    ensures a * c < b * c
  {
    assert (b - a) * c > 0.0;
  }

  lemma {:induction false} ScaledWeakly(a: real, b: real, c: real)
    requires a <= b && c > 0.0
    ensures a * c <= b * c
  {
    assert (b - a) * c >= 0.0;
  }

  /** A result of `n` lines keeps within both caps. */
  predicate Fits(n: int, fs: FileStats, cfg: Config) {
    n <= cfg.lineCap && (n == 1 || fs.bytesPerLine <= 0.0 || n as real * fs.bytesPerLine <= cfg.byteCap as real)
  }

  lemma {:induction false} FewerFit(m: int, most: int, c: real, cap: real)
    requires 1 <= m <= most && c > 0.0 && (most == 1 || most as real * c <= cap)
    ensures m == 1 || m as real * c <= cap
  {
    ScaledWeakly(m as real, most as real, c);
  }

  lemma {:induction false} MoreDoNotFit(n: int, most: int, c: real, cap: real)
    requires most < n && c > 0.0 && (most + 1) as real * c > cap
    ensures n as real * c > cap
  {
    ScaledWeakly((most + 1) as real, n as real, c);
  }

  lemma {:induction false} CallCapFits(fs: FileStats, cfg: Config)
    requires cfg.lineCap >= 1
    ensures Fits(CallCap(fs, cfg), fs, cfg)
  {
    if fs.bytesPerLine > 0.0 {
      var most := ByteLines(fs, cfg);
      BytesAllowExactly(fs, cfg);
      FewerFit(CallCap(fs, cfg), most, fs.bytesPerLine, cfg.byteCap as real);
    }
  }

  /** The cap of a call is the greatest number of lines that keeps within both. */
  lemma {:induction false} CallCapExactly(fs: FileStats, cfg: Config, n: int)
    requires cfg.lineCap >= 1
    ensures Fits(CallCap(fs, cfg), fs, cfg)
    ensures n >= 1 && Fits(n, fs, cfg) ==> n <= CallCap(fs, cfg)
  {
    CallCapFits(fs, cfg);
    if fs.bytesPerLine > 0.0 && n > ByteLines(fs, cfg) {
      BytesAllowExactly(fs, cfg);
      MoreDoNotFit(n, ByteLines(fs, cfg), fs.bytesPerLine, cfg.byteCap as real);
    }
  }

  // ----- Phase 1

  /** The call brings a line that none of the calls before it has returned. */
  ghost predicate IsPaid(calls: seq<ReadCall>, k: nat, fs: FileStats, cfg: Config)
    requires k < |calls|
  {
    var ret := EffectiveReturned(calls[k], fs, cfg);
    ret.Some? && exists x :: ret.value.lo <= x <= ret.value.hi && x !in Lines(Returned(calls[..k], fs, cfg))
  }

  ghost function PaidCalls(calls: seq<ReadCall>, fs: FileStats, cfg: Config): set<nat> {
    set k: nat | k < |calls| && IsPaid(calls, k, fs, cfg)
  }

  /** Lines at the rate of the file, at 0.35 of it for a bare read that is summarised, and 200 tokens. */
  function Price(rc: ReadCall, fs: FileStats, cfg: Config): real {
    var ret := EffectiveReturned(rc, fs, cfg);
    if ret.None? then 0.0
    else
      var lines := (ret.value.hi - ret.value.lo + 1) as real;
      var summarised := rc.intent == Bare && 0 <= cfg.summarizeMin <= fs.sizeLines;
      200.0 + if summarised then 0.35 * lines * fs.tokensPerLine else lines * fs.tokensPerLine
  }

  ghost function PriceOfPaid(calls: seq<ReadCall>, fs: FileStats, cfg: Config): real {
    if calls == [] then 0.0
    else
      var n := |calls| - 1;
      PriceOfPaid(calls[..n], fs, cfg) + if IsPaid(calls, n, fs, cfg) then Price(calls[n], fs, cfg) else 0.0
  }

  lemma {:induction false} SkippedExactly(calls: seq<ReadCall>, fs: FileStats, cfg: Config)
    requires cfg.lineCap >= 1 && calls != [] && EffectiveReturned(calls[|calls| - 1], fs, cfg).Some?
    ensures var n := |calls| - 1;
            Contained(EffectiveReturned(calls[n], fs, cfg).value, Phase1(calls[..n], fs, cfg).covered) <==> !IsPaid(calls, n, fs, cfg)
  {
    var n := |calls| - 1;
    var ret := EffectiveReturned(calls[n], fs, cfg).value;
    Phase1Delivers(calls[..n], fs, cfg);
    EffectiveReturnedBounds(calls[n], fs, cfg);
    CoverageTestsAreExact(Phase1(calls[..n], fs, cfg).covered, ret);
    if !IsPaid(calls, n, fs, cfg) {
      forall x | x in Range(ret.lo, ret.hi) ensures x in Lines(Returned(calls[..n], fs, cfg)) {
      }
    }
  }

  lemma {:induction false} PriceIsCost(rc: ReadCall, fs: FileStats, cfg: Config)
    requires cfg.lineCap >= 1 && EffectiveReturned(rc, fs, cfg).Some?
    ensures CostOfChunk(EffectiveReturned(rc, fs, cfg).value, fs, rc.intent.Bare?, cfg) + ROUNDTRIP_OVERHEAD == Price(rc, fs, cfg)
  {
    EffectiveReturnedBounds(rc, fs, cfg);
    var ret := EffectiveReturned(rc, fs, cfg).value;
    var lines := (ret.hi - ret.lo + 1) as real;
    assert lines * fs.tokensPerLine * 0.35 == 0.35 * lines * fs.tokensPerLine;
  }

  lemma {:induction false} OneMoreCall(calls: seq<ReadCall>, fs: FileStats, cfg: Config)
    requires calls != []
    ensures var n := |calls| - 1;
            |PaidCalls(calls, fs, cfg)| == |PaidCalls(calls[..n], fs, cfg)| + if IsPaid(calls, n, fs, cfg) then 1 else 0
  {
    var n := |calls| - 1;
    var before, now := PaidCalls(calls[..n], fs, cfg), PaidCalls(calls, fs, cfg);
    forall k: nat | k < n ensures IsPaid(calls[..n], k, fs, cfg) <==> IsPaid(calls, k, fs, cfg) {
      assert calls[..n][..k] == calls[..k];
    }
    assert now == if IsPaid(calls, n, fs, cfg) then before + {n} else before;
  }

  /** Phase 1 pays exactly for the calls that bring a new line, each at its price. */
  lemma {:induction false} Phase1PaysExactly(calls: seq<ReadCall>, fs: FileStats, cfg: Config)
    requires cfg.lineCap >= 1
    ensures Phase1(calls, fs, cfg).kept == |PaidCalls(calls, fs, cfg)|
    ensures Phase1(calls, fs, cfg).total == PriceOfPaid(calls, fs, cfg)
  {
    if calls == [] {
      assert PaidCalls(calls, fs, cfg) == {};
    } else {
      var n := |calls| - 1;
      Phase1PaysExactly(calls[..n], fs, cfg);
      OneMoreCall(calls, fs, cfg);
      if EffectiveReturned(calls[n], fs, cfg).Some? {
        SkippedExactly(calls, fs, cfg);
        PriceIsCost(calls[n], fs, cfg);
      }
    }
  }
}
