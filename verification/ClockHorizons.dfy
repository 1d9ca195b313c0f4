/** The clock horizons a compiled rule carries: how long its readings can keep changing
    without a trade, absorbed condition by condition. */
module ClockHorizons {
  import opened Metrics
  import opened Rules
  import opened RuleReqs

  /** Seven days: no horizon reaches further. */
  const MAX_HORIZON_SECS: real := 604_800.0

  /** Sizes the horizon of a slot span; never enters a reading. */
  const NOMINAL_SLOT_SECS: real := 0.4

  function ClampSecs(s: real): real {
    if s <= 0.0 then 0.0 else if s < MAX_HORIZON_SECS then s else MAX_HORIZON_SECS
  }

  function HorizonMs(s: real): int {
    Ceil(ClampSecs(s) * 1000.0)
  }

  /** Span sizes and lags count whole milliseconds. */
  function Quantize(s: NonNegReal): int {
    MaxInt(Round(s * 1000.0), 0)
  }

  function AbsReal(x: real): real {
    if x < 0.0 then -x else x
  }

  datatype Clock = CoinAge | SinceHigh | SinceFill | SinceStage

  function ClockOf(m: Metric): Option<Clock> {
    match m
    case AgeSec => Some(CoinAge)
    case StallSec => Some(SinceHigh)
    case HeldSec => Some(SinceFill)
    case StageSec => Some(SinceStage)
    case _ => None
  }

  function BasisClock(b: DeadlineBasis): Clock {
    match b
    case Age => CoinAge
    case Held => SinceFill
    case Stage => SinceStage
  }

  function Reach(h: Horizons, c: Clock): real {
    match c
    case CoinAge => h.time
    case SinceHigh => h.stall
    case SinceFill => h.held
    case SinceStage => h.stage
  }

  function Extend(h: Horizons, c: Clock, secs: real): Horizons {
    match c
    case CoinAge => h.(time := MaxReal(h.time, ClampSecs(secs)))
    case SinceHigh => h.(stall := MaxReal(h.stall, ClampSecs(secs)))
    case SinceFill => h.(held := MaxReal(h.held, ClampSecs(secs)))
    case SinceStage => h.(stage := MaxReal(h.stage, ClampSecs(secs)))
  }

  const NO_HORIZONS := Horizons(0.0, 0.0, 0.0, 0.0, 0.0)

  function Widen(a: Horizons, b: Horizons): Horizons {
    Horizons(MaxReal(a.window, b.window), MaxReal(a.time, b.time), MaxReal(a.stall, b.stall),
             MaxReal(a.held, b.held), MaxReal(a.stage, b.stage))
  }

  /** The horizons of all loaded rules, widened into one. */
  function UnionOf(hs: seq<Horizons>): Horizons {
    if hs == [] then NO_HORIZONS else Widen(UnionOf(hs[..|hs| - 1]), hs[|hs| - 1])
  }

  // ---- absorbing ------------------------------------------------------------

  function SpanSecs(w: WindowSpec): real {
    match w.unit
    case Sec => w.size + w.lag
    case Slot => (w.size + w.lag) * NOMINAL_SLOT_SECS
    case Prints => 0.0
  }

  function AbsorbSpan(h: Horizons, w: Option<WindowSpec>): Horizons {
    match w
    case None => h
    case Some(spec) => h.(window := MaxReal(h.window, ClampSecs(SpanSecs(spec))))
  }

  function AbsorbThresholds(h: Horizons, clock: Clock, cs: seq<Condition>, tol: real): Horizons {
    if cs == [] then h
    else Extend(AbsorbThresholds(h, clock, cs[..|cs| - 1], tol), clock, AbsReal(cs[|cs| - 1].value) + tol)
  }

  function AbsorbReq(h: Horizons, m: MetricReq): Horizons {
    var spans := AbsorbSpan(AbsorbSpan(h, m.r.span.window), m.r.span.slice);
    match ClockOf(m.r.metric)
    case None => spans
    case Some(clock) => AbsorbThresholds(spans, clock, Flatten(m.conds), m.tolerance)
  }

  function AbsorbReqs(ms: seq<MetricReq>): Horizons {
    if ms == [] then NO_HORIZONS else AbsorbReq(AbsorbReqs(ms[..|ms| - 1]), ms[|ms| - 1])
  }

  /** A deadline is reached at `>= secs`; half a second past it is enough to see it. */
  function AbsorbDeadline(h: Horizons, s: StagePlan): Horizons {
    match s.ends
    case None => h
    case Some((basis, secs)) => Extend(h, BasisClock(basis), secs + 0.5)
  }

  function AbsorbDeadlines(h: Horizons, stages: seq<StagePlan>): Horizons {
    if stages == [] then h else AbsorbDeadline(AbsorbDeadlines(h, stages[..|stages| - 1]), stages[|stages| - 1])
  }

  function HorizonsOf(ms: seq<MetricReq>, stages: seq<StagePlan>): Horizons {
    AbsorbDeadlines(AbsorbReqs(ms), stages)
  }

  /** One pass over every metric condition and every stage deadline. */
  method AbsorbAll(ms: seq<MetricReq>, stages: seq<StagePlan>) returns (h: Horizons)
    ensures h == HorizonsOf(ms, stages)
  {
    h := NO_HORIZONS;
    for i := 0 to |ms|
      invariant h == AbsorbReqs(ms[..i])
    {
      assert ms[..i + 1][..i] == ms[..i];
      ghost var before := h;
      var m := ms[i];
      h := AbsorbSpan(h, m.r.span.window);
      h := AbsorbSpan(h, m.r.span.slice);
      ghost var spans := h;
      var clock := ClockOf(m.r.metric);
      if clock.Some? {
        var cs := Flatten(m.conds);
        for j := 0 to |cs|
          invariant h == AbsorbThresholds(spans, clock.value, cs[..j], m.tolerance)
        {
          assert cs[..j + 1][..j] == cs[..j];
          h := Extend(h, clock.value, AbsReal(cs[j].value) + m.tolerance);
        }
        assert cs[..|cs|] == cs;
      }
      assert h == AbsorbReq(before, m);
    }
    assert ms[..|ms|] == ms;
    for i := 0 to |stages|
      invariant h == AbsorbDeadlines(AbsorbReqs(ms), stages[..i])
    {
      assert stages[..i + 1][..i] == stages[..i];
      h := AbsorbDeadline(h, stages[i]);
    }
    assert stages[..|stages|] == stages;
  }

  // ---- coverage -------------------------------------------------------------

  /** No clock threshold of the condition lies past the horizon. */
  predicate ThresholdsWithin(h: Horizons, m: MetricReq) {
    ClockOf(m.r.metric).Some? ==>
      forall c | c in Flatten(m.conds) :: AbsReal(c.value) + m.tolerance <= Reach(h, ClockOf(m.r.metric).value)
  }

  predicate SpanWithin(h: Horizons, w: Option<WindowSpec>) {
    w.Some? && w.value.unit == Sec ==> Quantize(w.value.size) + Quantize(w.value.lag) <= HorizonMs(h.window)
  }

  predicate CoversReq(h: Horizons, m: MetricReq) {
    ThresholdsWithin(h, m) && SpanWithin(h, m.r.span.window) && SpanWithin(h, m.r.span.slice)
  }

  predicate CoversDeadline(h: Horizons, s: StagePlan) {
    s.ends.Some? ==> s.ends.value.1 <= Reach(h, BasisClock(s.ends.value.0))
  }

  predicate Covers(h: Horizons, rule: Rule) {
    && (forall m | m in AllReqs(rule) :: CoversReq(h, m))
    && (forall s | s in rule.stages :: CoversDeadline(h, s))
  }

  predicate Bounded(h: Horizons) {
    && 0.0 <= h.window <= MAX_HORIZON_SECS
    && 0.0 <= h.time <= MAX_HORIZON_SECS && 0.0 <= h.stall <= MAX_HORIZON_SECS
    && 0.0 <= h.held <= MAX_HORIZON_SECS && 0.0 <= h.stage <= MAX_HORIZON_SECS
  }

  predicate AtMost(a: Horizons, b: Horizons) {
    a.window <= b.window && a.time <= b.time && a.stall <= b.stall && a.held <= b.held && a.stage <= b.stage
  }

  predicate HorizonsDerived(rule: Rule) {
    rule.horizons == HorizonsOf(AllReqs(rule), rule.stages)
  }

  lemma {:induction false} ThresholdsReach(h: Horizons, clock: Clock, cs: seq<Condition>, tol: real)
    requires Bounded(h)
    ensures var r := AbsorbThresholds(h, clock, cs, tol);
            && Bounded(r) && AtMost(h, r) && r.window == h.window
            && forall c | c in cs :: ClampSecs(AbsReal(c.value) + tol) <= Reach(r, clock)
  {
    if cs != [] {
      var n := |cs| - 1;
      ThresholdsReach(h, clock, cs[..n], tol);
      assert cs == cs[..n] + [cs[n]];
    }
  }

  predicate SpanReached(h: Horizons, w: Option<WindowSpec>) {
    w.Some? ==> ClampSecs(SpanSecs(w.value)) <= h.window
  }

  predicate Reached(h: Horizons, m: MetricReq) {
    && SpanReached(h, m.r.span.window) && SpanReached(h, m.r.span.slice)
    && (ClockOf(m.r.metric).Some? ==>
          forall c | c in Flatten(m.conds) :: ClampSecs(AbsReal(c.value) + m.tolerance) <= Reach(h, ClockOf(m.r.metric).value))
  }

  lemma {:induction false} ReqsReach(ms: seq<MetricReq>)
    ensures Bounded(AbsorbReqs(ms))
    ensures forall m | m in ms :: Reached(AbsorbReqs(ms), m)
  {
    if ms != [] {
      var n := |ms| - 1;
      ReqsReach(ms[..n]);
      assert ms == ms[..n] + [ms[n]];
      var spans := AbsorbSpan(AbsorbSpan(AbsorbReqs(ms[..n]), ms[n].r.span.window), ms[n].r.span.slice);
      if ClockOf(ms[n].r.metric).Some? {
        ThresholdsReach(spans, ClockOf(ms[n].r.metric).value, Flatten(ms[n].conds), ms[n].tolerance);
      }
      assert AtMost(AbsorbReqs(ms[..n]), AbsorbReqs(ms));
    }
  }

  lemma {:induction false} DeadlinesReach(h: Horizons, stages: seq<StagePlan>)
    requires Bounded(h)
    ensures var r := AbsorbDeadlines(h, stages);
            && Bounded(r) && AtMost(h, r) && r.window == h.window
            && forall s | s in stages && s.ends.Some? :: ClampSecs(s.ends.value.1 + 0.5) <= Reach(r, BasisClock(s.ends.value.0))
  {
    if stages != [] {
      var n := |stages| - 1;
      DeadlinesReach(h, stages[..n]);
      assert stages == stages[..n] + [stages[n]];
    }
  }

  /** No absorbed quantity is past the seven-day clamp. */
  predicate Unclamped(m: MetricReq) {
    ClockOf(m.r.metric).Some? ==> forall c | c in Flatten(m.conds) :: AbsReal(c.value) + m.tolerance <= MAX_HORIZON_SECS
  }

  /** The clamped horizon of the span still spans its rounded milliseconds. */
  predicate SpanFits(w: Option<WindowSpec>) {
    w.Some? && w.value.unit == Sec ==> Quantize(w.value.size) + Quantize(w.value.lag) <= HorizonMs(w.value.size + w.value.lag)
  }

  predicate FitsHorizons(rule: Rule) {
    && (forall m | m in AllReqs(rule) :: Unclamped(m) && SpanFits(m.r.span.window) && SpanFits(m.r.span.slice))
    && (forall s | s in rule.stages && s.ends.Some? :: s.ends.value.1 + 0.5 <= MAX_HORIZON_SECS)
  }

  /** A condition's clock thresholds are within its rule's horizons exactly when the
      seven-day clamp cut none of them short. */
  lemma ThresholdsWithinIffUnclamped(rule: Rule, m: MetricReq)
    requires HorizonsDerived(rule) && m in AllReqs(rule)
    ensures ThresholdsWithin(rule.horizons, m) <==> Unclamped(m)
    ensures Bounded(rule.horizons) && Reached(rule.horizons, m)
  {
    ReqsReach(AllReqs(rule));
    DeadlinesReach(AbsorbReqs(AllReqs(rule)), rule.stages);
    assert AtMost(AbsorbReqs(AllReqs(rule)), rule.horizons);
  }

  /** The horizons of a compiled rule, and any wider ones, cover it. */
  lemma CompiledHorizonsCover(rule: Rule, h: Horizons)
    requires HorizonsDerived(rule) && FitsHorizons(rule)
    requires AtMost(rule.horizons, h)
    ensures Covers(h, rule)
  {
    forall m | m in AllReqs(rule)
      ensures CoversReq(h, m)
    {
      ThresholdsWithinIffUnclamped(rule, m);
      forall w: Option<WindowSpec> | (w == m.r.span.window || w == m.r.span.slice) && w.Some? && w.value.unit == Sec
        ensures SpanWithin(h, w)
      {
        assert SpanFits(w);
      }
    }
    forall s | s in rule.stages
      ensures CoversDeadline(h, s)
    {
      ReqsReach(AllReqs(rule));
      DeadlinesReach(AbsorbReqs(AllReqs(rule)), rule.stages);
    }
  }

  lemma DerivedHorizonsAreBounded(rule: Rule)
    requires HorizonsDerived(rule)
    ensures Bounded(rule.horizons)
  {
    ReqsReach(AllReqs(rule));
    DeadlinesReach(AbsorbReqs(AllReqs(rule)), rule.stages);
  }

  // ---- no longer than needed ------------------------------------------------

  predicate DeadlineReachable(h: Horizons, s: StagePlan) {
    s.ends.Some? ==> ClampSecs(s.ends.value.1 + 0.5) <= Reach(h, BasisClock(s.ends.value.0))
  }

  /** Every threshold, span and deadline, clamped, is within the horizons. */
  predicate ReachesAll(h: Horizons, ms: seq<MetricReq>, stages: seq<StagePlan>) {
    (forall m | m in ms :: Reached(h, m)) && (forall s | s in stages :: DeadlineReachable(h, s))
  }

  lemma {:induction false} ThresholdsAreLeast(from: Horizons, clock: Clock, cs: seq<Condition>, tol: real, h: Horizons)
    requires Bounded(h) && AtMost(from, h)
    requires forall c | c in cs :: ClampSecs(AbsReal(c.value) + tol) <= Reach(h, clock)
    ensures AtMost(AbsorbThresholds(from, clock, cs, tol), h)
  {
    if cs != [] {
      var n := |cs| - 1;
      assert cs == cs[..n] + [cs[n]];
      ThresholdsAreLeast(from, clock, cs[..n], tol, h);
    }
  }

  lemma {:induction false} ReqsAreLeast(ms: seq<MetricReq>, h: Horizons)
    requires Bounded(h) && forall m | m in ms :: Reached(h, m)
    ensures AtMost(AbsorbReqs(ms), h)
  {
    if ms != [] {
      var n := |ms| - 1;
      assert ms == ms[..n] + [ms[n]];
      ReqsAreLeast(ms[..n], h);
      assert Reached(h, ms[n]);
      var spans := AbsorbSpan(AbsorbSpan(AbsorbReqs(ms[..n]), ms[n].r.span.window), ms[n].r.span.slice);
      if ClockOf(ms[n].r.metric).Some? {
        ThresholdsAreLeast(spans, ClockOf(ms[n].r.metric).value, Flatten(ms[n].conds), ms[n].tolerance, h);
      }
    }
  }

  lemma {:induction false} DeadlinesAreLeast(from: Horizons, stages: seq<StagePlan>, h: Horizons)
    requires Bounded(h) && AtMost(from, h) && forall s | s in stages :: DeadlineReachable(h, s)
    ensures AtMost(AbsorbDeadlines(from, stages), h)
  {
    if stages != [] {
      var n := |stages| - 1;
      assert stages == stages[..n] + [stages[n]];
      DeadlinesAreLeast(from, stages[..n], h);
      assert DeadlineReachable(h, stages[n]);
    }
  }

  /** The horizons of a compiled rule are the least that reach every threshold, span and
      deadline of it: no tick is evaluated for longer than some reading can still change. */
  lemma DerivedHorizonsAreLeast(rule: Rule, h: Horizons)
    requires HorizonsDerived(rule)
    ensures Bounded(rule.horizons) && ReachesAll(rule.horizons, AllReqs(rule), rule.stages)
    ensures Bounded(h) && ReachesAll(h, AllReqs(rule), rule.stages) ==> AtMost(rule.horizons, h)
  {
    var ms := AllReqs(rule);
    ReqsReach(ms);
    DeadlinesReach(AbsorbReqs(ms), rule.stages);
    forall m | m in ms
      ensures Reached(rule.horizons, m)
    {
      ThresholdsWithinIffUnclamped(rule, m);
    }
    if Bounded(h) && ReachesAll(h, ms, rule.stages) {
      ReqsAreLeast(ms, h);
      DeadlinesAreLeast(AbsorbReqs(ms), rule.stages, h);
    }
  }

  /** In seconds: a span lasts as long as it says, a slot counting two fifths of a second and
      a print nothing. */
  lemma SpanLengths(size: nat, lag: nat)
    ensures SpanSecs(WindowSpec(size as real, lag as real, Sec)) == (size + lag) as real
    ensures 5.0 * SpanSecs(WindowSpec(size as real, lag as real, Slot)) == (2 * (size + lag)) as real
    ensures SpanSecs(WindowSpec(size as real, lag as real, Prints)) == 0.0
  {
  }

  lemma {:induction false} UnionReachesEach(hs: seq<Horizons>, i: nat)
    requires i < |hs| && forall h | h in hs :: Bounded(h)
    ensures Bounded(UnionOf(hs)) && AtMost(hs[i], UnionOf(hs))
  {
    var n := |hs| - 1;
    assert hs[n] in hs;
    if n > 0 {
      UnionReachesEach(hs[..n], if i < n then i else 0);
    }
  }

  /** Spans written in whole milliseconds, up to seven days, always fit. */
  lemma WholeMillisecondSpansFit(w: WindowSpec, size: nat, lag: nat)
    requires w.size * 1000.0 == size as real && w.lag * 1000.0 == lag as real
    requires w.size + w.lag <= MAX_HORIZON_SECS
    ensures SpanFits(Some(w))
  {
  }
}
