/** Where the settled stamp stops being safe: on a print the rule reads facts of, at the
    closed edge of a window, and past the seven-day clamp; each with its exact condition and
    an input on the failing side. */
module StampLimits {
  import opened Metrics
  import opened Rules
  import opened RuleReqs
  import opened ClockHorizons
  import opened MonoKills
  import opened Settled

  // ---- rules that only enter ------------------------------------------------

  function EntryRule(event: seq<CondReq>, signals: seq<Signal>, reqs: seq<MetricReq>): Rule {
    var stages := [StagePlan(None, [], [], None)];
    Rule(event, [], [], Unlocked, signals, [], stages, None, [], DeriveKills(event), HorizonsOf(reqs, stages), false)
  }

  lemma EntryRuleReads(event: seq<CondReq>, signals: seq<Signal>, reqs: seq<MetricReq>)
    ensures AllReqs(EntryRule(event, signals, reqs)) == ReqsOf(event) + Flatten(Flatten(signals))
  {
    var rule := EntryRule(event, signals, reqs);
    assert rule.event + rule.filters + rule.finalFilters == event;
    assert StageLines(rule.stages) == [] by {
      assert rule.stages[1..] == [];
    }
    assert HeldLines(rule) == [];
  }

  lemma EntryRuleShape(event: seq<CondReq>, signals: seq<Signal>, reqs: seq<MetricReq>)
    requires ReqsOf(event) + Flatten(Flatten(signals)) == reqs
    requires forall c | c in event :: c.OnSignal? ==> c.index < |signals|
    ensures var rule := EntryRule(event, signals, reqs);
            Wf(rule) && HorizonsDerived(rule) && AllReqs(rule) == reqs
  {
    EntryRuleReads(event, signals, reqs);
  }

  lemma OneReqShape(m: MetricReq)
    ensures var rule := EntryRule([OnMetric(m)], [], [m]);
            Wf(rule) && HorizonsDerived(rule) && AllReqs(rule) == [m]
  {
    var event, none := [OnMetric(m)], [];
    assert ReqsOf(event) == [m];
    assert Flatten(Flatten<seq<MetricReq>>(none)) == [];
    EntryRuleShape(event, none, [m]);
  }

  /** Enter on one fact of the print, or on its absence. */
  function FactRule(m: MetricReq, negated: bool): Rule {
    EntryRule([OnSignal(0, negated)], [[[m]]], [m])
  }

  lemma FactRuleShape(m: MetricReq, negated: bool)
    ensures Wf(FactRule(m, negated)) && HorizonsDerived(FactRule(m, negated)) && AllReqs(FactRule(m, negated)) == [m]
  {
    var g := [m];
    FlattenOne([g]);
    assert Flatten([g]) == g by {
      FlattenOne(g);
    }
    assert ReqsOf([OnSignal(0, negated)]) == [];
    EntryRuleShape([OnSignal(0, negated)], [[g]], g);
  }

  /** What an armed rule decides on a tick, and on a print. */
  function TickVerdict(rule: Rule, coin: Coin, now: Ts): Verdict
    requires Wf(rule)
  {
    TryEnter(rule, ReadsOf(coin, None), now, None, false)
  }

  function PrintVerdict(rule: Rule, coin: Coin, facts: PrintFacts, now: Ts): Verdict
    requires Wf(rule)
  {
    TryEnter(rule, ReadsOf(coin, Some(facts)), now, None, true)
  }

  lemma FactRuleDecides(m: MetricReq, negated: bool, coin: Reads, now: Ts, onPrint: bool)
    ensures Wf(FactRule(m, negated))
    ensures TryEnter(FactRule(m, negated), coin, now, None, onPrint) == if ReqHolds(m, coin, None, now) == negated then No else Enter
  {
    var rule := FactRule(m, negated);
    var g := [m];
    assert rule.signals[0] == [g];
    assert SignalHolds([g], coin, None, now) <==> ReqHolds(m, coin, None, now) by {
      assert g[0] == m && g in [g];
    }
    assert rule.event[0] == OnSignal(0, negated);
    assert EventSatisfied(rule, coin, now) <==> CondHolds(rule, rule.event[0], coin, None, now);
    assert rule.always + FirstLines(rule, coin, now) == [];
  }

  /** Every tick from the print on takes the verdict the print took. */
  ghost predicate PrintRepeats(rule: Rule, coin: Coin, facts: PrintFacts, s: Ts)
    requires Wf(rule)
  {
    forall t | t >= s :: TickVerdict(rule, coin, t) == PrintVerdict(rule, coin, facts, s)
  }

  lemma NoHorizonStamp(coin: Coin, s: Ts)
    requires CoinOk(coin)
    ensures SettleUntil(coin, None, NO_HORIZONS) <= s <==> Anchor(coin) <= s && LastMeaningful(coin) + DEAD_QUIET_MS <= s
  {
    assert HorizonMs(0.0) == 0;
  }

  lemma NoWindowNoHorizon(m: MetricReq, negated: bool)
    requires FactOfThePrint(m.r.metric) && !IsWindowed(m.r.span)
    ensures FactRule(m, negated).horizons == NO_HORIZONS
  {
    assert ClockOf(m.r.metric).None?;
    assert AbsorbReqs([m]) == AbsorbReq(NO_HORIZONS, m) by {
      assert [m][..0] == [];
    }
    var stages := [StagePlan(None, [], [], None)];
    assert AbsorbDeadlines(AbsorbReqs([m]), stages) == AbsorbReqs([m]) by {
      assert stages[..0] == [];
    }
  }

  lemma FactReads(m: MetricReq, coin: Coin, facts: PrintFacts, s: Ts, t: Ts)
    requires FactOfThePrint(m.r.metric) && m.readId.Column?
    ensures ReqHolds(m, ReadsOf(coin, Some(facts)), None, s) == Eval(m.conds, FactValue(Some(facts), m.r, m.fingerprint), m.tolerance)
    ensures ReqHolds(m, ReadsOf(coin, None), None, t) == Eval(m.conds, FactValue(None, m.r, m.fingerprint), m.tolerance)
  {
  }

  /** The stamp is also taken on a print. A rule of one condition, over a fact of the print or
      over its absence, repeats the print's verdict on the ticks after it exactly when the
      condition reads the fact as it reads its absence. Without a window the stamp is taken as
      soon as the last meaningful trade is five minutes old. */
  lemma PrintStampIsSoundIff(m: MetricReq, negated: bool, coin: Coin, facts: PrintFacts, s: Ts)
    requires FactOfThePrint(m.r.metric) && m.readId.Column? && CoinOk(coin)
    ensures Wf(FactRule(m, negated)) && HorizonsDerived(FactRule(m, negated))
    ensures !IsWindowed(m.r.span) ==>
              (SettleUntil(coin, None, FactRule(m, negated).horizons) <= s
               <==> Anchor(coin) <= s && LastMeaningful(coin) + DEAD_QUIET_MS <= s)
    ensures PrintRepeats(FactRule(m, negated), coin, facts, s)
            <==> Eval(m.conds, FactValue(Some(facts), m.r, m.fingerprint), m.tolerance)
                 == Eval(m.conds, FactValue(None, m.r, m.fingerprint), m.tolerance)
  {
    FactRuleShape(m, negated);
    if !IsWindowed(m.r.span) {
      NoWindowNoHorizon(m, negated);
      NoHorizonStamp(coin, s);
    }
    FactRuleDecides(m, negated, ReadsOf(coin, Some(facts)), s, true);
    FactReads(m, coin, facts, s, s);
    forall t | t >= s
      ensures TickVerdict(FactRule(m, negated), coin, t)
              == if Eval(m.conds, FactValue(None, m.r, m.fingerprint), m.tolerance) == negated then No else Enter
    {
      FactReads(m, coin, facts, s, t);
      FactRuleDecides(m, negated, ReadsOf(coin, None), t, false);
    }
    assert TickVerdict(FactRule(m, negated), coin, s)
           == if Eval(m.conds, FactValue(None, m.r, m.fingerprint), m.tolerance) == negated then No else Enter;
  }

  const SINCE_A_MINUTE := Span(None, None, Some(60), false)

  /** `buyer_count [age60s] >= 5` and `buyer_is_new [age60s] = 0`. */
  const FIVE_BUYERS := MetricReq(MetricRef(Listed(Crowd, 280, true, 0.5), None, SINCE_A_MINUTE), None, 0.5,
                                 [[Condition(Gte, 5.0)]], Column(0))
  const NOT_ARRIVING := MetricReq(MetricRef(BuyerIsNew, None, SINCE_A_MINUTE), None, 0.5, [[Condition(Eq, 0.0)]], Column(1))

  /** Enter when two readings hold together. */
  function PairRule(a: MetricReq, b: MetricReq): Rule {
    EntryRule([OnMetric(a), OnMetric(b)], [], [a, b])
  }

  function ArrivalRule(): Rule {
    PairRule(FIVE_BUYERS, NOT_ARRIVING)
  }

  /** A coin whose fifth buyer just arrived with dust, long after its last meaningful trade. */
  function ArrivalCoin(): Coin {
    Coin(0, 0, Some(1_000_000), Some(600_000), [TapePrint(1_000_000, 0)], 0, Value(40.0),
         (r: MetricRef, fp: Option<nat>) => Value(5.0),
         (r: MetricRef, fp: Option<nat>, ps: seq<TapePrint>, slice: seq<TapePrint>) => Undefined,
         (m: Metric, p: PositionCtx) => Undefined)
  }

  const ARRIVAL := PrintFacts((r: MetricRef, fp: Option<nat>) => Value(1.0), Some(7))

  lemma PairReqs(a: MetricReq, b: MetricReq)
    ensures ReqsOf([OnMetric(a), OnMetric(b)]) == [a, b]
  {
    var event := [OnMetric(a), OnMetric(b)];
    assert event[1..] == [OnMetric(b)] && [OnMetric(b)][1..] == [];
    assert ReqsOf([OnMetric(b)]) == [b] + ReqsOf([]);
  }

  lemma PairRuleShape(a: MetricReq, b: MetricReq)
    ensures Wf(PairRule(a, b)) && HorizonsDerived(PairRule(a, b)) && AllReqs(PairRule(a, b)) == [a, b]
  {
    var event, none, ms := [OnMetric(a), OnMetric(b)], [], [a, b];
    PairReqs(a, b);
    assert Flatten(Flatten<seq<MetricReq>>(none)) == [];
    EntryRuleShape(event, none, ms);
  }

  lemma PairHorizons(a: MetricReq, b: MetricReq)
    requires AbsorbReq(NO_HORIZONS, a) == NO_HORIZONS && AbsorbReq(NO_HORIZONS, b) == NO_HORIZONS
    ensures PairRule(a, b).horizons == NO_HORIZONS
  {
    var ms, stages := [a, b], [StagePlan(None, [], [], None)];
    assert ms[..1] == [a] && ms[..1][..0] == [] && stages[..0] == [];
    assert AbsorbReqs(ms[..1]) == NO_HORIZONS;
    assert AbsorbReqs(ms) == NO_HORIZONS;
  }

  lemma PairReqsOk(a: MetricReq, b: MetricReq)
    requires ReqOk(a) && ReqOk(b)
    ensures ReqsOk(PairRule(a, b))
  {
    PairRuleShape(a, b);
  }

  lemma ArrivalReqs()
    ensures ReqOk(FIVE_BUYERS) && ReqOk(NOT_ARRIVING)
    ensures AbsorbReq(NO_HORIZONS, FIVE_BUYERS) == NO_HORIZONS && AbsorbReq(NO_HORIZONS, NOT_ARRIVING) == NO_HORIZONS
  {
  }

  lemma ArrivalRuleShape()
    ensures Wf(ArrivalRule()) && HorizonsDerived(ArrivalRule()) && ReqsOk(ArrivalRule()) && ArrivalRule().horizons == NO_HORIZONS
  {
    ArrivalReqs();
    PairRuleShape(FIVE_BUYERS, NOT_ARRIVING);
    PairHorizons(FIVE_BUYERS, NOT_ARRIVING);
    PairReqsOk(FIVE_BUYERS, NOT_ARRIVING);
  }

  lemma ArrivalConds(coin: Reads, now: Ts)
    requires ReadReq(FIVE_BUYERS, coin, None, now) == Value(5.0)
    requires ReadReq(NOT_ARRIVING, coin, None, now).Value?
    ensures ReqHolds(FIVE_BUYERS, coin, None, now)
    ensures var x := ReadReq(NOT_ARRIVING, coin, None, now).v;
            ReqHolds(NOT_ARRIVING, coin, None, now) <==> -0.25 <= x <= 0.25
  {
    var five, none := [Condition(Gte, 5.0)], [Condition(Eq, 0.0)];
    assert five in FIVE_BUYERS.conds && none in NOT_ARRIVING.conds;
    assert five[0] in five && none[0] in none;
    assert ArmHolds(five, 5.0, 0.5);
    var x := ReadReq(NOT_ARRIVING, coin, None, now).v;
    assert ArmHolds(none, x, 0.5) <==> -0.25 <= x <= 0.25;
  }

  lemma PairRuleDecides(a: MetricReq, b: MetricReq, coin: Reads, now: Ts, onPrint: bool)
    ensures Wf(PairRule(a, b))
    ensures TryEnter(PairRule(a, b), coin, now, None, onPrint)
            == if ReqHolds(a, coin, None, now) && ReqHolds(b, coin, None, now) then Enter else No
  {
    var rule := PairRule(a, b);
    assert rule.event[0] == OnMetric(a) && rule.event[1] == OnMetric(b);
    assert EventSatisfied(rule, coin, now)
      <==> CondHolds(rule, rule.event[0], coin, None, now) && CondHolds(rule, rule.event[1], coin, None, now);
    assert rule.always + FirstLines(rule, coin, now) == [];
  }

  lemma ArrivalCoinIsSettled()
    ensures CoinOk(ArrivalCoin()) && ArrivalCoin().lastTradeAt == Some(1_000_000)
    ensures SettleUntil(ArrivalCoin(), None, NO_HORIZONS) <= 1_000_000
    ensures forall t :: !DeadVerdict(ArrivalCoin(), t)
  {
    assert ArrivalCoin().tape[0] in ArrivalCoin().tape;
    assert HorizonMs(0.0) == 0;
  }

  lemma ArrivalReads(t: Ts)
    ensures var coinReads := ReadsOf(ArrivalCoin(), Some(ARRIVAL));
            ReadReq(FIVE_BUYERS, coinReads, None, t) == Value(5.0) && ReadReq(NOT_ARRIVING, coinReads, None, t) == Value(1.0)
    ensures var coinReads := ReadsOf(ArrivalCoin(), None);
            ReadReq(FIVE_BUYERS, coinReads, None, t) == Value(5.0) && ReadReq(NOT_ARRIVING, coinReads, None, t) == Value(0.0)
  {
  }

  lemma ArrivalVerdicts(t: Ts)
    ensures Wf(ArrivalRule())
    ensures PrintVerdict(ArrivalRule(), ArrivalCoin(), ARRIVAL, t) == No
    ensures TickVerdict(ArrivalRule(), ArrivalCoin(), t) == Enter
  {
    var shown, tick := ReadsOf(ArrivalCoin(), Some(ARRIVAL)), ReadsOf(ArrivalCoin(), None);
    ArrivalReads(t);
    ArrivalConds(shown, t);
    ArrivalConds(tick, t);
    PairRuleDecides(FIVE_BUYERS, NOT_ARRIVING, shown, t, true);
    PairRuleDecides(FIVE_BUYERS, NOT_ARRIVING, tick, t, false);
  }

  /** It is not always sound: the print that brings the fifth buyer is a No, it takes the
      stamp, and every tick it silences would have bought. */
  lemma StampOnAPrintCanLoseAnEntry()
    ensures Wf(ArrivalRule()) && HorizonsDerived(ArrivalRule()) && ReqsOk(ArrivalRule())
    ensures CoinOk(ArrivalCoin()) && ArrivalCoin().lastTradeAt == Some(1_000_000)
    ensures SettleUntil(ArrivalCoin(), None, ArrivalRule().horizons) <= 1_000_000
    ensures PrintVerdict(ArrivalRule(), ArrivalCoin(), ARRIVAL, 1_000_000) == No
    ensures forall t | t >= 1_000_000 :: TickVerdict(ArrivalRule(), ArrivalCoin(), t) == Enter && !DeadVerdict(ArrivalCoin(), t)
  {
    ArrivalRuleShape();
    ArrivalCoinIsSettled();
    ArrivalVerdicts(1_000_000);
    forall t | t >= 1_000_000
      ensures TickVerdict(ArrivalRule(), ArrivalCoin(), t) == Enter
    {
      ArrivalVerdicts(t);
    }
  }

  // ---- the window's closed edge ---------------------------------------------

  /** Enter once nothing printed inside the span: `trade_count [w] < 1`. */
  function QuietReq(w: WindowSpec): MetricReq {
    MetricReq(MetricRef(TradeCount, None, Span(Some(w), None, None, false)), None, 0.5, [[Condition(Lt, 1.0)]], Column(0))
  }

  function QuietRule(w: WindowSpec): Rule {
    EntryRule([OnMetric(QuietReq(w))], [], [QuietReq(w)])
  }

  lemma QuietRuleShape(w: WindowSpec)
    requires w.unit == Sec
    ensures Wf(QuietRule(w)) && ReqsOk(QuietRule(w)) && HorizonsDerived(QuietRule(w)) && AllReqs(QuietRule(w)) == [QuietReq(w)]
  {
    OneReqShape(QuietReq(w));
  }

  lemma QuietReqHolds(w: WindowSpec, coin: Coin, now: Ts)
    requires w.unit == Sec
    ensures ReqHolds(QuietReq(w), ReadsOf(coin, None), None, now) <==> PrintsIn(coin.tape, w, now) == []
  {
    var arm := [Condition(Lt, 1.0)];
    assert QuietReq(w).conds == [arm];
    assert arm[0] in arm;
    assert arm in QuietReq(w).conds;
    var n := |PrintsIn(coin.tape, w, now)| as real;
    assert CoinValue(coin, None, QuietReq(w).r, None, now) == Value(n);
    assert ArmHolds(arm, n, 0.5) <==> n < 1.0;
  }

  /** A rule that is one entry condition and nothing else buys exactly when it holds. */
  lemma OneConditionDecides(m: MetricReq, coin: Coin, now: Ts)
    ensures Wf(EntryRule([OnMetric(m)], [], [m]))
    ensures TickVerdict(EntryRule([OnMetric(m)], [], [m]), coin, now)
            == if ReqHolds(m, ReadsOf(coin, None), None, now) then Enter else No
  {
    var rule := EntryRule([OnMetric(m)], [], [m]);
    var coinReads := ReadsOf(coin, None);
    assert rule.event[0] == OnMetric(m);
    assert EventSatisfied(rule, coinReads, now) <==> CondHolds(rule, rule.event[0], coinReads, None, now);
    assert rule.always + FirstLines(rule, coinReads, now) == [];
  }

  lemma QuietRuleEnters(w: WindowSpec, coin: Coin, now: Ts)
    requires w.unit == Sec
    ensures Wf(QuietRule(w))
    ensures TickVerdict(QuietRule(w), coin, now) == if PrintsIn(coin.tape, w, now) == [] then Enter else No
  {
    QuietReqHolds(w, coin, now);
    OneConditionDecides(QuietReq(w), coin, now);
  }

  /** Every tick from `now` on decides as the tick at `now` does. */
  ghost predicate EntryRepeats(rule: Rule, coin: Coin, now: Ts)
    requires Wf(rule)
  {
    forall t | t >= now :: TickVerdict(rule, coin, t) == TickVerdict(rule, coin, now)
  }

  function WindowEdge(w: WindowSpec, coin: Coin): Ts {
    Anchor(coin) + Quantize(w.size) + Quantize(w.lag)
  }

  lemma QuietHorizonReachesTheEdge(w: WindowSpec, coin: Coin)
    requires w.unit == Sec && SpanFits(Some(w))
    ensures SettleUntil(coin, None, QuietRule(w).horizons) >= WindowEdge(w, coin)
  {
    QuietRuleShape(w);
    ThresholdsWithinIffUnclamped(QuietRule(w), QuietReq(w));
    SpanReachesTheEdge(w, coin, QuietRule(w).horizons);
  }

  lemma SpanReachesTheEdge(w: WindowSpec, coin: Coin, h: Horizons)
    requires w.unit == Sec && SpanFits(Some(w)) && SpanReached(h, Some(w)) && Bounded(h)
    ensures SettleUntil(coin, None, h) >= WindowEdge(w, coin)
  {
    assert SettleUntil(coin, None, h) >= Anchor(coin) + HorizonMs(h.window);
  }

  lemma PastTheEdgeEnters(w: WindowSpec, coin: Coin, now: Ts)
    requires w.unit == Sec && CoinOk(coin) && now > WindowEdge(w, coin)
    ensures Wf(QuietRule(w)) && TickVerdict(QuietRule(w), coin, now) == Enter
  {
    NothingInSpan(coin.tape, w, Anchor(coin), now);
    QuietRuleEnters(w, coin, now);
  }

  lemma PastTheEdgeRepeats(w: WindowSpec, coin: Coin, now: Ts)
    requires w.unit == Sec && CoinOk(coin) && now > WindowEdge(w, coin)
    ensures Wf(QuietRule(w)) && EntryRepeats(QuietRule(w), coin, now)
  {
    PastTheEdgeEnters(w, coin, now);
    forall t | t >= now
      ensures TickVerdict(QuietRule(w), coin, t) == Enter
    {
      PastTheEdgeEnters(w, coin, t);
    }
  }

  /** At its edge the span still counts the newest print; a millisecond later it counts none. */
  lemma SpanEmptiesAfterItsEdge(w: WindowSpec, coin: Coin)
    requires w.unit == Sec && CoinOk(coin) && coin.lastTradeAt.Some?
    ensures PrintsIn(coin.tape, w, WindowEdge(w, coin)) != []
    ensures PrintsIn(coin.tape, w, WindowEdge(w, coin) + 1) == []
  {
    NothingInSpan(coin.tape, w, Anchor(coin), WindowEdge(w, coin) + 1);
    var p :| p in coin.tape && p.at == coin.lastTradeAt.value;
    assert p in PrintsIn(coin.tape, w, WindowEdge(w, coin));
  }

  lemma AtTheEdgeWaits(w: WindowSpec, coin: Coin)
    requires w.unit == Sec && CoinOk(coin) && coin.lastTradeAt.Some?
    ensures Wf(QuietRule(w)) && TickVerdict(QuietRule(w), coin, WindowEdge(w, coin)) == No
  {
    SpanEmptiesAfterItsEdge(w, coin);
    QuietRuleEnters(w, coin, WindowEdge(w, coin));
  }

  lemma AtTheEdgeChanges(w: WindowSpec, coin: Coin)
    requires w.unit == Sec && CoinOk(coin) && coin.lastTradeAt.Some?
    ensures Wf(QuietRule(w)) && !EntryRepeats(QuietRule(w), coin, WindowEdge(w, coin))
  {
    AtTheEdgeWaits(w, coin);
    PastTheEdgeEnters(w, coin, WindowEdge(w, coin) + 1);
  }

  /** The settled stamp is taken at any instant not before the horizon, but a span is closed:
      at the very instant the newest print turns as old as the span it still counts. For a
      rule that waits for an empty span, the verdict stamped at `now` repeats for ever exactly
      when `now` is strictly past the window. */
  lemma StampIsSoundIffStrictlyPastTheWindow(w: WindowSpec, coin: Coin, now: Ts)
    requires w.unit == Sec && SpanFits(Some(w))
    requires CoinOk(coin) && coin.lastTradeAt.Some?
    requires SettleUntil(coin, None, QuietRule(w).horizons) <= now
    ensures Wf(QuietRule(w)) && HorizonsDerived(QuietRule(w))
    ensures EntryRepeats(QuietRule(w), coin, now) <==> now > WindowEdge(w, coin)
  {
    QuietRuleShape(w);
    QuietHorizonReachesTheEdge(w, coin);
    if now > WindowEdge(w, coin) {
      PastTheEdgeRepeats(w, coin, now);
    } else {
      AtTheEdgeChanges(w, coin);
    }
  }

  lemma QuietHorizon(w: WindowSpec)
    requires w.unit == Sec
    ensures QuietRule(w).horizons == NO_HORIZONS.(window := ClampSecs(w.size + w.lag))
  {
    var m := QuietReq(w);
    assert AbsorbReqs([m]) == AbsorbReq(NO_HORIZONS, m) by {
      assert [m][..0] == [];
    }
    var stages := [StagePlan(None, [], [], None)];
    assert AbsorbDeadlines(AbsorbReqs([m]), stages) == AbsorbReqs([m]) by {
      assert stages[..0] == [];
    }
  }

  const TEN_MINUTES := WindowSpec(600.0, 0.0, Sec)

  /** Created, and traded once, at zero. */
  function OnePrintCoin(): Coin {
    Coin(0, 0, Some(0), Some(0), [TapePrint(0, 0)], 0, Value(40.0),
         (r: MetricRef, fp: Option<nat>) => Undefined,
         (r: MetricRef, fp: Option<nat>, ps: seq<TapePrint>, slice: seq<TapePrint>) => Undefined,
         (m: Metric, p: PositionCtx) => Undefined)
  }

  lemma OnePrintCoinSettles()
    ensures CoinOk(OnePrintCoin()) && OnePrintCoin().lastTradeAt == Some(0)
    ensures SettleUntil(OnePrintCoin(), None, QuietRule(TEN_MINUTES).horizons) == WindowEdge(TEN_MINUTES, OnePrintCoin()) == 600_000
    ensures forall t :: !DeadVerdict(OnePrintCoin(), t)
  {
    QuietHorizon(TEN_MINUTES);
    assert OnePrintCoin().tape[0] in OnePrintCoin().tape;
    assert HorizonMs(0.0) == 0 && HorizonMs(600.0) == 600_000;
  }

  lemma EdgeVerdicts(w: WindowSpec, coin: Coin)
    requires w.unit == Sec && CoinOk(coin) && coin.lastTradeAt.Some?
    ensures Wf(QuietRule(w)) && ReqsOk(QuietRule(w)) && HorizonsDerived(QuietRule(w))
    ensures TickVerdict(QuietRule(w), coin, WindowEdge(w, coin)) == No
    ensures forall t | t > WindowEdge(w, coin) :: TickVerdict(QuietRule(w), coin, t) == Enter
  {
    QuietRuleShape(w);
    AtTheEdgeWaits(w, coin);
    forall t | t > WindowEdge(w, coin)
      ensures TickVerdict(QuietRule(w), coin, t) == Enter
    {
      PastTheEdgeEnters(w, coin, t);
    }
  }

  /** The edge is reached: ten minutes after its only print this coin takes the stamp with a
      No, and every later tick would have bought it. */
  lemma StampAtTheEdgeLosesAnEntry()
    ensures Wf(QuietRule(TEN_MINUTES)) && ReqsOk(QuietRule(TEN_MINUTES)) && HorizonsDerived(QuietRule(TEN_MINUTES))
    ensures CoinOk(OnePrintCoin())
    ensures SettleUntil(OnePrintCoin(), None, QuietRule(TEN_MINUTES).horizons) == WindowEdge(TEN_MINUTES, OnePrintCoin()) == 600_000
    ensures TickVerdict(QuietRule(TEN_MINUTES), OnePrintCoin(), 600_000) == No
    ensures forall t | t > 600_000 ::
              TickVerdict(QuietRule(TEN_MINUTES), OnePrintCoin(), t) == Enter && !DeadVerdict(OnePrintCoin(), t)
  {
    var w, coin := TEN_MINUTES, OnePrintCoin();
    OnePrintCoinSettles();
    EdgeVerdicts(w, coin);
  }

  /** Every rule within the horizons decides for ever as it does at `now`. */
  ghost predicate EveryRuleRepeats(h: Horizons, coin: Coin, now: Ts) {
    forall rule: Rule | Wf(rule) && ReqsOk(rule) && HorizonsDerived(rule) && FitsHorizons(rule) && AtMost(rule.horizons, h) ::
      EntryRepeats(rule, coin, now)
  }

  lemma QuietRuleFits(w: WindowSpec)
    requires w.unit == Sec && SpanFits(Some(w))
    ensures FitsHorizons(QuietRule(w))
  {
    QuietRuleShape(w);
  }

  lemma PastTheWindowEveryRuleRepeats(h: Horizons, coin: Coin, now: Ts)
    requires Bounded(h) && CoinOk(coin) && SettleUntil(coin, None, h) <= now && WindowsEmpty(coin, h, now)
    ensures EveryRuleRepeats(h, coin, now)
  {
    forall rule: Rule, t | Wf(rule) && ReqsOk(rule) && HorizonsDerived(rule) && FitsHorizons(rule) && AtMost(rule.horizons, h) && t >= now
      ensures TickVerdict(rule, coin, t) == TickVerdict(rule, coin, now)
    {
      SettledTicksRepeat(rule, coin, None, h, now, t, None);
    }
  }

  /** Some span within the window horizon is as long, in milliseconds, as the horizon is. */
  lemma LongestSpan(h: Horizons) returns (w: WindowSpec)
    requires Bounded(h) && h.window >= 0.0005
    ensures w.unit == Sec && w.size + w.lag == h.window && SpanFits(Some(w))
    ensures Quantize(w.size) + Quantize(w.lag) == HorizonMs(h.window)
  {
    var ms := h.window * 1000.0;
    if ms == Ceil(ms) as real {
      w := WindowSpec(h.window, 0.0, Sec);
      assert Round(ms) == Ceil(ms) && Round(0.0) == 0;
    } else {
      w := WindowSpec(h.window - 0.0005, 0.0005, Sec);
      assert w.size * 1000.0 == ms - 0.5;
      assert Round(ms - 0.5) == Ceil(ms) - 1 && Round(0.5) == 1;
    }
  }

  lemma AtTheEdgeSomeRuleChanges(h: Horizons, coin: Coin)
    requires Bounded(h) && h.window >= 0.0005 && CoinOk(coin) && coin.lastTradeAt.Some?
    ensures !EveryRuleRepeats(h, coin, Anchor(coin) + HorizonMs(h.window))
  {
    var w := LongestSpan(h);
    QuietRuleShape(w);
    QuietRuleFits(w);
    QuietHorizon(w);
    assert Anchor(coin) + HorizonMs(h.window) == WindowEdge(w, coin);
    AtTheEdgeChanges(w, coin);
  }

  /** One stamp for every loaded rule: with a window among their horizons that milliseconds
      can tell, each rule they cover decides for ever as at the stamp exactly when the stamp
      was taken strictly past the longest window. */
  lemma StampServesEveryRuleIffPastTheWindow(h: Horizons, coin: Coin, now: Ts)
    requires Bounded(h) && h.window >= 0.0005
    requires CoinOk(coin) && coin.lastTradeAt.Some? && SettleUntil(coin, None, h) <= now
    ensures EveryRuleRepeats(h, coin, now) <==> now > Anchor(coin) + HorizonMs(h.window)
  {
    if now > Anchor(coin) + HorizonMs(h.window) {
      PastTheWindowEveryRuleRepeats(h, coin, now);
    } else {
      assert now == Anchor(coin) + HorizonMs(h.window);
      AtTheEdgeSomeRuleChanges(h, coin);
    }
  }

  // ---- the seven-day clamp --------------------------------------------------

  function AgeReq(secs: real): MetricReq {
    MetricReq(MetricRef(AgeSec, None, LIFE), None, 0.5, [[Condition(Gte, secs)]], Column(0))
  }

  function AgeRule(secs: real): Rule {
    EntryRule([OnMetric(AgeReq(secs))], [], [AgeReq(secs)])
  }

  lemma AgeRuleShape(secs: real)
    ensures HorizonsDerived(AgeRule(secs)) && AllReqs(AgeRule(secs)) == [AgeReq(secs)]
  {
    OneReqShape(AgeReq(secs));
  }

  lemma AgeReqHolds(secs: real, coin: Coin, now: Ts)
    ensures ReqHolds(AgeReq(secs), ReadsOf(coin, None), None, now) <==> SecsBetween(coin.createdAt, now) >= secs
  {
    var arm := [Condition(Gte, secs)];
    assert AgeReq(secs).conds == [arm];
    assert arm[0] in arm;
    assert arm in AgeReq(secs).conds;
    var x := SecsBetween(coin.createdAt, now);
    assert ArmHolds(arm, x, 0.5) <==> x >= secs;
  }

  lemma AgeRuleEnters(secs: real, coin: Coin, now: Ts)
    ensures Wf(AgeRule(secs))
    ensures TickVerdict(AgeRule(secs), coin, now) == if SecsBetween(coin.createdAt, now) >= secs then Enter else No
  {
    AgeReqHolds(secs, coin, now);
    OneConditionDecides(AgeReq(secs), coin, now);
  }

  function AgeUntil(secs: real, coin: Coin): Ts {
    SettleUntil(coin, None, AgeRule(secs).horizons)
  }

  /** Every two ticks from `until` on decide alike. */
  ghost predicate SettledFrom(rule: Rule, coin: Coin, until: Ts)
    requires Wf(rule)
  {
    forall s, t | until <= s && until <= t ::
      TickVerdict(rule, coin, s) == TickVerdict(rule, coin, t)
  }

  /** Horizons are clamped to seven days, so the clock may still have to reach the threshold
      when the stamp is taken: an age rule is settled past its horizon exactly when the coin is
      old enough for it there. */
  lemma AgeSettlesIffReached(secs: real, coin: Coin)
    ensures Wf(AgeRule(secs)) && HorizonsDerived(AgeRule(secs))
    ensures SettledFrom(AgeRule(secs), coin, AgeUntil(secs, coin)) <==> secs <= SecsBetween(coin.createdAt, AgeUntil(secs, coin))
  {
    var until := AgeUntil(secs, coin);
    AgeRuleShape(secs);
    AgeRuleEnters(secs, coin, until);
    if secs <= SecsBetween(coin.createdAt, until) {
      forall now | until <= now
        ensures TickVerdict(AgeRule(secs), coin, now) == Enter
      {
        AgeRuleEnters(secs, coin, now);
      }
    } else {
      AgeRuleEnters(secs, coin, coin.createdAt + Ceil(secs * 1000.0));
    }
  }

  lemma AgeUntilIs(secs: real, coin: Coin)
    requires CoinOk(coin)
    ensures AgeUntil(secs, coin) >= coin.createdAt + HorizonMs(AbsReal(secs) + 0.5)
    ensures secs <= MAX_HORIZON_SECS ==> secs <= SecsBetween(coin.createdAt, AgeUntil(secs, coin))
    ensures secs > MAX_HORIZON_SECS && coin.lastTradeAt.None? && coin.lastMeaningfulAt.None? ==> AgeUntil(secs, coin) == coin.createdAt + 604_800_000
  {
    AgeHorizon(secs);
  }

  /** A threshold within the clamp is always reached by then; one past it is not, for a coin
      that never traded. */
  lemma AgeThresholdSettlesIffWithinTheClamp(secs: real, coin: Coin)
    requires CoinOk(coin)
    ensures Wf(AgeRule(secs))
    ensures secs <= MAX_HORIZON_SECS ==> SettledFrom(AgeRule(secs), coin, AgeUntil(secs, coin))
    ensures coin.lastTradeAt.None? && coin.lastMeaningfulAt.None? ==>
              (SettledFrom(AgeRule(secs), coin, AgeUntil(secs, coin)) <==> secs <= MAX_HORIZON_SECS)
  {
    AgeSettlesIffReached(secs, coin);
    AgeUntilIs(secs, coin);
  }

  lemma AgeHorizon(secs: real)
    ensures AgeRule(secs).horizons == NO_HORIZONS.(time := MaxReal(0.0, ClampSecs(AbsReal(secs) + 0.5)))
  {
    var m := AgeReq(secs);
    assert Flatten(m.conds) == [Condition(Gte, secs)];
    assert AbsorbThresholds(NO_HORIZONS, CoinAge, [Condition(Gte, secs)], 0.5) == Extend(NO_HORIZONS, CoinAge, AbsReal(secs) + 0.5) by {
      assert [Condition(Gte, secs)][..0] == [];
    }
    assert AbsorbReqs([m]) == AbsorbReq(NO_HORIZONS, m) by {
      assert [m][..0] == [];
    }
    var stages := [StagePlan(None, [], [], None)];
    assert AbsorbDeadlines(AbsorbReqs([m]), stages) == AbsorbReqs([m]) by {
      assert stages[..0] == [];
    }
  }
}
