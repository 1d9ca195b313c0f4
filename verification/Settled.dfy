/** A quiet coin and the settled-tick skip: past every clock horizon, each later tick takes
    the decision the last one took. */
module Settled {
  import opened Metrics
  import opened Rules
  import opened RuleReqs
  import opened ClockHorizons
  import opened MonoKills

  const DEAD_QUIET_MS: int := 300_000
  const DEAD_MAX_LIQUIDITY_SOL: real := 30.0

  /** One print on the coin's tape; `fact` stands for everything but its time. */
  datatype TapePrint = TapePrint(at: Ts, fact: nat)

  /** A coin between two trades. `still` is every reading that only a trade moves, as a tick
      reads it; `folded` turns the prints inside a span (and its slice) into a windowed
      reading. */
  datatype Coin = Coin(createdAt: Ts, peakAt: Ts, lastTradeAt: Option<Ts>, lastMeaningfulAt: Option<Ts>,
                       tape: seq<TapePrint>, slot: nat, reserves: Reading,
                       still: (MetricRef, Option<nat>) -> Reading,
                       folded: (MetricRef, Option<nat>, seq<TapePrint>, seq<TapePrint>) -> Reading,
                       anchored: (Metric, PositionCtx) -> Reading)

  /** What only the print being read shows: its facts (`FactOfThePrint`) and its wallet. */
  datatype PrintFacts = PrintFacts(value: (MetricRef, Option<nat>) -> Reading, wallet: Option<nat>)

  /** Span bounds are closed: a print exactly as old as the span is still inside it. */
  predicate InSpan(w: WindowSpec, at: Ts, now: Ts) {
    now - Quantize(w.lag) - Quantize(w.size) <= at <= now - Quantize(w.lag)
  }

  /** In whole seconds: a print is inside when it is at least as old as the lag and no older
      than lag and size together. */
  lemma SpanIsAnAge(size: nat, lag: nat, at: Ts, now: Ts)
    ensures InSpan(WindowSpec(size as real, lag as real, Sec), at, now) <==> 1_000 * lag <= now - at <= 1_000 * (lag + size)
  {
    WholeSeconds(size);
    WholeSeconds(lag);
  }

  lemma WholeSeconds(n: nat)
    ensures Quantize(n as real) == 1_000 * n
  {
    assert n as real * 1_000.0 == (1_000 * n) as real;
  }

  function PrintsIn(tape: seq<TapePrint>, w: WindowSpec, now: Ts): (ps: seq<TapePrint>)
    ensures forall p | p in ps :: p in tape && InSpan(w, p.at, now)
    ensures forall p | p in tape && InSpan(w, p.at, now) :: p in ps
  {
    if tape == [] then []
    else (if InSpan(w, tape[0].at, now) then [tape[0]] else []) + PrintsIn(tape[1..], w, now)
  }

  function SpanPrints(tape: seq<TapePrint>, w: Option<WindowSpec>, now: Ts): seq<TapePrint> {
    match w
    case None => []
    case Some(spec) => PrintsIn(tape, spec, now)
  }

  predicate ReadsSecWindow(r: MetricRef) {
    r.span.window.Some? && r.span.window.value.unit == Sec
  }

  /** A slice counts in its window's unit. */
  predicate SpanOk(s: Span) {
    s.slice.Some? ==> s.window.Some? && s.slice.value.unit == s.window.value.unit
  }

  /** A fact of the print as the print shows it, or as a tick reads it: no buyer was just
      added, and the rest is not there. */
  function FactValue(shown: Option<PrintFacts>, r: MetricRef, fp: Option<nat>): Reading {
    if r.metric.BuyerIsNew? && r.span.sinceAge.None? then Undefined
    else
      match shown
      case Some(facts) => facts.value(r, fp)
      case None => if r.metric.BuyerIsNew? then Value(0.0) else Undefined
  }

  /** What a coin reads at `now`: on a print when `shown` is given, else on a tick. */
  function CoinValue(coin: Coin, shown: Option<PrintFacts>, r: MetricRef, fp: Option<nat>, now: Ts): Reading {
    if FactOfThePrint(r.metric) then FactValue(shown, r, fp)
    else if FamilyOf(r.metric) == Position then Undefined
    else if r.metric.AgeSec? then Value(SecsBetween(coin.createdAt, now))
    else if r.metric.StallSec? then Value(MaxReal(SecsBetween(coin.peakAt, now), 0.0))
    else if ReadsSecWindow(r) then
      if r.metric.TradeCount? && r.tag.None? then Value(|SpanPrints(coin.tape, r.span.window, now)| as real)
      else coin.folded(r, fp, SpanPrints(coin.tape, r.span.window, now), SpanPrints(coin.tape, r.span.slice, now))
    else
      coin.still(r, fp)
  }

  function ReadsOf(coin: Coin, shown: Option<PrintFacts>): Reads {
    Reads((r: MetricRef, fp: Option<nat>, now: Ts) => CoinValue(coin, shown, r, fp, now),
          coin.anchored,
          (now: Ts) => SecsBetween(coin.createdAt, now),
          coin.slot,
          if shown.Some? then shown.value.wallet else None)
  }

  /** The newest trade, or the creation of a coin that never traded. */
  function Anchor(coin: Coin): Ts {
    if coin.lastTradeAt.Some? then coin.lastTradeAt.value else coin.createdAt
  }

  predicate CoinOk(coin: Coin) {
    && coin.createdAt <= Anchor(coin) && coin.peakAt <= Anchor(coin)
    && (forall p | p in coin.tape :: p.at <= Anchor(coin))
    && (coin.lastTradeAt.Some? ==> exists p | p in coin.tape :: p.at == coin.lastTradeAt.value)
  }

  /** The newest trade above dust, or the creation of a coin that had none. */
  function LastMeaningful(coin: Coin): Ts {
    if coin.lastMeaningfulAt.Some? then coin.lastMeaningfulAt.value else coin.createdAt
  }

  predicate DeadVerdict(coin: Coin, now: Ts) {
    && coin.reserves.Value? && coin.reserves.v < DEAD_MAX_LIQUIDITY_SOL
    && now - LastMeaningful(coin) >= DEAD_QUIET_MS
  }

  /** Dead is below thirty SOL with no meaningful trade for five minutes, and no horizon ends
      before those five minutes do. */
  lemma DeadMeans(coin: Coin, now: Ts, held: Option<Entered>, h: Horizons)
    ensures DeadVerdict(coin, now)
            <==> coin.reserves.Value? && coin.reserves.v < 30.0 && now - LastMeaningful(coin) >= 300_000
    ensures SettleUntil(coin, held, h) - LastMeaningful(coin) >= 300_000
  {
  }

  /** The last instant at which anything about the coin can still change on its own. */
  function SettleUntil(coin: Coin, held: Option<Entered>, h: Horizons): Ts {
    var anchor := Anchor(coin);
    var coinSide := MaxInt(MaxInt(MaxInt(anchor + HorizonMs(h.window), coin.createdAt + HorizonMs(h.time)), anchor + HorizonMs(h.stall)),
                           LastMeaningful(coin) + DEAD_QUIET_MS);
    match held
    case None => coinSide
    case Some(e) => MaxInt(coinSide, MaxInt(e.enteredAt + HorizonMs(h.held), e.stageSince + HorizonMs(h.stage)))
  }

  /** Every print has left every window. */
  predicate WindowsEmpty(coin: Coin, h: Horizons, now: Ts) {
    now > Anchor(coin) + HorizonMs(h.window)
  }

  predicate ReadsWindows(rule: Rule) {
    exists m | m in AllReqs(rule) :: ReadsSecWindow(m.r)
  }

  /** Past every horizon; strictly past the window's when the rule reads one. */
  predicate PastHorizon(rule: Rule, coin: Coin, held: Option<Entered>, h: Horizons, now: Ts) {
    SettleUntil(coin, held, h) <= now && (ReadsWindows(rule) ==> WindowsEmpty(coin, h, now))
  }

  // ---- one condition --------------------------------------------------------

  lemma ClockPassed(secs: real, from: Ts, now: Ts)
    requires 0.0 <= secs <= MAX_HORIZON_SECS
    requires from + HorizonMs(secs) <= now
    ensures secs <= SecsBetween(from, now)
  {
  }

  lemma ThresholdsPassed(conds: ConditionExpr, x: real, y: real, tol: real)
    requires tol > 0.0
    requires forall c | c in Flatten(conds) :: AbsReal(c.value) + tol <= x && AbsReal(c.value) + tol <= y
    ensures Eval(conds, Value(x), tol) == Eval(conds, Value(y), tol)
    ensures forall arm, c | arm in conds && c in arm :: EvalFinite(c, x, tol) == EvalFinite(c, y, tol)
  {
  }

  lemma {:induction false} NothingInSpan(tape: seq<TapePrint>, w: WindowSpec, newest: Ts, now: Ts)
    requires forall p | p in tape :: p.at <= newest
    requires now > newest + Quantize(w.size) + Quantize(w.lag)
    ensures PrintsIn(tape, w, now) == []
  {
    if tape != [] {
      NothingInSpan(tape[1..], w, newest, now);
      assert tape[0] in tape;
    }
  }

  /** The `=` band is the metric's own, and a slice has its window. */
  predicate ReqOk(m: MetricReq) {
    && m.tolerance == EqTolerance(m.r.metric)
    && SpanOk(m.r.span)
  }

  predicate ReqsOk(rule: Rule) {
    forall m | m in AllReqs(rule) :: ReqOk(m)
  }

  lemma CoinReadSettles(coin: Coin, m: MetricReq, h: Horizons, s: Ts, t: Ts)
    requires CoinOk(coin) && Bounded(h) && CoversReq(h, m) && ReqOk(m)
    requires SettleUntil(coin, None, h) <= s && SettleUntil(coin, None, h) <= t
    requires ReadsSecWindow(m.r) ==> WindowsEmpty(coin, h, s) && WindowsEmpty(coin, h, t)
    ensures var x, y := CoinValue(coin, None, m.r, m.fingerprint, s), CoinValue(coin, None, m.r, m.fingerprint, t);
            Eval(m.conds, x, m.tolerance) == Eval(m.conds, y, m.tolerance) && (ClockOf(m.r.metric).None? ==> x == y)
  {
    if m.r.metric.AgeSec? {
      ClockPassed(h.time, coin.createdAt, s);
      ClockPassed(h.time, coin.createdAt, t);
      ThresholdsPassed(m.conds, SecsBetween(coin.createdAt, s), SecsBetween(coin.createdAt, t), m.tolerance);
    } else if m.r.metric.StallSec? {
      ClockPassed(h.stall, coin.peakAt, s);
      ClockPassed(h.stall, coin.peakAt, t);
      ThresholdsPassed(m.conds, MaxReal(SecsBetween(coin.peakAt, s), 0.0), MaxReal(SecsBetween(coin.peakAt, t), 0.0), m.tolerance);
    } else if ReadsSecWindow(m.r) {
      WindowReadSettles(coin, m.r, h, s);
      WindowReadSettles(coin, m.r, h, t);
    }
  }

  lemma WindowReadSettles(coin: Coin, r: MetricRef, h: Horizons, now: Ts)
    requires CoinOk(coin) && SpanOk(r.span) && ReadsSecWindow(r)
    requires SpanWithin(h, r.span.window) && SpanWithin(h, r.span.slice)
    requires WindowsEmpty(coin, h, now)
    ensures SpanPrints(coin.tape, r.span.window, now) == [] && SpanPrints(coin.tape, r.span.slice, now) == []
  {
    NothingInSpan(coin.tape, r.span.window.value, Anchor(coin), now);
    if r.span.slice.Some? {
      NothingInSpan(coin.tape, r.span.slice.value, Anchor(coin), now);
    }
  }

  lemma PositionReadSettles(coin: Coin, m: MetricReq, e: Entered, h: Horizons, s: Ts, t: Ts)
    requires Bounded(h) && CoversReq(h, m) && ReqOk(m)
    requires SettleUntil(coin, Some(e), h) <= s && SettleUntil(coin, Some(e), h) <= t
    ensures var x, y := PositionValue(m.r.metric, Ctx(e), ReadsOf(coin, None), s), PositionValue(m.r.metric, Ctx(e), ReadsOf(coin, None), t);
            Eval(m.conds, x, m.tolerance) == Eval(m.conds, y, m.tolerance) && (ClockOf(m.r.metric).None? ==> x == y)
  {
    if m.r.metric.HeldSec? {
      ClockPassed(h.held, e.enteredAt, s);
      ClockPassed(h.held, e.enteredAt, t);
      ThresholdsPassed(m.conds, HeldFor(Ctx(e), s), HeldFor(Ctx(e), t), m.tolerance);
    } else if m.r.metric.StageSec? {
      ClockPassed(h.stage, e.stageSince, s);
      ClockPassed(h.stage, e.stageSince, t);
      ThresholdsPassed(m.conds, InStageFor(Ctx(e), s), InStageFor(Ctx(e), t), m.tolerance);
    }
  }

  function TickView(coin: Coin, held: Option<Entered>, now: Ts): View {
    View(ReadsOf(coin, None), if held.Some? then Some(Ctx(held.value)) else None, now)
  }

  lemma TicksAgree(rule: Rule, coin: Coin, held: Option<Entered>, h: Horizons, s: Ts, t: Ts)
    requires ReqsOk(rule) && CoinOk(coin) && Bounded(h) && Covers(h, rule)
    requires PastHorizon(rule, coin, held, h, s) && PastHorizon(rule, coin, held, h, t)
    ensures ReqsAgree(rule, TickView(coin, held, s), TickView(coin, held, t))
  {
    forall m | m in AllReqs(rule)
      ensures ReqAgrees(m, TickView(coin, held, s), TickView(coin, held, t))
    {
      if m.readId.PositionRead? {
        if held.Some? {
          PositionReadSettles(coin, m, held.value, h, s, t);
        }
      } else {
        CoinReadSettles(coin, m, h, s, t);
      }
    }
  }

  lemma DeadlinesSettle(rule: Rule, coin: Coin, e: Entered, h: Horizons, s: Ts, t: Ts)
    requires Bounded(h) && Covers(h, rule)
    requires SettleUntil(coin, Some(e), h) <= s && SettleUntil(coin, Some(e), h) <= t
    ensures forall p | p in rule.stages ::
              DeadlineReached(p, ReadsOf(coin, None), Ctx(e), s) == DeadlineReached(p, ReadsOf(coin, None), Ctx(e), t)
  {
    forall p | p in rule.stages
      ensures DeadlineReached(p, ReadsOf(coin, None), Ctx(e), s) == DeadlineReached(p, ReadsOf(coin, None), Ctx(e), t)
    {
      assert CoversDeadline(h, p);
      forall now | now == s || now == t
        ensures p.ends.Some? ==> DeadlineReached(p, ReadsOf(coin, None), Ctx(e), now)
      {
        ClockPassed(h.time, coin.createdAt, now);
        ClockPassed(h.held, e.enteredAt, now);
        ClockPassed(h.stage, e.stageSince, now);
      }
    }
  }

  // ---- the skip -------------------------------------------------------------

  /** Settled ticks are safe to skip: with no trade, two ticks past the horizons decide the
      same entry, the same held step and the same dead verdict, for any horizons that cover
      the rule (its own, or the union over every loaded rule). */
  lemma SettledTicksRepeat(rule: Rule, coin: Coin, held: Option<Entered>, h: Horizons, s: Ts, t: Ts,
                           lockedSlot: Option<nat>)
    requires Wf(rule) && ReqsOk(rule) && HorizonsDerived(rule) && FitsHorizons(rule)
    requires CoinOk(coin) && Bounded(h) && AtMost(rule.horizons, h)
    requires PastHorizon(rule, coin, held, h, s) && PastHorizon(rule, coin, held, h, t)
    ensures var coinReads := ReadsOf(coin, None);
            && TryEnter(rule, coinReads, s, lockedSlot, false) == TryEnter(rule, coinReads, t, lockedSlot, false)
            && CanEnter(rule, coinReads, s) == CanEnter(rule, coinReads, t)
            && (held.Some? ==> HeldStepAction(rule, coinReads, held.value, s) == HeldStepAction(rule, coinReads, held.value, t))
            && DeadVerdict(coin, s) == DeadVerdict(coin, t)
  {
    CompiledHorizonsCover(rule, h);
    var a, b := TickView(coin, held, s), TickView(coin, held, t);
    TicksAgree(rule, coin, held, h, s, t);
    EntryAgrees(rule, a, b, lockedSlot, false);
    if held.Some? {
      DeadlinesSettle(rule, coin, held.value, h, s, t);
      HeldAgrees(rule, held.value, a, b);
    }
  }

  /** One settled stamp serves every loaded rule: past the union of their horizons, any of
      them decides alike on every later tick. */
  lemma OneStampServesEveryRule(hs: seq<Horizons>, i: nat, rule: Rule, coin: Coin, held: Option<Entered>, s: Ts,
                                t: Ts, lockedSlot: Option<nat>)
    requires i < |hs| && hs[i] == rule.horizons && forall h | h in hs :: Bounded(h)
    requires Wf(rule) && ReqsOk(rule) && HorizonsDerived(rule) && FitsHorizons(rule) && CoinOk(coin)
    requires PastHorizon(rule, coin, held, UnionOf(hs), s) && PastHorizon(rule, coin, held, UnionOf(hs), t)
    ensures var coinReads := ReadsOf(coin, None);
            && TryEnter(rule, coinReads, s, lockedSlot, false) == TryEnter(rule, coinReads, t, lockedSlot, false)
            && (held.Some? ==> HeldStepAction(rule, coinReads, held.value, s) == HeldStepAction(rule, coinReads, held.value, t))
  {
    UnionReachesEach(hs, i);
    SettledTicksRepeat(rule, coin, held, UnionOf(hs), s, t, lockedSlot);
  }

  lemma CrossedAlike(m: MetricReq, x: real, y: real)
    requires m.tolerance > 0.0
    requires forall c | c in Flatten(m.conds) :: AbsReal(c.value) + m.tolerance <= x && AbsReal(c.value) + m.tolerance <= y
    ensures PermanentlyFalse(KillOf(m), Value(x)) == PermanentlyFalse(KillOf(m), Value(y))
  {
    KillIsExact(m, x);
    KillIsExact(m, y);
    forall arm, c | arm in m.conds && c in arm
      ensures DeadFrom(c, x, m.tolerance) == DeadFrom(c, y, m.tolerance)
    {
      assert c in Flatten(m.conds);
      ConditionDiesAtItsUpper(c, x, m.tolerance);
      ConditionDiesAtItsUpper(c, y, m.tolerance);
    }
  }

  lemma KillReadSettles(coin: Coin, m: MetricReq, h: Horizons, s: Ts, t: Ts)
    requires CoinOk(coin) && Bounded(h) && CoversReq(h, m) && ReqOk(m) && IsMonotonic(m.r) && m.readId.Column?
    requires SettleUntil(coin, None, h) <= s && SettleUntil(coin, None, h) <= t
    ensures var coinReads := ReadsOf(coin, None);
            PermanentlyFalse(KillOf(m), ReadReq(m, coinReads, None, s)) == PermanentlyFalse(KillOf(m), ReadReq(m, coinReads, None, t))
  {
    if m.r.metric.AgeSec? {
      ClockPassed(h.time, coin.createdAt, s);
      ClockPassed(h.time, coin.createdAt, t);
      CrossedAlike(m, SecsBetween(coin.createdAt, s), SecsBetween(coin.createdAt, t));
    } else {
      CoinReadSettles(coin, m, h, s, t);
    }
  }

  /** The derived disarm settles with the rest: what is not crossed by then never is. */
  lemma SettledTicksDisarmAlike(rule: Rule, coin: Coin, h: Horizons, s: Ts, t: Ts)
    requires KillsDerived(rule) && ReqsOk(rule) && HorizonsDerived(rule) && FitsHorizons(rule)
    requires CoinOk(coin) && Bounded(h) && AtMost(rule.horizons, h)
    requires SettleUntil(coin, None, h) <= s && SettleUntil(coin, None, h) <= t
    ensures EntryUnsatisfiable(rule, ReadsOf(coin, None), s) == EntryUnsatisfiable(rule, ReadsOf(coin, None), t)
  {
    CompiledHorizonsCover(rule, h);
    AllReqsMissesNothing(rule);
    var coinReads := ReadsOf(coin, None);
    forall k | k in rule.monoKills
      ensures BindingBound(k, ReadReq(k.req, coinReads, None, s)) == BindingBound(k, ReadReq(k.req, coinReads, None, t))
    {
      DerivedKillsAre(EntryConds(rule), k);
      var c :| c in EntryConds(rule) && Kills(c) && k == KillOf(c.m);
      assert c == OnMetric(c.m);
      assert c.m in AllReqs(rule);
      if c.m.readId.Column? {
        KillReadSettles(coin, c.m, h, s, t);
      }
    }
    FirstBindingAlike(rule.monoKills, coinReads, s, t);
  }

  lemma {:induction false} FirstBindingAlike(kills: seq<MonoKill>, coin: Reads, s: Ts, t: Ts)
    requires forall k | k in kills :: BindingBound(k, ReadReq(k.req, coin, None, s)) == BindingBound(k, ReadReq(k.req, coin, None, t))
    ensures FirstBinding(kills, coin, s) == FirstBinding(kills, coin, t)
  {
    if kills != [] {
      assert kills[0] in kills;
      FirstBindingAlike(kills[1..], coin, s, t);
    }
  }

  // ---- stamping on a print --------------------------------------------------

  /** The condition's verdict on the print is its verdict on a tick; the share a sell copies
      has to be the same reading. */
  predicate SameFact(m: MetricReq, facts: PrintFacts) {
    var onPrint, onTick := FactValue(Some(facts), m.r, m.fingerprint), FactValue(None, m.r, m.fingerprint);
    && Eval(m.conds, onPrint, m.tolerance) == Eval(m.conds, onTick, m.tolerance)
    && (m.r.metric.SoldBagPct? ==> onPrint == onTick)
  }

  /** No condition of the rule tells this print from a tick. */
  predicate PrintAddsNothing(rule: Rule, facts: PrintFacts) {
    forall m | m in AllReqs(rule) && FactOfThePrint(m.r.metric) && m.readId.Column? :: SameFact(m, facts)
  }

  /** Nothing in the rule reads the print itself. */
  predicate NoPrintFacts(rule: Rule) {
    forall m | m in AllReqs(rule) :: !FactOfThePrint(m.r.metric)
  }

  lemma PrintReadAgrees(m: MetricReq, coin: Coin, facts: PrintFacts, pos: Option<PositionCtx>, now: Ts)
    requires m.readId.Column? && FactOfThePrint(m.r.metric) ==> SameFact(m, facts)
    ensures ReqAgrees(m, View(ReadsOf(coin, Some(facts)), pos, now), View(ReadsOf(coin, None), pos, now))
  {
    if m.readId.PositionRead? {
      assert ReadsOf(coin, Some(facts)).anchored == ReadsOf(coin, None).anchored;
    } else if !FactOfThePrint(m.r.metric) {
      assert CoinValue(coin, Some(facts), m.r, m.fingerprint, now) == CoinValue(coin, None, m.r, m.fingerprint, now);
    }
  }

  lemma PrintReadsAgree(rule: Rule, coin: Coin, facts: PrintFacts, pos: Option<PositionCtx>, now: Ts)
    requires PrintAddsNothing(rule, facts)
    ensures ReqsAgree(rule, View(ReadsOf(coin, Some(facts)), pos, now), View(ReadsOf(coin, None), pos, now))
  {
    forall m | m in AllReqs(rule)
      ensures ReqAgrees(m, View(ReadsOf(coin, Some(facts)), pos, now), View(ReadsOf(coin, None), pos, now))
    {
      PrintReadAgrees(m, coin, facts, pos, now);
    }
  }

  /** A verdict stamped on a print also repeats on every later tick, when the print shows the
      rule nothing a tick would not. A token lock never tries on a tick at all. */
  lemma SettledPrintRepeats(rule: Rule, coin: Coin, held: Option<Entered>, facts: PrintFacts, h: Horizons, s: Ts, t: Ts,
                            lockedSlot: Option<nat>)
    requires Wf(rule) && ReqsOk(rule) && HorizonsDerived(rule) && FitsHorizons(rule)
    requires NoPrintFacts(rule) || PrintAddsNothing(rule, facts)
    requires CoinOk(coin) && Bounded(h) && AtMost(rule.horizons, h)
    requires PastHorizon(rule, coin, held, h, s) && PastHorizon(rule, coin, held, h, t)
    ensures var shown, tick := ReadsOf(coin, Some(facts)), ReadsOf(coin, None);
            && TryEnter(rule, tick, t, lockedSlot, false)
               == (if rule.entryLock.LockToken? then No else TryEnter(rule, shown, s, lockedSlot, true))
            && CanEnter(rule, shown, s) == CanEnter(rule, tick, t)
            && (held.Some? && !rule.followBought ==> HeldStepAction(rule, shown, held.value, s) == HeldStepAction(rule, tick, held.value, t))
  {
    SettledTicksRepeat(rule, coin, held, h, s, t, lockedSlot);
    var pos := if held.Some? then Some(Ctx(held.value)) else None;
    var a, b := View(ReadsOf(coin, Some(facts)), pos, s), View(ReadsOf(coin, None), pos, s);
    PrintReadsAgree(rule, coin, facts, pos, s);
    EntryAgrees(rule, a, b, lockedSlot, true);
    if held.Some? && !rule.followBought {
      HeldAgrees(rule, held.value, a, b);
    }
  }
}
