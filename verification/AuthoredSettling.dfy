/** The settled skip, for the rule a person writes: what its text must satisfy for the
    compiled rule to settle, and the decisions that then repeat, told by name. */
module AuthoredSettling {
  import opened Metrics
  import opened Rules
  import opened RuleReqs
  import opened ClockHorizons
  import opened Settled
  import opened Compile
  import opened Interning
  import opened CompileMeaning
  import opened AuthoredDecisions

  /** A slice counts in its window's unit, both survive the rounding to milliseconds, and no
      clock threshold is past seven days. */
  predicate RefSettles(r: MetricRef, expr: ConditionExpr) {
    && SpanOk(r.span) && SpanFits(r.span.window) && SpanFits(r.span.slice)
    && (ClockOf(r.metric).Some? ==> forall c | c in Flatten(expr) :: AbsReal(c.value) + EqTolerance(r.metric) <= MAX_HORIZON_SECS)
  }

  predicate ListSettles(cs: seq<Cond>) {
    forall c | c in cs && c.MetricCond? && !c.off :: RefSettles(c.r, c.expr)
  }

  predicate DeadlineSettles(s: Stage) {
    s.ends.Some? ==> s.ends.value.1 + 0.5 <= MAX_HORIZON_SECS
  }

  /** Every live condition and every deadline of the authored rule can be waited for. */
  predicate AuthoredSettles(p: Params) {
    && (forall cs | cs in ListsOf(p) :: ListSettles(cs))
    && (forall s | s in p.stages :: DeadlineSettles(s))
  }

  /** A span in seconds written in whole milliseconds, up to seven days. */
  predicate WholeMilliseconds(w: Option<WindowSpec>) {
    w.Some? && w.value.unit == Sec ==>
      && w.value.size * 1000.0 == Round(w.value.size * 1000.0) as real
      && w.value.lag * 1000.0 == Round(w.value.lag * 1000.0) as real
      && w.value.size + w.value.lag <= MAX_HORIZON_SECS
  }

  /** Any condition so written, on a metric no clock moves or with thresholds within seven
      days, can be waited for. */
  lemma WrittenConditionSettles(r: MetricRef, expr: ConditionExpr)
    requires SpanOk(r.span) && WholeMilliseconds(r.span.window) && WholeMilliseconds(r.span.slice)
    requires ClockOf(r.metric).Some? ==> forall c | c in Flatten(expr) :: AbsReal(c.value) + EqTolerance(r.metric) <= MAX_HORIZON_SECS
    ensures RefSettles(r, expr)
  {
    forall w: Option<WindowSpec> | WholeMilliseconds(w) && w.Some? && w.value.unit == Sec
      ensures SpanFits(w)
    {
      WholeMillisecondSpansFit(w.value, Round(w.value.size * 1000.0), Round(w.value.lag * 1000.0));
    }
  }

  predicate ReqSettles(m: MetricReq) {
    SpanOk(m.r.span) && Unclamped(m) && SpanFits(m.r.span.window) && SpanFits(m.r.span.slice)
  }

  lemma CompiledCondSettles(env: Env, cols: seq<SeriesColumn>, r: MetricRef, expr: ConditionExpr)
    ensures ReqSettles(ReqAt(env, cols, r, expr)) <==> RefSettles(r, expr)
  {
  }

  lemma ListedReqSettles(env: Env, cols: seq<SeriesColumn>, lists: seq<seq<Cond>>, m: MetricReq)
    requires (forall cs | cs in lists :: ListSettles(cs)) && FromLists(env, cols, lists, m)
    ensures ReqSettles(m)
  {
    var cs :| cs in lists && FromList(env, cols, cs, m);
    var c :| c in cs && c.MetricCond? && !c.off && m == ReqAt(env, cols, c.r, c.expr);
    CompiledCondSettles(env, cols, c.r, c.expr);
  }

  lemma ShortcutSettles(env: Env, p: Params, m: MetricReq)
    requires ShortcutReq(env, p, m)
    ensures ReqSettles(m)
  {
    ShortcutsReadOurPosition(env, p, m);
  }

  lemma ListedCondSettles(env: Env, cols: seq<SeriesColumn>, lists: seq<seq<Cond>>, cs: seq<Cond>, c: Cond)
    requires cs in lists && c in cs && c.MetricCond? && !c.off
    requires forall m | FromLists(env, cols, lists, m) :: ReqSettles(m)
    ensures RefSettles(c.r, c.expr)
  {
    var m := ReqAt(env, cols, c.r, c.expr);
    assert FromList(env, cols, cs, m);
    assert FromLists(env, cols, lists, m);
    CompiledCondSettles(env, cols, c.r, c.expr);
  }

  lemma CompiledReqsSettle(env: Env, p: Params)
    ensures (forall m | m in AllReqs(Compiled(env, p)) :: ReqSettles(m)) <==> (forall cs | cs in ListsOf(p) :: ListSettles(cs))
  {
    var rule, cols, lists := Compiled(env, p), FinalColumns(env, p), ListsOf(p);
    forall m
      ensures m in AllReqs(rule) <==> ShortcutReq(env, p, m) || FromLists(env, cols, lists, m)
      ensures ShortcutReq(env, p, m) ==> ReqSettles(m)
    {
      CompiledReqsAreTheLiveOnes(env, p, m);
      if ShortcutReq(env, p, m) {
        ShortcutSettles(env, p, m);
      }
    }
    if forall cs | cs in lists :: ListSettles(cs) {
      forall m | FromLists(env, cols, lists, m)
        ensures ReqSettles(m)
      {
        ListedReqSettles(env, cols, lists, m);
      }
    } else if forall m | m in AllReqs(rule) :: ReqSettles(m) {
      forall cs, c | cs in lists && c in cs && c.MetricCond? && !c.off
        ensures RefSettles(c.r, c.expr)
      {
        ListedCondSettles(env, cols, lists, cs, c);
      }
    }
  }

  predicate PlanSettles(s: StagePlan) {
    s.ends.Some? ==> s.ends.value.1 + 0.5 <= MAX_HORIZON_SECS
  }

  lemma CompiledDeadlinesSettle(env: Env, p: Params)
    ensures (forall s | s in Compiled(env, p).stages :: PlanSettles(s)) <==> (forall s | s in p.stages :: DeadlineSettles(s))
  {
    var plans, cols, first := Compiled(env, p).stages, FinalColumns(env, p), FirstStageLine(env, p);
    if p.stages != [] {
      StagesAtLength(env, cols, first, p.stages);
      forall i | 0 <= i < |p.stages|
        ensures plans[i].ends == p.stages[i].ends
      {
        StagesAtAre(env, cols, first, p.stages, i);
      }
      forall s | s in p.stages && (forall q | q in plans :: PlanSettles(q))
        ensures DeadlineSettles(s)
      {
        var i :| 0 <= i < |p.stages| && p.stages[i] == s;
        assert plans[i] in plans;
      }
      forall q | q in plans && (forall s | s in p.stages :: DeadlineSettles(s))
        ensures PlanSettles(q)
      {
        var i :| 0 <= i < |plans| && plans[i] == q;
        assert p.stages[i] in p.stages;
      }
    }
  }

  /** A validated rule compiles to one the settled skip applies to exactly when its own text
      can be waited for. */
  lemma CompiledSettlesIffAuthoredDoes(env: Env, p: Params)
    requires Named(env, p)
    ensures ReqsOk(Compiled(env, p)) && FitsHorizons(Compiled(env, p)) <==> AuthoredSettles(p)
  {
    var rule := Compiled(env, p);
    TolerancesAreTheMetrics(env, p);
    CompiledReqsSettle(env, p);
    CompiledDeadlinesSettle(env, p);
    assert ReqsOk(rule) && FitsHorizons(rule)
      <==> (forall m | m in AllReqs(rule) :: ReqSettles(m)) && (forall s | s in rule.stages :: PlanSettles(s)) by {
      forall m | m in AllReqs(rule)
        ensures ReqOk(m) <==> SpanOk(m.r.span)
      {
      }
    }
  }

  /** A validated rule whose text can be waited for settles: with no trade, two ticks past the
      horizons answer its entry block alike and do the same with a held position. */
  lemma AuthoredRuleSettles(env: Env, p: Params, coin: Coin, held: Option<Entered>, h: Horizons, s: Ts, t: Ts)
    requires Named(env, p) && AuthoredSettles(p)
    requires CoinOk(coin) && Bounded(h) && AtMost(Compiled(env, p).horizons, h)
    requires PastHorizon(Compiled(env, p), coin, held, h, s) && PastHorizon(Compiled(env, p), coin, held, h, t)
    ensures AuthoredEntry(env, p, TickView(coin, None, s)) == AuthoredEntry(env, p, TickView(coin, None, t))
    ensures Wf(Compiled(env, p))
    ensures held.Some? ==>
              HeldStepAction(Compiled(env, p), ReadsOf(coin, None), held.value, s)
              == HeldStepAction(Compiled(env, p), ReadsOf(coin, None), held.value, t)
  {
    var a, b := TickView(coin, None, s), TickView(coin, None, t);
    CompiledRuleIsWellFormed(env, p, a);
    CompiledSettlesIffAuthoredDoes(env, p);
    SettledTicksRepeat(Compiled(env, p), coin, held, h, s, t, None);
    CompiledEntryIsTheAuthoredOne(env, p, a);
    CompiledEntryIsTheAuthoredOne(env, p, b);
  }
}
