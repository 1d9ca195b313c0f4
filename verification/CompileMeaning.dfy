/** Compiling preserves meaning: what the authored rule says, judged by name and without
    columns or indices, is what the compiled rule decides. */
module CompileMeaning {
  import opened Metrics
  import opened Rules
  import opened RuleReqs
  import opened MonoKills
  import opened ClockHorizons
  import opened Compile
  import opened Interning

  // ---- what an authored condition means -------------------------------------

  function RefReads(fp: nat, r: MetricRef, v: View): Reading {
    if IsPosition(r) then
      match v.pos
      case None => Undefined
      case Some(p) => PositionValue(r.metric, p, v.coin, v.now)
    else
      v.coin.value(r, if IsFingerprintScoped(r) then Some(fp) else None, v.now)
  }

  predicate MetricMeans(fp: nat, r: MetricRef, expr: ConditionExpr, v: View) {
    Eval(expr, RefReads(fp, r, v), EqTolerance(r.metric))
  }

  /** A group with nothing switched on never holds. */
  predicate GroupMeans(fp: nat, g: seq<Cond>, v: View) {
    && (exists c | c in g :: !c.off && c.MetricCond?)
    && (forall c | c in g && !c.off && c.MetricCond? :: MetricMeans(fp, c.r, c.expr, v))
  }

  predicate SignalMeans(fp: nat, groups: seq<seq<Cond>>, v: View) {
    exists g | g in groups :: GroupMeans(fp, g, v)
  }

  predicate CondMeans(env: Env, c: Cond, v: View)
    requires CondNamed(env, c)
  {
    match c
    case MetricCond(r, expr, _) => MetricMeans(env.fp, r, expr, v)
    case SignalCond(name, negated, _) => SignalMeans(env.fp, env.signals[FirstIndex(SignalNames(env.signals), name)].groups, v) != negated
  }

  /** Every condition that is switched on holds. */
  predicate ListMeans(env: Env, cs: seq<Cond>, v: View)
    requires CondsNamed(env, cs)
  {
    forall c | c in cs && !c.off :: CondMeans(env, c, v)
  }

  // ---- conditions keep their meaning ----------------------------------------

  lemma {:induction false} CondsAtAre(env: Env, cols: seq<SeriesColumn>, cs: seq<Cond>, o: CondReq)
    ensures o in CondsAt(env, cols, cs) <==> exists c | c in cs :: !c.off && o == CondAt(env, cols, c)
  {
    if cs != [] {
      var n := |cs| - 1;
      CondsAtAre(env, cols, cs[..n], o);
      assert cs == cs[..n] + [cs[n]];
    }
  }

  predicate OneOfGroups(env: Env, cols: seq<SeriesColumn>, groups: seq<seq<Cond>>, o: seq<MetricReq>) {
    exists g | g in groups :: o == ReqsOf(CondsAt(env, cols, g))
  }

  lemma {:induction false} GroupsAtAre(env: Env, cols: seq<SeriesColumn>, groups: seq<seq<Cond>>, o: seq<MetricReq>)
    ensures o in GroupsAt(env, cols, groups) <==> o != [] && OneOfGroups(env, cols, groups, o)
  {
    if groups != [] {
      var n := |groups| - 1;
      var before, last := GroupsAt(env, cols, groups[..n]), ReqsOf(CondsAt(env, cols, groups[n]));
      GroupsAtAre(env, cols, groups[..n], o);
      assert groups == groups[..n] + [groups[n]];
      if last == [] {
        assert GroupsAt(env, cols, groups) == before + [];
        assert before + [] == before;
      } else {
        assert GroupsAt(env, cols, groups) == before + [last];
      }
    }
  }

  lemma {:induction false} SignalsAtAre(env: Env, cols: seq<SeriesColumn>, signals: seq<SignalDef>)
    ensures |SignalsAt(env, cols, signals)| == |signals|
    ensures forall i | 0 <= i < |signals| :: SignalsAt(env, cols, signals)[i] == GroupsAt(env, cols, signals[i].groups)
  {
    if signals != [] {
      SignalsAtAre(env, cols, signals[..|signals| - 1]);
    }
  }

  lemma MetricKeepsItsMeaning(env: Env, cols: seq<SeriesColumn>, r: MetricRef, expr: ConditionExpr, v: View)
    ensures ReqHolds(ReqAt(env, cols, r, expr), v.coin, v.pos, v.now) <==> MetricMeans(env.fp, r, expr, v)
  {
  }

  lemma GroupKeepsItsMeaning(env: Env, cols: seq<SeriesColumn>, g: seq<Cond>, v: View)
    ensures var o := ReqsOf(CondsAt(env, cols, g));
            (o != [] && forall m | m in o :: ReqHolds(m, v.coin, v.pos, v.now)) <==> GroupMeans(env.fp, g, v)
  {
    var o := ReqsOf(CondsAt(env, cols, g));
    forall c | c in g && !c.off && c.MetricCond?
      ensures ReqAt(env, cols, c.r, c.expr) in o
      ensures ReqHolds(ReqAt(env, cols, c.r, c.expr), v.coin, v.pos, v.now) <==> MetricMeans(env.fp, c.r, c.expr, v)
    {
      CondsComeFrom(env, cols, g, ReqAt(env, cols, c.r, c.expr));
    }
    forall m | m in o
      ensures exists c | c in g :: c.MetricCond? && !c.off && m == ReqAt(env, cols, c.r, c.expr)
    {
      CondsComeFrom(env, cols, g, m);
    }
    if o != [] {
      assert o[0] in o;
    }
  }

  lemma SignalKeepsItsMeaning(env: Env, cols: seq<SeriesColumn>, groups: seq<seq<Cond>>, v: View)
    ensures SignalHolds(GroupsAt(env, cols, groups), v.coin, v.pos, v.now) <==> SignalMeans(env.fp, groups, v)
  {
    var signal := GroupsAt(env, cols, groups);
    if SignalHolds(signal, v.coin, v.pos, v.now) {
      var o :| o in signal && forall m | m in o :: ReqHolds(m, v.coin, v.pos, v.now);
      GroupsAtAre(env, cols, groups, o);
      var g :| g in groups && o == ReqsOf(CondsAt(env, cols, g));
      GroupKeepsItsMeaning(env, cols, g, v);
    }
    if SignalMeans(env.fp, groups, v) {
      var g :| g in groups && GroupMeans(env.fp, g, v);
      GroupKeepsItsMeaning(env, cols, g, v);
      GroupsAtAre(env, cols, groups, ReqsOf(CondsAt(env, cols, g)));
    }
  }

  /** A rule whose signals are the authored ones under some column list. */
  predicate SignalsFrom(env: Env, cols: seq<SeriesColumn>, rule: Rule) {
    rule.signals == SignalsAt(env, cols, env.signals)
  }

  lemma CondKeepsItsMeaning(env: Env, cols: seq<SeriesColumn>, rule: Rule, c: Cond, v: View)
    requires SignalsFrom(env, cols, rule) && CondNamed(env, c)
    ensures CondOk(rule, CondAt(env, cols, c))
    ensures CondHolds(rule, CondAt(env, cols, c), v.coin, v.pos, v.now) <==> CondMeans(env, c, v)
  {
    SignalsAtAre(env, cols, env.signals);
    match c
    case MetricCond(r, expr, _) => MetricKeepsItsMeaning(env, cols, r, expr, v);
    case SignalCond(name, _, _) =>
      SignalKeepsItsMeaning(env, cols, env.signals[FirstIndex(SignalNames(env.signals), name)].groups, v);
  }

  /** A compiled condition list holds exactly when the authored one does. */
  lemma ConditionsKeepTheirMeaning(env: Env, cols: seq<SeriesColumn>, rule: Rule, cs: seq<Cond>, v: View)
    requires SignalsFrom(env, cols, rule) && CondsNamed(env, cs)
    ensures CondsOk(rule, CondsAt(env, cols, cs))
    ensures AllHold(rule, CondsAt(env, cols, cs), v.coin, v.pos, v.now) <==> ListMeans(env, cs, v)
  {
    var out := CondsAt(env, cols, cs);
    forall o | o in out
      ensures exists c | c in cs :: !c.off && o == CondAt(env, cols, c)
      ensures CondOk(rule, o)
    {
      CondsAtAre(env, cols, cs, o);
      var c :| c in cs && !c.off && o == CondAt(env, cols, c);
      CondKeepsItsMeaning(env, cols, rule, c, v);
    }
    forall c | c in cs && !c.off
      ensures CondAt(env, cols, c) in out && CondOk(rule, CondAt(env, cols, c))
      ensures CondHolds(rule, CondAt(env, cols, c), v.coin, v.pos, v.now) <==> CondMeans(env, c, v)
    {
      CondsAtAre(env, cols, cs, CondAt(env, cols, c));
      CondKeepsItsMeaning(env, cols, rule, c, v);
    }
  }

  // ---- the compiled rule is well formed -------------------------------------

  lemma LinesAreOk(env: Env, cols: seq<SeriesColumn>, rule: Rule, first: nat, ls: seq<AuthoredLine>, v: View)
    requires SignalsFrom(env, cols, rule) && LinesNamed(env, ls)
    ensures LinesOk(rule, LinesAt(env, cols, first, ls))
  {
    LinesAtAre(env, cols, first, ls);
    var out := LinesAt(env, cols, first, ls);
    forall i | 0 <= i < |out|
      ensures CondsOk(rule, out[i].conds)
    {
      LiveLinesAre(ls);
      ConditionsKeepTheirMeaning(env, cols, rule, LiveLines(ls)[i].when, v);
    }
  }

  lemma {:induction false} LiveLinesAre(ls: seq<AuthoredLine>)
    ensures forall l :: l in LiveLines(ls) <==> l in ls && !l.off
  {
    if ls != [] {
      var n := |ls| - 1;
      LiveLinesAre(ls[..n]);
      assert ls == ls[..n] + [ls[n]];
    }
  }

  lemma {:induction false} StagesAtAre(env: Env, cols: seq<SeriesColumn>, first: nat, stages: seq<Stage>, i: nat)
    requires i < |stages|
    ensures |StagesAt(env, cols, first, stages)| == |stages|
    ensures exists start: nat :: StagesAt(env, cols, first, stages)[i] == StageAt(env, cols, start, i, stages[i])
  {
    var n := |stages| - 1;
    if n > 0 {
      StagesAtAre(env, cols, first, stages[..n], if i < n then i else 0);
    }
    if i == n {
      assert StagesAt(env, cols, first, stages)[n] == StageAt(env, cols, StageStart(first, stages[..n]), n, stages[n]);
    } else {
      assert StagesAt(env, cols, first, stages)[i] == StagesAt(env, cols, first, stages[..n])[i];
    }
  }

  lemma {:induction false} EntriesAtAre(env: Env, cols: seq<SeriesColumn>, first: nat, cells: seq<Cell>, i: nat)
    requires i < |cells|
    ensures |EntriesAt(env, cols, first, cells)| == |cells|
    ensures exists start: nat :: EntriesAt(env, cols, first, cells)[i] == LinesAt(env, cols, start, cells[i].on)
  {
    var n := |cells| - 1;
    if n > 0 {
      EntriesAtAre(env, cols, first, cells[..n], if i < n then i else 0);
    }
    if i == n {
      assert EntriesAt(env, cols, first, cells)[n] == LinesAt(env, cols, CellStart(first, cells[..n]), cells[n].on);
    } else {
      assert EntriesAt(env, cols, first, cells)[i] == EntriesAt(env, cols, first, cells[..n])[i];
    }
  }

  lemma {:induction false} ListsAtAre(env: Env, cols: seq<SeriesColumn>, lists: seq<seq<Cond>>)
    ensures |ListsAt(env, cols, lists)| == |lists|
    ensures forall i | 0 <= i < |lists| :: ListsAt(env, cols, lists)[i] == CondsAt(env, cols, lists[i])
  {
    if lists != [] {
      ListsAtAre(env, cols, lists[..|lists| - 1]);
    }
  }

  lemma {:induction false} StagesAtLength(env: Env, cols: seq<SeriesColumn>, first: nat, stages: seq<Stage>)
    ensures |StagesAt(env, cols, first, stages)| == |stages|
  {
    if stages != [] {
      StagesAtLength(env, cols, first, stages[..|stages| - 1]);
    }
  }

  lemma {:induction false} EntriesAtLength(env: Env, cols: seq<SeriesColumn>, first: nat, cells: seq<Cell>)
    ensures |EntriesAt(env, cols, first, cells)| == |cells|
  {
    if cells != [] {
      EntriesAtLength(env, cols, first, cells[..|cells| - 1]);
    }
  }

  lemma PlansAreOk(env: Env, cols: seq<SeriesColumn>, rule: Rule, p: Params, v: View)
    requires SignalsFrom(env, cols, rule) && Named(env, p)
    ensures PlansAt(env, cols, p) != []
    ensures forall s | s in PlansAt(env, cols, p) :: LinesOk(rule, s.on) && LinesOk(rule, s.atEnd)
  {
    var plans, first := PlansAt(env, cols, p), FirstStageLine(env, p);
    if p.stages != [] {
      StagesAtLength(env, cols, first, p.stages);
      forall i | 0 <= i < |plans|
        ensures LinesOk(rule, plans[i].on) && LinesOk(rule, plans[i].atEnd)
      {
        StagesAtAre(env, cols, first, p.stages, i);
        var start: nat :| plans[i] == StageAt(env, cols, start, i, p.stages[i]);
        assert StageNamed(env, p.stages[i]);
        LinesAreOk(env, cols, rule, start, p.stages[i].on, v);
        LinesAreOk(env, cols, rule, LineStart(start, p.stages[i].on), p.stages[i].atEnd, v);
      }
    }
  }

  lemma ListsAreOk(env: Env, cols: seq<SeriesColumn>, rule: Rule, lists: seq<seq<Cond>>, v: View)
    requires SignalsFrom(env, cols, rule) && forall cs | cs in lists :: CondsNamed(env, cs)
    ensures forall o | o in ListsAt(env, cols, lists) :: CondsOk(rule, o)
  {
    ListsAtAre(env, cols, lists);
    var out := ListsAt(env, cols, lists);
    forall i | 0 <= i < |out|
      ensures CondsOk(rule, out[i])
    {
      ConditionsKeepTheirMeaning(env, cols, rule, lists[i], v);
    }
  }

  lemma CellEntriesInRange(t: TreeDef)
    requires t.phases != [] && t.situations != []
    ensures |CellEntries(t)| == |t.phases| * |t.situations|
    ensures forall e | e in CellEntries(t) && e.Some? :: e.value < |t.cells|
  {
  }

  lemma TreeEntriesAreOk(env: Env, cols: seq<SeriesColumn>, rule: Rule, first: nat, cells: seq<Cell>, v: View)
    requires SignalsFrom(env, cols, rule) && forall c | c in cells :: LinesNamed(env, c.on)
    ensures |EntriesAt(env, cols, first, cells)| == |cells|
    ensures forall e | e in EntriesAt(env, cols, first, cells) :: LinesOk(rule, e)
  {
    var entries := EntriesAt(env, cols, first, cells);
    EntriesAtLength(env, cols, first, cells);
    forall i | 0 <= i < |entries|
      ensures LinesOk(rule, entries[i])
    {
      EntriesAtAre(env, cols, first, cells, i);
      var start: nat :| entries[i] == LinesAt(env, cols, start, cells[i].on);
      LinesAreOk(env, cols, rule, start, cells[i].on, v);
    }
  }

  lemma TreeIsOk(env: Env, cols: seq<SeriesColumn>, rule: Rule, p: Params, v: View)
    requires SignalsFrom(env, cols, rule) && Named(env, p) && p.tree.Some?
    ensures TreeOk(rule, MaybeTreeAt(env, cols, p).value)
  {
    var t, first := p.tree.value, FirstCellLine(env, p);
    ListsAreOk(env, cols, rule, Untils(t.phases), v);
    ListsAreOk(env, cols, rule, Whens(t.situations), v);
    ListsAtAre(env, cols, Untils(t.phases));
    ListsAtAre(env, cols, Whens(t.situations));
    CellEntriesInRange(t);
    TreeEntriesAreOk(env, cols, rule, first, t.cells, v);
  }

  lemma AlwaysIsOk(env: Env, cols: seq<SeriesColumn>, rule: Rule, p: Params, v: View)
    requires SignalsFrom(env, cols, rule) && Named(env, p)
    ensures LinesOk(rule, AlwaysAt(env, cols, p)) && LinesOk(rule, Shortcuts(env, p))
  {
    LinesAreOk(env, cols, rule, |Shortcuts(env, p)|, p.always, v);
  }

  /** A validated rule compiles to one every decision is defined on, with the kills and
      horizons its own conditions imply and each metric's own tolerance. */
  lemma CompiledRuleIsWellFormed(env: Env, p: Params, v: View)
    requires Named(env, p)
    ensures var rule := Compiled(env, p);
            && Wf(rule) && KillsDerived(rule) && HorizonsDerived(rule) && TolerancesOk(rule)
            && (forall m | m in AllReqs(rule) :: m.tolerance == EqTolerance(m.r.metric))
  {
    var rule, cols := Compiled(env, p), FinalColumns(env, p);
    ConditionsKeepTheirMeaning(env, cols, rule, p.enter.event, v);
    ConditionsKeepTheirMeaning(env, cols, rule, p.enter.filters, v);
    ConditionsKeepTheirMeaning(env, cols, rule, p.enter.finalFilters, v);
    AlwaysIsOk(env, cols, rule, p, v);
    PlansAreOk(env, cols, rule, p, v);
    if p.tree.Some? {
      TreeIsOk(env, cols, rule, p, v);
    }
    TolerancesAreTheMetrics(env, p);
  }

  lemma TolerancesAreTheMetrics(env: Env, p: Params)
    ensures forall m | m in AllReqs(Compiled(env, p)) :: m.tolerance == EqTolerance(m.r.metric)
    ensures TolerancesOk(Compiled(env, p))
  {
    var rule, cols := Compiled(env, p), FinalColumns(env, p);
    forall m | m in AllReqs(rule)
      ensures m.tolerance == EqTolerance(m.r.metric)
    {
      CompiledReqsAreTheLiveOnes(env, p, m);
      if ShortcutReq(env, p, m) {
        ShortcutsReadOurPosition(env, p, m);
      } else {
        var cs :| cs in ListsOf(p) && FromList(env, cols, cs, m);
      }
    }
    AllReqsMissesNothing(rule);
    forall c | c in EntryConds(rule) && c.OnMetric?
      ensures c.m.tolerance >= 0.0
    {
      assert OnMetric(c.m) in EntryConds(rule);
      assert c.m in AllReqs(rule);
    }
  }
}
