/** What compiling guarantees: a well-formed rule whose reads, lines and derived parts are
    exactly those of the authored rule. */
module Interning {
  import opened Metrics
  import opened Rules
  import opened RuleReqs
  import opened MonoKills
  import opened ClockHorizons
  import opened Compile

  // ---- where a compiled condition comes from --------------------------------

  predicate FromList(env: Env, cols: seq<SeriesColumn>, cs: seq<Cond>, m: MetricReq) {
    exists c | c in cs :: c.MetricCond? && !c.off && m == ReqAt(env, cols, c.r, c.expr)
  }

  predicate FromLists(env: Env, cols: seq<SeriesColumn>, lists: seq<seq<Cond>>, m: MetricReq) {
    exists cs | cs in lists :: FromList(env, cols, cs, m)
  }

  lemma FromListsSplits(env: Env, cols: seq<SeriesColumn>, a: seq<seq<Cond>>, b: seq<seq<Cond>>, m: MetricReq)
    ensures FromLists(env, cols, a + b, m) <==> FromLists(env, cols, a, m) || FromLists(env, cols, b, m)
  {
  }

  lemma {:induction false} CondsComeFrom(env: Env, cols: seq<SeriesColumn>, cs: seq<Cond>, m: MetricReq)
    ensures OnMetric(m) in CondsAt(env, cols, cs) <==> FromList(env, cols, cs, m)
  {
    if cs != [] {
      var n := |cs| - 1;
      CondsComeFrom(env, cols, cs[..n], m);
      assert cs == cs[..n] + [cs[n]];
    }
  }

  predicate InLines(ls: seq<Line>, m: MetricReq) {
    exists l | l in ls :: OnMetric(m) in l.conds
  }

  lemma {:induction false} LinesComeFrom(env: Env, cols: seq<SeriesColumn>, first: nat, ls: seq<AuthoredLine>,
                                         m: MetricReq)
    ensures InLines(LinesAt(env, cols, first, ls), m) <==> FromLists(env, cols, LineLists(ls), m)
  {
    if ls != [] {
      var n := |ls| - 1;
      LinesComeFrom(env, cols, first, ls[..n], m);
      if !ls[n].off {
        CondsComeFrom(env, cols, ls[n].when, m);
        var line := LinesAt(env, cols, first, ls)[|LinesAt(env, cols, first, ls)| - 1];
        InLinesSplits(LinesAt(env, cols, first, ls[..n]), [line], m);
        FromListsSplits(env, cols, LineLists(ls[..n]), [ls[n].when], m);
        assert FromLists(env, cols, [ls[n].when], m) <==> FromList(env, cols, ls[n].when, m);
        assert InLines([line], m) <==> OnMetric(m) in line.conds;
      }
    }
  }

  lemma InLinesSplits(a: seq<Line>, b: seq<Line>, m: MetricReq)
    ensures InLines(a + b, m) <==> InLines(a, m) || InLines(b, m)
  {
  }

  lemma StageLinesStep(s: StagePlan, rest: seq<StagePlan>)
    ensures StageLines([s] + rest) == StageOwn(s) + StageLines(rest)
  {
  }

  lemma {:induction false} StageLinesSplit(a: seq<StagePlan>, b: seq<StagePlan>)
    ensures StageLines(a + b) == StageLines(a) + StageLines(b)
  {
    if a == [] {
      assert a + b == b;
    } else {
      StageLinesSplit(a[1..], b);
      assert a + b == [a[0]] + (a[1..] + b);
      StageLinesStep(a[0], a[1..] + b);
      Reassociate(StageOwn(a[0]), StageLines(a[1..]), StageLines(b));
    }
  }

  lemma StageComesFrom(env: Env, cols: seq<SeriesColumn>, first: nat, n: nat, s: Stage, m: MetricReq)
    ensures InLines(StageOwn(StageAt(env, cols, first, n, s)), m) <==> FromLists(env, cols, LineLists(s.on) + LineLists(s.atEnd), m)
  {
    var second := LineStart(first, s.on);
    LinesComeFrom(env, cols, first, s.on, m);
    LinesComeFrom(env, cols, second, s.atEnd, m);
    InLinesSplits(LinesAt(env, cols, first, s.on), LinesAt(env, cols, second, s.atEnd), m);
    FromListsSplits(env, cols, LineLists(s.on), LineLists(s.atEnd), m);
  }

  lemma OneMoreStage(before: seq<StagePlan>, plan: StagePlan, m: MetricReq)
    ensures InLines(StageLines(before + [plan]), m) <==> InLines(StageLines(before), m) || InLines(StageOwn(plan), m)
  {
    StageLinesSplit(before, [plan]);
    StageLinesStep(plan, []);
    assert [plan] + [] == [plan];
    assert StageOwn(plan) + [] == StageOwn(plan);
    InLinesSplits(StageLines(before), StageOwn(plan), m);
  }

  lemma {:induction false} StagesComeFrom(env: Env, cols: seq<SeriesColumn>, first: nat, stages: seq<Stage>,
                                          m: MetricReq)
    ensures InLines(StageLines(StagesAt(env, cols, first, stages)), m) <==> FromLists(env, cols, StageLists(stages), m)
  {
    if stages != [] {
      var n := |stages| - 1;
      var start := StageStart(first, stages[..n]);
      var lists := LineLists(stages[n].on) + LineLists(stages[n].atEnd);
      StagesComeFrom(env, cols, first, stages[..n], m);
      OneMoreStage(StagesAt(env, cols, first, stages[..n]), StageAt(env, cols, start, n, stages[n]), m);
      StageComesFrom(env, cols, start, n, stages[n], m);
      FromListsSplits(env, cols, StageLists(stages[..n]), lists, m);
      Reassociate(StageLists(stages[..n]), LineLists(stages[n].on), LineLists(stages[n].atEnd));
    }
  }

  lemma {:induction false} FlattenSplits<T(!new)>(a: seq<seq<T>>, b: seq<seq<T>>)
    ensures Flatten(a + b) == Flatten(a) + Flatten(b)
  {
    if a == [] {
      assert a + b == b;
    } else {
      FlattenSplits(a[1..], b);
      assert (a + b)[1..] == a[1..] + b;
    }
  }

  lemma {:induction false} EntriesComeFrom(env: Env, cols: seq<SeriesColumn>, first: nat, cells: seq<Cell>,
                                           m: MetricReq)
    ensures InLines(Flatten(EntriesAt(env, cols, first, cells)), m) <==> FromLists(env, cols, CellLists(cells), m)
  {
    if cells != [] {
      var n := |cells| - 1;
      var start := CellStart(first, cells[..n]);
      var lines := LinesAt(env, cols, start, cells[n].on);
      EntriesComeFrom(env, cols, first, cells[..n], m);
      FlattenSplits(EntriesAt(env, cols, first, cells[..n]), [lines]);
      FlattenOne(lines);
      InLinesSplits(Flatten(EntriesAt(env, cols, first, cells[..n])), lines, m);
      LinesComeFrom(env, cols, start, cells[n].on, m);
      FromListsSplits(env, cols, CellLists(cells[..n]), LineLists(cells[n].on), m);
    }
  }

  lemma {:induction false} ListsComeFrom(env: Env, cols: seq<SeriesColumn>, lists: seq<seq<Cond>>, m: MetricReq)
    ensures (exists cs | cs in ListsAt(env, cols, lists) :: OnMetric(m) in cs) <==> FromLists(env, cols, lists, m)
  {
    if lists != [] {
      var n := |lists| - 1;
      ListsComeFrom(env, cols, lists[..n], m);
      CondsComeFrom(env, cols, lists[n], m);
      FromListsSplits(env, cols, lists[..n], [lists[n]], m);
      assert lists == lists[..n] + [lists[n]];
      assert FromLists(env, cols, [lists[n]], m) <==> FromList(env, cols, lists[n], m);
    }
  }

  lemma {:induction false} GroupsComeFrom(env: Env, cols: seq<SeriesColumn>, groups: seq<seq<Cond>>, m: MetricReq)
    ensures m in Flatten(GroupsAt(env, cols, groups)) <==> FromLists(env, cols, groups, m)
  {
    if groups != [] {
      var n := |groups| - 1;
      GroupsComeFrom(env, cols, groups[..n], m);
      CondsComeFrom(env, cols, groups[n], m);
      FromListsSplits(env, cols, groups[..n], [groups[n]], m);
      assert groups == groups[..n] + [groups[n]];
      assert FromLists(env, cols, [groups[n]], m) <==> FromList(env, cols, groups[n], m);
      var g := ReqsOf(CondsAt(env, cols, groups[n]));
      if g != [] {
        FlattenSplits(GroupsAt(env, cols, groups[..n]), [g]);
        FlattenOne(g);
      }
    }
  }

  lemma {:induction false} SignalsComeFrom(env: Env, cols: seq<SeriesColumn>, signals: seq<SignalDef>, m: MetricReq)
    ensures m in Flatten(Flatten(SignalsAt(env, cols, signals))) <==> FromLists(env, cols, SignalLists(signals), m)
  {
    if signals != [] {
      var n := |signals| - 1;
      var groups := GroupsAt(env, cols, signals[n].groups);
      SignalsComeFrom(env, cols, signals[..n], m);
      GroupsComeFrom(env, cols, signals[n].groups, m);
      FlattenSplits(SignalsAt(env, cols, signals[..n]), [groups]);
      FlattenOne(groups);
      FlattenSplits(Flatten(SignalsAt(env, cols, signals[..n])), groups);
      FromListsSplits(env, cols, SignalLists(signals[..n]), signals[n].groups, m);
    }
  }

  // ---- every read, and no other ---------------------------------------------

  function FinalColumns(env: Env, p: Params): seq<SeriesColumn> {
    InternLists([], env.fp, ListsOf(p))
  }

  predicate ShortcutReq(env: Env, p: Params, m: MetricReq) {
    InLines(Shortcuts(env, p), m)
  }

  lemma ShortcutsReadOurPosition(env: Env, p: Params, m: MetricReq)
    requires ShortcutReq(env, p, m)
    ensures m.r == MetricRef(PnlPct, None, LIFE) && IsPosition(m.r) && m.readId == PositionRead && m.tolerance == 1.0
  {
  }

  lemma EntryComesFrom(env: Env, cols: seq<SeriesColumn>, e: EnterDef, m: MetricReq)
    ensures OnMetric(m) in CondsAt(env, cols, e.event) + CondsAt(env, cols, e.filters) + CondsAt(env, cols, e.finalFilters)
            <==> FromLists(env, cols, EntryLists(e), m)
  {
    CondsComeFrom(env, cols, e.event, m);
    CondsComeFrom(env, cols, e.filters, m);
    CondsComeFrom(env, cols, e.finalFilters, m);
    assert FromLists(env, cols, EntryLists(e), m)
      <==> FromList(env, cols, e.event, m) || FromList(env, cols, e.filters, m) || FromList(env, cols, e.finalFilters, m);
  }

  lemma AlwaysComesFrom(env: Env, cols: seq<SeriesColumn>, p: Params, m: MetricReq)
    ensures InLines(AlwaysAt(env, cols, p), m) <==> ShortcutReq(env, p, m) || FromLists(env, cols, LineLists(p.always), m)
  {
    InLinesSplits(Shortcuts(env, p), LinesAt(env, cols, |Shortcuts(env, p)|, p.always), m);
    LinesComeFrom(env, cols, |Shortcuts(env, p)|, p.always, m);
  }

  lemma PlansComeFrom(env: Env, cols: seq<SeriesColumn>, p: Params, m: MetricReq)
    ensures InLines(StageLines(PlansAt(env, cols, p)), m) <==> FromLists(env, cols, StageLists(p.stages), m)
  {
    if p.stages == [] {
      StageLinesOfMain();
    } else {
      StagesComeFrom(env, cols, FirstStageLine(env, p), p.stages, m);
    }
  }

  lemma StageLinesOfMain()
    ensures StageLines([MAIN_STAGE]) == []
  {
  }

  lemma TreeComesFrom(env: Env, cols: seq<SeriesColumn>, p: Params, m: MetricReq)
    ensures InLines(TreeLines(MaybeTreeAt(env, cols, p)), m) || m in ReqsOfLists(TreeConds(MaybeTreeAt(env, cols, p)))
            <==> FromLists(env, cols, TreeLists(p.tree), m)
  {
    if p.tree.Some? {
      var t := p.tree.value;
      ListsComeFrom(env, cols, Untils(t.phases), m);
      ListsComeFrom(env, cols, Whens(t.situations), m);
      EntriesComeFrom(env, cols, FirstCellLine(env, p), t.cells, m);
      FromListsSplits(env, cols, Untils(t.phases), Whens(t.situations), m);
      FromListsSplits(env, cols, Untils(t.phases) + Whens(t.situations), CellLists(t.cells), m);
      var u, w := ListsAt(env, cols, Untils(t.phases)), ListsAt(env, cols, Whens(t.situations));
      assert m in ReqsOfLists(u + w) <==> exists cs | cs in u + w :: OnMetric(m) in cs;
      assert (exists cs | cs in u + w :: OnMetric(m) in cs) <==> (exists cs | cs in u :: OnMetric(m) in cs) || (exists cs | cs in w :: OnMetric(m) in cs);
    }
  }

  lemma AllReqsSplits(rule: Rule, m: MetricReq)
    ensures m in AllReqs(rule)
            <==> || OnMetric(m) in rule.event + rule.filters + rule.finalFilters
                 || InLines(rule.always, m) || InLines(StageLines(rule.stages), m)
                 || InLines(TreeLines(rule.tree), m) || m in ReqsOfLists(TreeConds(rule.tree))
                 || m in Flatten(Flatten(rule.signals))
  {
  }

  /** The conditions of a compiled rule are exactly the live authored ones and the two
      shortcuts: nothing switched off is left, nothing switched on is lost. */
  lemma CompiledReqsAreTheLiveOnes(env: Env, p: Params, m: MetricReq)
    ensures m in AllReqs(Compiled(env, p)) <==> ShortcutReq(env, p, m) || FromLists(env, FinalColumns(env, p), ListsOf(p), m)
  {
    var cols := FinalColumns(env, p);
    var rule := Compiled(env, p);
    AllReqsSplits(rule, m);
    EntryComesFrom(env, cols, p.enter, m);
    SignalsComeFrom(env, cols, p.signals, m);
    AlwaysComesFrom(env, cols, p, m);
    PlansComeFrom(env, cols, p, m);
    TreeComesFrom(env, cols, p, m);
    var a := EntryLists(p.enter);
    var b := a + SignalLists(p.signals);
    var c := b + LineLists(p.always);
    var d := c + StageLists(p.stages);
    FromListsSplits(env, cols, a, SignalLists(p.signals), m);
    FromListsSplits(env, cols, b, LineLists(p.always), m);
    FromListsSplits(env, cols, c, StageLists(p.stages), m);
    FromListsSplits(env, cols, d, TreeLists(p.tree), m);
  }

  lemma {:induction false} RefsAre(cs: seq<Cond>, r: MetricRef)
    ensures r in RefsIn(cs) <==> exists c | c in cs :: c.MetricCond? && !c.off && c.r == r
  {
    if cs != [] {
      var n := |cs| - 1;
      RefsAre(cs[..n], r);
      assert cs == cs[..n] + [cs[n]];
    }
  }

  /** The read id is what the column list says: a position metric has the position id, any
      other indexes its own column. */
  predicate ReadIdOk(cols: seq<SeriesColumn>, m: MetricReq) {
    if IsPosition(m.r) then m.readId == PositionRead
    else m.readId.Column? && m.readId.i < |cols| && cols[m.readId.i] == SeriesColumn(m.r, m.fingerprint)
  }

  /** Compilation interns soundly: columns are distinct, every condition of the rule reads
      the column its id names, and no column is there without a condition that reads it. */
  lemma InterningIsSound(env: Env, p: Params)
    ensures var rule := Compiled(env, p);
            && Distinct(rule.coinReads)
            && (forall m | m in AllReqs(rule) :: ReadIdOk(rule.coinReads, m))
            && (forall col | col in rule.coinReads :: exists m | m in AllReqs(rule) :: m.readId.Column? && SeriesColumn(m.r, m.fingerprint) == col)
  {
    var rule := Compiled(env, p);
    var cols := FinalColumns(env, p);
    InternListsCollects([], env.fp, ListsOf(p));
    forall m | m in AllReqs(rule)
      ensures ReadIdOk(cols, m)
    {
      CompiledReqsAreTheLiveOnes(env, p, m);
      if ShortcutReq(env, p, m) {
        ShortcutsReadOurPosition(env, p, m);
      } else {
        var cs :| cs in ListsOf(p) && FromList(env, cols, cs, m);
        RefsAre(cs, m.r);
        assert !IsPosition(m.r) ==> ReadBy(env.fp, ListsOf(p), ColumnOf(env.fp, m.r));
      }
    }
    forall col | col in cols
      ensures exists m | m in AllReqs(rule) :: m.readId.Column? && SeriesColumn(m.r, m.fingerprint) == col
    {
      assert ReadBy(env.fp, ListsOf(p), col);
      var cs :| cs in ListsOf(p) && exists r | r in RefsIn(cs) :: !IsPosition(r) && col == ColumnOf(env.fp, r);
      var r :| r in RefsIn(cs) && !IsPosition(r) && col == ColumnOf(env.fp, r);
      RefsAre(cs, r);
      var c :| c in cs && c.MetricCond? && !c.off && c.r == r;
      var m := ReqAt(env, cols, c.r, c.expr);
      assert FromList(env, cols, cs, m);
      CompiledReqsAreTheLiveOnes(env, p, m);
      assert m in AllReqs(rule);
    }
  }
}
