/** The compiling walk itself: one pass that interns columns and numbers lines as it goes. */
module CompilerWalk {
  import opened Metrics
  import opened Rules
  import opened RuleReqs
  import opened MonoKills
  import opened ClockHorizons
  import opened Compile

  lemma StepLists(cols: seq<SeriesColumn>, fp: nat, a: seq<seq<Cond>>, b: seq<seq<Cond>>, whole: seq<seq<Cond>>)
    requires whole == a + b
    ensures InternLists(InternLists(cols, fp, a), fp, b) == InternLists(cols, fp, whole)
  {
    InternListsSplits(cols, fp, a, b);
  }

  lemma RefsStep(cols: seq<SeriesColumn>, fp: nat, done: seq<Cond>, upTo: seq<Cond>, c: Cond)
    requires upTo == done + [c]
    ensures InternAll(cols, fp, RefsIn(upTo))
            == if c.MetricCond? && !c.off then Interned(InternAll(cols, fp, RefsIn(done)), fp, c.r) else InternAll(cols, fp, RefsIn(done))
  {
    assert upTo[..|upTo| - 1] == done;
    var refs := RefsIn(done);
    if c.MetricCond? && !c.off {
      assert RefsIn(upTo)[..|RefsIn(upTo)| - 1] == refs;
    } else {
      assert RefsIn(upTo) == refs;
    }
  }

  lemma NextLine(env: Env, cols: seq<SeriesColumn>, first: nat, done: seq<AuthoredLine>, upTo: seq<AuthoredLine>,
                 l: AuthoredLine)
    requires upTo == done + [l] && !l.off
    ensures LinesAt(env, cols, first, upTo) == LinesAt(env, cols, first, done) + [LineAt(env, cols, LineStart(first, done), l)]
    ensures LineStart(first, upTo) == LineStart(first, done) + 1
  {
  }

  lemma StageListsStep(done: seq<Stage>, upTo: seq<Stage>, s: Stage)
    requires upTo == done + [s]
    ensures StageLists(upTo) == StageLists(done) + (LineLists(s.on) + LineLists(s.atEnd))
    ensures CountInStages(upTo) == CountInStages(done) + CountIn(s)
  {
    assert upTo[..|upTo| - 1] == done;
    Reassociate(StageLists(done), LineLists(s.on), LineLists(s.atEnd));
  }

  lemma StagesAtStep(env: Env, cols: seq<SeriesColumn>, first: nat, done: seq<Stage>, upTo: seq<Stage>, s: Stage)
    requires upTo == done + [s]
    ensures StagesAt(env, cols, first, upTo)
            == StagesAt(env, cols, first, done) + [StageAt(env, cols, StageStart(first, done), |done|, s)]
  {
    assert upTo[..|upTo| - 1] == done;
  }

  /** Each output is what the final columns give it, whichever columns come after. */
  class Compiler {
    const env: Env
    var coinReads: seq<SeriesColumn>
    var nextLine: nat

    constructor (env: Env)
      ensures this.env == env && coinReads == [] && nextLine == 0
    {
      this.env := env;
      coinReads := [];
      nextLine := 0;
    }

    method Req(r: MetricRef, expr: ConditionExpr) returns (m: MetricReq)
      modifies `coinReads
      ensures coinReads == Interned(old(coinReads), env.fp, r)
      ensures old(coinReads) <= coinReads
      ensures forall later | coinReads <= later :: m == ReqAt(env, later, r, expr)
    {
      var fingerprint := if IsFingerprintScoped(r) then Some(env.fp) else None;
      var readId := PositionRead;
      if !IsPosition(r) {
        var col := SeriesColumn(r, fingerprint);
        var at := FirstIndex(coinReads, col);
        if at == |coinReads| {
          coinReads := coinReads + [col];
        }
        readId := Column(at);
        forall later | coinReads <= later
          ensures FirstIndex(later, col) == at
        {
          FirstIndexIsStable(coinReads, later, col);
        }
      }
      m := MetricReq(r, fingerprint, EqTolerance(r.metric), expr, readId);
    }

    method CompileCond(c: Cond) returns (req: CondReq)
      requires CondNamed(env, c)
      modifies `coinReads
      ensures coinReads == if c.MetricCond? then Interned(old(coinReads), env.fp, c.r) else old(coinReads)
      ensures forall later | coinReads <= later :: req == CondAt(env, later, c)
    {
      match c {
        case MetricCond(r, expr, _) =>
          var m := Req(r, expr);
          req := OnMetric(m);
        case SignalCond(name, negated, _) =>
          req := OnSignal(FirstIndex(SignalNames(env.signals), name), negated);
      }
    }

    method Conds(cs: seq<Cond>) returns (out: seq<CondReq>)
      requires CondsNamed(env, cs)
      modifies `coinReads
      ensures coinReads == InternAll(old(coinReads), env.fp, RefsIn(cs))
      ensures old(coinReads) <= coinReads
      ensures forall later | coinReads <= later :: out == CondsAt(env, later, cs)
    {
      out := [];
      for i := 0 to |cs|
        invariant coinReads == InternAll(old(coinReads), env.fp, RefsIn(cs[..i]))
        invariant forall later | coinReads <= later :: out == CondsAt(env, later, cs[..i])
      {
        ghost var was, done, upTo := out, cs[..i], cs[..i + 1];
        assert upTo[..i] == done;
        RefsStep(old(coinReads), env.fp, done, upTo, cs[i]);
        if !cs[i].off {
          var req := CompileCond(cs[i]);
          out := out + [req];
          forall later | coinReads <= later
            ensures out == CondsAt(env, later, upTo)
          {
            assert was == CondsAt(env, later, done);
            assert req == CondAt(env, later, cs[i]);
          }
        }
      }
      assert cs[..|cs|] == cs;
    }

    method CompileLine(l: AuthoredLine) returns (line: Line)
      requires LineNamed(env, l)
      modifies `coinReads, `nextLine
      ensures coinReads == InternLists(old(coinReads), env.fp, [l.when])
      ensures old(coinReads) <= coinReads
      ensures nextLine == old(nextLine) + 1
      ensures forall later | coinReads <= later :: line == LineAt(env, later, old(nextLine), l)
    {
      var index := nextLine;
      nextLine := nextLine + 1;
      var conds := Conds(l.when);
      line := Line(index, conds, SellAt(env, l),
                   if l.go.Some? then Some(FirstIndex(env.stages, l.go.value)) else None, LineWatchesPrint(env.signals, l));
    }

    method Lines(ls: seq<AuthoredLine>) returns (out: seq<Line>)
      requires LinesNamed(env, ls)
      modifies `coinReads, `nextLine
      ensures coinReads == InternLists(old(coinReads), env.fp, LineLists(ls))
      ensures old(coinReads) <= coinReads
      ensures nextLine == LineStart(old(nextLine), ls)
      ensures forall later | coinReads <= later :: out == LinesAt(env, later, old(nextLine), ls)
    {
      out := [];
      for i := 0 to |ls|
        invariant coinReads == InternLists(old(coinReads), env.fp, LineLists(ls[..i]))
        invariant nextLine == LineStart(old(nextLine), ls[..i])
        invariant forall later | coinReads <= later :: out == LinesAt(env, later, old(nextLine), ls[..i])
      {
        ghost var was, done, upTo := out, ls[..i], ls[..i + 1];
        assert upTo[..i] == done;
        if !ls[i].off {
          assert ls[i] in ls;
          ghost var first := nextLine;
          var line := CompileLine(ls[i]);
          StepLists(old(coinReads), env.fp, LineLists(done), [ls[i].when], LineLists(upTo));
          out := out + [line];
          forall later | coinReads <= later
            ensures out == LinesAt(env, later, old(nextLine), upTo)
          {
            NextLine(env, later, old(nextLine), done, upTo, ls[i]);
            assert was == LinesAt(env, later, old(nextLine), done);
            assert line == LineAt(env, later, first, ls[i]);
          }
        } else {
          assert LineLists(upTo) == LineLists(done);
        }
      }
      assert ls[..|ls|] == ls;
    }

    /** A `pnl_pct` line of the stop-loss and take-profit shortcuts. */
    method ShortcutLine(op: Operator, value: real, reason: ExitReason) returns (l: Line)
      modifies `coinReads, `nextLine
      ensures coinReads == old(coinReads) && nextLine == old(nextLine) + 1
      ensures l == PnlLine(env, [], old(nextLine), op, value, reason)
    {
      var index := nextLine;
      nextLine := nextLine + 1;
      var m := Req(MetricRef(PnlPct, None, LIFE), [[Condition(op, value)]]);
      assert m == ReqAt(env, coinReads, MetricRef(PnlPct, None, LIFE), [[Condition(op, value)]]);
      l := Line(index, [OnMetric(m)], Some(Sell(reason, None, false)), None, false);
    }

    method Groups(groups: seq<seq<Cond>>) returns (out: Signal)
      requires forall g | g in groups :: CondsNamed(env, g)
      modifies `coinReads
      ensures coinReads == InternLists(old(coinReads), env.fp, groups)
      ensures old(coinReads) <= coinReads
      ensures forall later | coinReads <= later :: out == GroupsAt(env, later, groups)
    {
      out := [];
      for i := 0 to |groups|
        invariant coinReads == InternLists(old(coinReads), env.fp, groups[..i])
        invariant forall later | coinReads <= later :: out == GroupsAt(env, later, groups[..i])
      {
        ghost var was, done, upTo := out, groups[..i], groups[..i + 1];
        assert upTo[..i] == done;
        var conds := Conds(groups[i]);
        var g := ReqsOf(conds);
        if g != [] {
          out := out + [g];
        }
        forall later | coinReads <= later
          ensures out == GroupsAt(env, later, upTo)
        {
          assert was == GroupsAt(env, later, done);
          assert conds == CondsAt(env, later, groups[i]);
        }
      }
      assert groups[..|groups|] == groups;
    }

    method Signals(signals: seq<SignalDef>) returns (out: seq<Signal>)
      requires forall s | s in signals :: forall g | g in s.groups :: CondsNamed(env, g)
      modifies `coinReads
      ensures coinReads == InternLists(old(coinReads), env.fp, SignalLists(signals))
      ensures old(coinReads) <= coinReads
      ensures forall later | coinReads <= later :: out == SignalsAt(env, later, signals)
    {
      out := [];
      for i := 0 to |signals|
        invariant coinReads == InternLists(old(coinReads), env.fp, SignalLists(signals[..i]))
        invariant forall later | coinReads <= later :: out == SignalsAt(env, later, signals[..i])
      {
        ghost var was, done, upTo := out, signals[..i], signals[..i + 1];
        assert upTo[..i] == done;
        assert signals[i] in signals;
        var groups := Groups(signals[i].groups);
        StepLists(old(coinReads), env.fp, SignalLists(done), signals[i].groups, SignalLists(upTo));
        out := out + [groups];
        forall later | coinReads <= later
          ensures out == SignalsAt(env, later, upTo)
        {
          assert was == SignalsAt(env, later, done);
        }
      }
      assert signals[..|signals|] == signals;
    }

    method CondLists(lists: seq<seq<Cond>>) returns (out: seq<seq<CondReq>>)
      requires forall cs | cs in lists :: CondsNamed(env, cs)
      modifies `coinReads
      ensures coinReads == InternLists(old(coinReads), env.fp, lists)
      ensures old(coinReads) <= coinReads
      ensures forall later | coinReads <= later :: out == ListsAt(env, later, lists)
    {
      out := [];
      for i := 0 to |lists|
        invariant coinReads == InternLists(old(coinReads), env.fp, lists[..i])
        invariant forall later | coinReads <= later :: out == ListsAt(env, later, lists[..i])
      {
        ghost var was, done, upTo := out, lists[..i], lists[..i + 1];
        assert upTo[..i] == done;
        var conds := Conds(lists[i]);
        out := out + [conds];
        forall later | coinReads <= later
          ensures out == ListsAt(env, later, upTo)
        {
          assert was == ListsAt(env, later, done);
        }
      }
      assert lists[..|lists|] == lists;
    }

    method CompileStage(i: nat, s: Stage) returns (plan: StagePlan)
      requires StageNamed(env, s)
      modifies `coinReads, `nextLine
      ensures coinReads == InternLists(old(coinReads), env.fp, LineLists(s.on) + LineLists(s.atEnd))
      ensures old(coinReads) <= coinReads
      ensures nextLine == old(nextLine) + CountIn(s)
      ensures forall later | coinReads <= later :: plan == StageAt(env, later, old(nextLine), i, s)
    {
      var on := Lines(s.on);
      ghost var second := nextLine;
      var atEnd := Lines(s.atEnd);
      StepLists(old(coinReads), env.fp, LineLists(s.on), LineLists(s.atEnd), LineLists(s.on) + LineLists(s.atEnd));
      var next := if s.ends.None? then None
                  else if s.next.Some? then Some(FirstIndex(env.stages, s.next.value))
                  else Some(i + 1);
      plan := StagePlan(s.ends, on, atEnd, next);
      forall later | coinReads <= later
        ensures plan == StageAt(env, later, old(nextLine), i, s)
      {
        assert on == LinesAt(env, later, old(nextLine), s.on);
        assert atEnd == LinesAt(env, later, second, s.atEnd);
      }
    }

    method Stages(stages: seq<Stage>) returns (out: seq<StagePlan>)
      requires forall s | s in stages :: StageNamed(env, s)
      modifies `coinReads, `nextLine
      ensures coinReads == InternLists(old(coinReads), env.fp, StageLists(stages))
      ensures old(coinReads) <= coinReads
      ensures nextLine == StageStart(old(nextLine), stages)
      ensures forall later | coinReads <= later :: out == StagesAt(env, later, old(nextLine), stages)
    {
      out := [];
      for i := 0 to |stages|
        invariant coinReads == InternLists(old(coinReads), env.fp, StageLists(stages[..i]))
        invariant nextLine == StageStart(old(nextLine), stages[..i])
        invariant forall later | coinReads <= later :: out == StagesAt(env, later, old(nextLine), stages[..i])
      {
        ghost var was, done, upTo := out, stages[..i], stages[..i + 1];
        assert upTo[..i] == done;
        var s := stages[i];
        assert s in stages;
        var plan := CompileStage(i, s);
        StageListsStep(done, upTo, s);
        StepLists(old(coinReads), env.fp, StageLists(done), LineLists(s.on) + LineLists(s.atEnd), StageLists(upTo));
        out := out + [plan];
        forall later | coinReads <= later
          ensures out == StagesAt(env, later, old(nextLine), upTo)
        {
          assert was == StagesAt(env, later, old(nextLine), done);
          StagesAtStep(env, later, old(nextLine), done, upTo, s);
        }
      }
      assert stages[..|stages|] == stages;
    }

    method Entries(cells: seq<Cell>) returns (out: seq<seq<Line>>)
      requires forall c | c in cells :: LinesNamed(env, c.on)
      modifies `coinReads, `nextLine
      ensures coinReads == InternLists(old(coinReads), env.fp, CellLists(cells))
      ensures old(coinReads) <= coinReads
      ensures nextLine == CellStart(old(nextLine), cells)
      ensures forall later | coinReads <= later :: out == EntriesAt(env, later, old(nextLine), cells)
    {
      out := [];
      for i := 0 to |cells|
        invariant coinReads == InternLists(old(coinReads), env.fp, CellLists(cells[..i]))
        invariant nextLine == CellStart(old(nextLine), cells[..i])
        invariant forall later | coinReads <= later :: out == EntriesAt(env, later, old(nextLine), cells[..i])
      {
        ghost var was, done, upTo := out, cells[..i], cells[..i + 1];
        assert upTo[..i] == done;
        assert cells[i] in cells;
        var lines := Lines(cells[i].on);
        StepLists(old(coinReads), env.fp, CellLists(done), LineLists(cells[i].on), CellLists(upTo));
        out := out + [lines];
        forall later | coinReads <= later
          ensures out == EntriesAt(env, later, old(nextLine), upTo)
        {
          assert was == EntriesAt(env, later, old(nextLine), done);
        }
      }
      assert cells[..|cells|] == cells;
    }

    method EntrySide(e: EnterDef) returns (event: seq<CondReq>, filters: seq<CondReq>, finalFilters: seq<CondReq>)
      requires CondsNamed(env, e.event) && CondsNamed(env, e.filters) && CondsNamed(env, e.finalFilters)
      modifies `coinReads
      ensures coinReads == InternLists(old(coinReads), env.fp, EntryLists(e))
      ensures old(coinReads) <= coinReads
      ensures forall later | coinReads <= later :: event == CondsAt(env, later, e.event)
      ensures forall later | coinReads <= later :: filters == CondsAt(env, later, e.filters)
      ensures forall later | coinReads <= later :: finalFilters == CondsAt(env, later, e.finalFilters)
    {
      ghost var start := coinReads;
      event := Conds(e.event);
      filters := Conds(e.filters);
      StepLists(start, env.fp, [e.event], [e.filters], [e.event, e.filters]);
      finalFilters := Conds(e.finalFilters);
      StepLists(start, env.fp, [e.event, e.filters], [e.finalFilters], EntryLists(e));
    }

    /** Stop loss, take profit, then the authored lines. */
    method Always(p: Params) returns (out: seq<Line>)
      requires LinesNamed(env, p.always) && nextLine == 0
      modifies `coinReads, `nextLine
      ensures coinReads == InternLists(old(coinReads), env.fp, LineLists(p.always))
      ensures old(coinReads) <= coinReads
      ensures nextLine == FirstStageLine(env, p)
      ensures forall later | coinReads <= later :: out == AlwaysAt(env, later, p)
    {
      out := [];
      if p.stopLoss.Some? {
        var l := ShortcutLine(Lte, -p.stopLoss.value, StopLoss);
        out := out + [l];
      }
      if p.takeProfit.Some? {
        var l := ShortcutLine(Gte, p.takeProfit.value, TakeProfit);
        out := out + [l];
      }
      ghost var shortcuts := out;
      assert shortcuts == Shortcuts(env, p);
      var authored := Lines(p.always);
      out := out + authored;
    }

    method TreeSide(tree: Option<TreeDef>, allowed: seq<(Option<string>, Option<string>)>) returns (out: Option<Tree>)
      requires tree.Some? ==> TreeNamed(env, tree.value)
      modifies `coinReads, `nextLine
      ensures coinReads == InternLists(old(coinReads), env.fp, TreeLists(tree))
      ensures old(coinReads) <= coinReads
      ensures tree.None? ==> out == None
      ensures tree.Some? ==> forall later | coinReads <= later :: out == Some(TreeAt(env, later, old(nextLine), tree.value, allowed))
    {
      match tree
      case None => out := None;
      case Some(t) =>
        var untils := CondLists(Untils(t.phases));
        var whens := CondLists(Whens(t.situations));
        StepLists(old(coinReads), env.fp, Untils(t.phases), Whens(t.situations), Untils(t.phases) + Whens(t.situations));
        var entries := Entries(t.cells);
        StepLists(old(coinReads), env.fp, Untils(t.phases) + Whens(t.situations), CellLists(t.cells), TreeLists(tree));
        var cellEntry, entryOk := CellTable(t, allowed);
        out := Some(Tree(untils, whens, entries, cellEntry, entryOk));
    }

    method HeldSide(p: Params) returns (always: seq<Line>, stages: seq<StagePlan>, tree: Option<Tree>)
      requires LinesNamed(env, p.always) && (forall s | s in p.stages :: StageNamed(env, s))
      requires p.tree.Some? ==> TreeNamed(env, p.tree.value)
      requires nextLine == 0
      modifies `coinReads, `nextLine
      ensures coinReads == InternLists(InternLists(InternLists(old(coinReads), env.fp, LineLists(p.always)), env.fp, StageLists(p.stages)), env.fp, TreeLists(p.tree))
      ensures old(coinReads) <= coinReads
      ensures always == AlwaysAt(env, coinReads, p)
      ensures stages == PlansAt(env, coinReads, p)
      ensures tree == MaybeTreeAt(env, coinReads, p)
    {
      always := Always(p);
      stages := Stages(p.stages);
      tree := TreeSide(p.tree, p.enter.cells);
      assert always == AlwaysAt(env, coinReads, p);
      assert stages == StagesAt(env, coinReads, FirstStageLine(env, p), p.stages);
      if stages == [] {
        stages := [MAIN_STAGE];
      }
    }
  }

  /** The most specific entry of every cell, and whether a buy may start there. */
  method CellTable(t: TreeDef, allowed: seq<(Option<string>, Option<string>)>) returns (entries: seq<Option<nat>>,
                   oks: seq<bool>)
    requires t.situations != []
    ensures entries == CellEntries(t) && oks == EntryOks(t, allowed)
  {
    entries, oks := [], [];
    var n := |t.situations|;
    for i := 0 to |t.phases|
      invariant |entries| == |oks| == i * n
      invariant entries == CellEntries(t)[..i * n] && oks == EntryOks(t, allowed)[..i * n]
    {
      MulMono(i + 1, |t.phases|, n);
      for j := 0 to n
        invariant |entries| == |oks| == i * n + j
        invariant entries == CellEntries(t)[..i * n + j] && oks == EntryOks(t, allowed)[..i * n + j]
      {
        CellOf(i, j, n);
        entries := entries + [EntryFor(t.cells, t.phases[i].name, t.situations[j].name)];
        oks := oks + [MayBuyIn(allowed, t.phases[i].name, t.situations[j].name)];
      }
    }
  }

  lemma CellOf(i: nat, j: nat, n: nat)
    requires j < n
    ensures (i * n + j) / n == i && (i * n + j) % n == j
  {
    var q, r := (i * n + j) / n, (i * n + j) % n;
    assert i * n + j == q * n + r;
    SameCell(i, j, q, r, n);
  }

  lemma SameCell(i: nat, j: nat, q: nat, r: nat, n: nat)
    requires j < n && r < n && i * n + j == q * n + r
    ensures i == q && j == r
  {
    if i < q {
      MulMono(i + 1, q, n);
    } else if q < i {
      MulMono(q + 1, i, n);
    }
  }

  lemma Assembled(env: Env, p: Params, rule: Rule)
    requires rule.event == CondsAt(env, rule.coinReads, p.enter.event)
    requires rule.filters == CondsAt(env, rule.coinReads, p.enter.filters)
    requires rule.finalFilters == CondsAt(env, rule.coinReads, p.enter.finalFilters)
    requires rule.signals == SignalsAt(env, rule.coinReads, p.signals)
    requires rule.always == AlwaysAt(env, rule.coinReads, p)
    requires rule.stages == PlansAt(env, rule.coinReads, p)
    requires rule.tree == MaybeTreeAt(env, rule.coinReads, p)
    requires rule.entryLock == p.enter.lock && rule.followBought == p.followBought
    requires rule.monoKills == [] && rule.horizons == NO_HORIZONS
    ensures rule == RuleAt(env, p, rule.coinReads)
  {
  }

  lemma SignalGroupsAreNamed(env: Env, p: Params)
    requires Named(env, p)
    ensures forall s | s in p.signals :: forall g | g in s.groups :: CondsNamed(env, g)
  {
  }

  /** One pass over the authored rule: entry first, then signals, the shortcuts, the held
      lines and the tree. */
  method WalkRule(env: Env, p: Params) returns (rule: Rule)
    requires Named(env, p)
    ensures rule == RuleAt(env, p, InternLists([], env.fp, ListsOf(p)))
  {
    var cx := new Compiler(env);
    var event, filters, finalFilters := cx.EntrySide(p.enter);
    SignalGroupsAreNamed(env, p);
    var signals := cx.Signals(p.signals);
    var always, stages, tree := cx.HeldSide(p);
    InternOrder(env.fp, p);
    var cols := cx.coinReads;
    rule := Rule(event, filters, finalFilters, p.enter.lock, signals, always, stages, tree, cols, [], NO_HORIZONS, p.followBought);
    Assembled(env, p, rule);
  }

  /** The walk, then the derived kills and horizons. */
  method CompileRule(fp: nat, p: Params, caption: AuthoredLine -> string) returns (rule: Rule)
    requires Named(EnvOf(fp, p, caption), p)
    ensures rule == Compiled(EnvOf(fp, p, caption), p)
  {
    rule := WalkRule(EnvOf(fp, p, caption), p);
    var kills := DeriveMonoKills(rule.event + rule.filters + rule.finalFilters);
    var horizons := AbsorbAll(AllReqs(rule), rule.stages);
    rule := rule.(monoKills := kills, horizons := horizons);
  }

  lemma InternOrder(fp: nat, p: Params)
    ensures var entered := InternLists([], fp, EntryLists(p.enter));
            var signalled := InternLists(entered, fp, SignalLists(p.signals));
            var staged := InternLists(InternLists(signalled, fp, LineLists(p.always)), fp, StageLists(p.stages));
            InternLists(staged, fp, TreeLists(p.tree)) == InternLists([], fp, ListsOf(p))
  {
    var a := EntryLists(p.enter);
    var b := a + SignalLists(p.signals);
    var c := b + LineLists(p.always);
    var d := c + StageLists(p.stages);
    StepLists([], fp, a, SignalLists(p.signals), b);
    StepLists([], fp, b, LineLists(p.always), c);
    StepLists([], fp, c, StageLists(p.stages), d);
    StepLists([], fp, d, TreeLists(p.tree), ListsOf(p));
  }
}
