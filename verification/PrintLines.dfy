/** Which lines read the print they are asked on, and what a position that follows one wallet
    does with them. */
module PrintLines {
  import opened Metrics
  import opened Rules
  import opened RuleReqs
  import opened Compile
  import opened Interning
  import opened CompileMeaning

  /** The print family, and spans of exactly one print; no other span, and no other unit. */
  lemma KnownPrintReads(r: MetricRef, w: WindowSpec)
    ensures FamilyOf(r.metric) == Print ==> WatchesThisPrint(r)
    ensures r.span.window == Some(w) && w.unit == Prints && w.size == 1.0 ==> WatchesThisPrint(r)
    ensures FamilyOf(r.metric) != Print && r.span.window == None ==> !WatchesThisPrint(r)
    ensures FamilyOf(r.metric) != Print && r.span.window == Some(w) && (w.unit == Sec || w.unit == Slot || w.size != 1.0) ==> !WatchesThisPrint(r)
  {
  }

  /** The line compares this reading, itself or through a signal. */
  predicate Compares(rule: Rule, l: Line, m: MetricReq) {
    || OnMetric(m) in l.conds
    || exists o | o in l.conds :: o.OnSignal? && o.index < |rule.signals| && exists g | g in rule.signals[o.index] :: m in g
  }

  ghost predicate ComparesAPrint(rule: Rule, l: Line) {
    exists m :: Compares(rule, l, m) && WatchesThisPrint(m.r)
  }

  lemma GroupsWatchIff(env: Env, cols: seq<SeriesColumn>, groups: seq<seq<Cond>>)
    ensures GroupsWatchPrint(groups) <==> exists o | o in GroupsAt(env, cols, groups) :: exists m | m in o :: WatchesThisPrint(m.r)
  {
    if GroupsWatchPrint(groups) {
      var g, c :| g in groups && c in g && c.MetricCond? && !c.off && WatchesThisPrint(c.r);
      var o := ReqsOf(CondsAt(env, cols, g));
      CondsComeFrom(env, cols, g, ReqAt(env, cols, c.r, c.expr));
      assert ReqAt(env, cols, c.r, c.expr) in o;
      GroupsAtAre(env, cols, groups, o);
    }
    if o, m :| o in GroupsAt(env, cols, groups) && m in o && WatchesThisPrint(m.r) {
      GroupsAtAre(env, cols, groups, o);
      var g :| g in groups && o == ReqsOf(CondsAt(env, cols, g));
      CondsComeFrom(env, cols, g, m);
    }
  }

  lemma CondWatchesIff(env: Env, cols: seq<SeriesColumn>, rule: Rule, l: Line, c: Cond)
    requires SignalsFrom(env, cols, rule) && CondNamed(env, c) && CondAt(env, cols, c) in l.conds
    requires CondWatchesPrint(env.signals, c)
    ensures ComparesAPrint(rule, l)
  {
    SignalsAtAre(env, cols, env.signals);
    match c
    case MetricCond(r, expr, _) =>
      assert Compares(rule, l, ReqAt(env, cols, r, expr));
    case SignalCond(name, _, _) =>
      var i := FirstIndex(SignalNames(env.signals), name);
      GroupsWatchIff(env, cols, env.signals[i].groups);
      var o, m :| o in GroupsAt(env, cols, env.signals[i].groups) && m in o && WatchesThisPrint(m.r);
      assert Compares(rule, l, m);
  }

  lemma OwnPrintIsWatched(env: Env, cols: seq<SeriesColumn>, cs: seq<Cond>, m: MetricReq)
    requires OnMetric(m) in CondsAt(env, cols, cs) && WatchesThisPrint(m.r)
    ensures exists c | c in cs :: !c.off && CondWatchesPrint(env.signals, c)
  {
    CondsAtAre(env, cols, cs, OnMetric(m));
    var c :| c in cs && !c.off && OnMetric(m) == CondAt(env, cols, c);
    assert CondWatchesPrint(env.signals, c);
  }

  lemma SignalPrintIsWatched(env: Env, cols: seq<SeriesColumn>, cs: seq<Cond>, o: CondReq, m: MetricReq)
    requires o in CondsAt(env, cols, cs) && o.OnSignal? && o.index < |env.signals| && WatchesThisPrint(m.r)
    requires exists g | g in GroupsAt(env, cols, env.signals[o.index].groups) :: m in g
    ensures exists c | c in cs :: !c.off && CondWatchesPrint(env.signals, c)
  {
    CondsAtAre(env, cols, cs, o);
    var c :| c in cs && !c.off && o == CondAt(env, cols, c);
    GroupsWatchIff(env, cols, env.signals[o.index].groups);
    assert CondWatchesPrint(env.signals, c);
  }

  lemma ComparedPrintIsWatched(env: Env, cols: seq<SeriesColumn>, rule: Rule, index: nat, l: AuthoredLine, m: MetricReq)
    requires SignalsFrom(env, cols, rule)
    requires Compares(rule, LineAt(env, cols, index, l), m) && WatchesThisPrint(m.r)
    ensures LineWatchesPrint(env.signals, l)
  {
    SignalsAtAre(env, cols, env.signals);
    var conds := CondsAt(env, cols, l.when);
    if OnMetric(m) in conds {
      OwnPrintIsWatched(env, cols, l.when, m);
    } else {
      var o :| o in conds && o.OnSignal? && o.index < |rule.signals| && exists g | g in rule.signals[o.index] :: m in g;
      SignalPrintIsWatched(env, cols, l.when, o, m);
    }
  }

  /** A compiled line is marked as reading the print exactly when one of the readings it
      compares, its own or a signal's, is a fact of this one print. */
  lemma PrintLinesAreMarked(env: Env, cols: seq<SeriesColumn>, rule: Rule, index: nat, l: AuthoredLine)
    requires SignalsFrom(env, cols, rule) && LineNamed(env, l)
    ensures LineAt(env, cols, index, l).readsPrint <==> ComparesAPrint(rule, LineAt(env, cols, index, l))
  {
    var line := LineAt(env, cols, index, l);
    if line.readsPrint {
      var c :| c in l.when && !c.off && CondWatchesPrint(env.signals, c);
      CondsAtAre(env, cols, l.when, CondAt(env, cols, c));
      CondWatchesIff(env, cols, rule, line, c);
    }
    if ComparesAPrint(rule, line) {
      var m :| Compares(rule, line, m) && WatchesThisPrint(m.r);
      ComparedPrintIsWatched(env, cols, rule, index, l, m);
    }
  }

  /** A position that follows one wallet acts on a line that compares facts of the print only
      on that wallet's own print, and on every other line as if it followed nobody. */
  lemma FollowerActsIff(env: Env, cols: seq<SeriesColumn>, rule: Rule, index: nat, l: AuthoredLine, coin: Reads, pos: PositionCtx,
                        stage: nat, now: Ts, followed: Option<nat>)
    requires SignalsFrom(env, cols, rule) && LineNamed(env, l) && CondsOk(rule, LineAt(env, cols, index, l).conds)
    ensures var line := LineAt(env, cols, index, l);
            Acts(rule, line, coin, pos, stage, now, Some(followed))
            <==> Acts(rule, line, coin, pos, stage, now, None) && (ComparesAPrint(rule, line) ==> coin.printWallet == followed)
  {
    PrintLinesAreMarked(env, cols, rule, index, l);
  }
}
