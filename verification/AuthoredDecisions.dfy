/** The decisions an authored rule asks for, told by name, and the proof that the compiled
    rule takes exactly those. */
module AuthoredDecisions {
  import opened Metrics
  import opened Rules
  import opened RuleReqs
  import opened Compile
  import opened Interning
  import opened CompileMeaning
  import opened Veto

  // ---- lines ----------------------------------------------------------------

  predicate SellsAll(l: AuthoredLine) {
    l.sell.Some? && l.sell.value.pct.None? && !l.sell.value.ofBag
  }

  /** Goes to the stage it is in, by name, without selling everything. */
  predicate NothingToDo(env: Env, l: AuthoredLine, stage: nat) {
    l.go.Some? && stage < |env.stages| && l.go.value == env.stages[stage] && !SellsAll(l)
  }

  predicate ActsAsAuthored(env: Env, l: AuthoredLine, stage: nat, v: View, bound: Option<Option<nat>>)
    requires LineNamed(env, l)
  {
    && !l.off
    && (bound.Some? && LineWatchesPrint(env.signals, l) ==> v.coin.printWallet == bound.value)
    && !NothingToDo(env, l, stage)
    && ListMeans(env, l.when, v)
  }

  /** The first authored line that acts. */
  function FirstAuthored(env: Env, ls: seq<AuthoredLine>, stage: nat, v: View,
                         bound: Option<Option<nat>>): Option<AuthoredLine>
    requires LinesNamed(env, ls)
  {
    if ls == [] then None
    else
      var n := |ls| - 1;
      var before := FirstAuthored(env, ls[..n], stage, v, bound);
      if before.Some? then before
      else if ActsAsAuthored(env, ls[n], stage, v, bound) then Some(ls[n])
      else None
  }

  lemma LineActsAsAuthored(env: Env, cols: seq<SeriesColumn>, rule: Rule, index: nat, l: AuthoredLine, stage: nat,
                           v: View, bound: Option<Option<nat>>)
    requires SignalsFrom(env, cols, rule) && LineNamed(env, l) && DistinctNames(env.stages) && !l.off && v.pos.Some?
    ensures CondsOk(rule, LineAt(env, cols, index, l).conds)
    ensures Acts(rule, LineAt(env, cols, index, l), v.coin, v.pos.value, stage, v.now, bound) <==> ActsAsAuthored(env, l, stage, v, bound)
  {
    ConditionsKeepTheirMeaning(env, cols, rule, l.when, v);
  }

  /** `l` is the compiled form of the authored line, wherever it is numbered. */
  ghost predicate CompiledFrom(env: Env, cols: seq<SeriesColumn>, a: AuthoredLine, l: Line) {
    exists index: nat :: l == LineAt(env, cols, index, a)
  }

  ghost predicate SameLine(env: Env, cols: seq<SeriesColumn>, a: Option<AuthoredLine>, l: Option<Line>) {
    match (a, l)
    case (None, None) => true
    case (Some(a), Some(l)) => CompiledFrom(env, cols, a, l)
    case _ => false
  }

  lemma {:induction false} FirstLineIsTheAuthoredOne(env: Env, cols: seq<SeriesColumn>, rule: Rule, first: nat,
                                                     ls: seq<AuthoredLine>, stage: nat, v: View,
                                                     bound: Option<Option<nat>>)
    requires SignalsFrom(env, cols, rule) && LinesNamed(env, ls) && DistinctNames(env.stages) && v.pos.Some?
    ensures LinesOk(rule, LinesAt(env, cols, first, ls))
    ensures SameLine(env, cols, FirstAuthored(env, ls, stage, v, bound),
                     FirstActing(rule, LinesAt(env, cols, first, ls), v.coin, v.pos.value, stage, v.now, bound))
  {
    if ls != [] {
      var n := |ls| - 1;
      FirstLineIsTheAuthoredOne(env, cols, rule, first, ls[..n], stage, v, bound);
      var before := LinesAt(env, cols, first, ls[..n]);
      if ls[n].off {
        assert LinesAt(env, cols, first, ls) == before;
      } else {
        var index := LineStart(first, ls[..n]);
        var one := LineAt(env, cols, index, ls[n]);
        LineActsAsAuthored(env, cols, rule, index, ls[n], stage, v, bound);
        FirstActingOverTwo(rule, before, [one], v.coin, v.pos.value, stage, v.now, bound);
        assert LinesAt(env, cols, first, ls) == before + [one];
        assert CompiledFrom(env, cols, ls[n], one);
      }
    }
  }

  // ---- the tree -------------------------------------------------------------

  /** How many leading phases are over; `until`s see no position. */
  function PhaseOf(env: Env, untils: seq<seq<Cond>>, v: View): (n: nat)
    requires forall u | u in untils :: CondsNamed(env, u)
    ensures n <= |untils|
    ensures forall i | 0 <= i < n :: ListMeans(env, untils[i], v.(pos := None))
    ensures n < |untils| ==> !ListMeans(env, untils[n], v.(pos := None))
  {
    if untils == [] || !ListMeans(env, untils[0], v.(pos := None)) then 0 else 1 + PhaseOf(env, untils[1..], v)
  }

  /** The first situation whose `when` holds, else the last. */
  function SituationOf(env: Env, whens: seq<seq<Cond>>, v: View): (n: nat)
    requires forall w | w in whens :: CondsNamed(env, w)
    ensures n <= |whens|
    ensures forall i | 0 <= i < n :: !ListMeans(env, whens[i], v)
    ensures n < |whens| ==> ListMeans(env, whens[n], v)
  {
    if whens == [] || ListMeans(env, whens[0], v) then 0 else 1 + SituationOf(env, whens[1..], v)
  }

  lemma PhaseIsTheAuthoredOne(env: Env, cols: seq<SeriesColumn>, rule: Rule, untils: seq<seq<Cond>>, v: View)
    requires SignalsFrom(env, cols, rule) && forall u | u in untils :: CondsNamed(env, u)
    ensures forall u | u in ListsAt(env, cols, untils) :: CondsOk(rule, u)
    ensures Phase(rule, ListsAt(env, cols, untils), v.coin, v.now) == PhaseOf(env, untils, v)
  {
    ListsAreOk(env, cols, rule, untils, v);
    ListsAtAre(env, cols, untils);
    forall i | 0 <= i < |untils|
      ensures AllHold(rule, ListsAt(env, cols, untils)[i], v.coin, None, v.now) <==> ListMeans(env, untils[i], v.(pos := None))
    {
      ConditionsKeepTheirMeaning(env, cols, rule, untils[i], v.(pos := None));
    }
  }

  lemma SituationIsTheAuthoredOne(env: Env, cols: seq<SeriesColumn>, rule: Rule, whens: seq<seq<Cond>>, v: View)
    requires SignalsFrom(env, cols, rule) && forall w | w in whens :: CondsNamed(env, w)
    ensures forall w | w in ListsAt(env, cols, whens) :: CondsOk(rule, w)
    ensures Situation(rule, ListsAt(env, cols, whens), v.coin, v.pos, v.now) == SituationOf(env, whens, v)
  {
    ListsAreOk(env, cols, rule, whens, v);
    ListsAtAre(env, cols, whens);
    forall i | 0 <= i < |whens|
      ensures AllHold(rule, ListsAt(env, cols, whens)[i], v.coin, v.pos, v.now) <==> ListMeans(env, whens[i], v)
    {
      ConditionsKeepTheirMeaning(env, cols, rule, whens[i], v);
    }
  }

  function PhaseName(env: Env, t: TreeDef, v: View): string
    requires TreeNamed(env, t)
  {
    t.phases[PhaseOf(env, Untils(t.phases), v)].name
  }

  function SituationName(env: Env, t: TreeDef, v: View): string
    requires TreeNamed(env, t)
  {
    t.situations[SituationOf(env, Whens(t.situations), v)].name
  }

  /** The lines of the most specific entry for the phase and situation the coin is in. */
  function EntryLines(env: Env, t: TreeDef, v: View): (ls: seq<AuthoredLine>)
    requires TreeNamed(env, t)
    ensures LinesNamed(env, ls)
  {
    match EntryFor(t.cells, PhaseName(env, t, v), SituationName(env, t, v))
    case None => []
    case Some(i) => t.cells[i].on
  }

  lemma CellIndex(phase: nat, situation: nat, t: TreeDef)
    requires phase < |t.phases| && situation < |t.situations|
    ensures var cell := CellNumber(phase, situation, |t.situations|);
            cell < |t.phases| * |t.situations| && cell / |t.situations| == phase && cell % |t.situations| == situation
  {
    var n := |t.situations|;
    var cell := phase * n + situation;
    CellInRange(phase, situation, |t.phases|, n);
    var q, r := cell / n, cell % n;
    assert cell == q * n + r;
    if phase < q {
      MulMono(phase + 1, q, n);
    } else if q < phase {
      MulMono(q + 1, phase, n);
    }
  }

  lemma CellIsPhaseBySituation(env: Env, cols: seq<SeriesColumn>, rule: Rule, first: nat, t: TreeDef,
                               allowed: seq<(Option<string>, Option<string>)>, v: View)
    requires SignalsFrom(env, cols, rule) && TreeNamed(env, t)
    requires TreeOk(rule, TreeAt(env, cols, first, t, allowed))
    ensures var tree := TreeAt(env, cols, first, t, allowed);
            var cell := TreeCell(rule, tree, v.coin, v.pos, v.now);
            && cell / |t.situations| == PhaseOf(env, Untils(t.phases), v)
            && cell % |t.situations| == SituationOf(env, Whens(t.situations), v)
            && cell < |t.phases| * |t.situations|
  {
    PhaseIsTheAuthoredOne(env, cols, rule, Untils(t.phases), v);
    SituationIsTheAuthoredOne(env, cols, rule, Whens(t.situations), v);
    ListsAtAre(env, cols, Whens(t.situations));
    var tree := TreeAt(env, cols, first, t, allowed);
    var phase, situation := PhaseOf(env, Untils(t.phases), v), SituationOf(env, Whens(t.situations), v);
    assert Situations(tree) == |t.situations|;
    assert TreeCell(rule, tree, v.coin, v.pos, v.now) == CellNumber(phase, situation, |t.situations|);
    CellIndex(phase, situation, t);
  }

  lemma CellEntryIs(env: Env, t: TreeDef, cell: nat, v: View)
    requires TreeNamed(env, t) && cell < |t.phases| * |t.situations|
    requires cell / |t.situations| == PhaseOf(env, Untils(t.phases), v)
    requires cell % |t.situations| == SituationOf(env, Whens(t.situations), v)
    ensures |CellEntries(t)| == |t.phases| * |t.situations|
    ensures CellEntries(t)[cell] == EntryFor(t.cells, PhaseName(env, t, v), SituationName(env, t, v))
  {
  }

  lemma CellRunsItsEntry(env: Env, cols: seq<SeriesColumn>, first: nat, t: TreeDef,
                         allowed: seq<(Option<string>, Option<string>)>, cell: nat, v: View)
    requires TreeNamed(env, t) && cell < |t.phases| * |t.situations|
    requires cell / |t.situations| == PhaseOf(env, Untils(t.phases), v)
    requires cell % |t.situations| == SituationOf(env, Whens(t.situations), v)
    ensures RunsLines(env, cols, EntryLines(env, t, v), CellLines(TreeAt(env, cols, first, t, allowed), cell))
  {
    var tree := TreeAt(env, cols, first, t, allowed);
    CellEntryIs(env, t, cell, v);
    EntriesAtLength(env, cols, first, t.cells);
    var entry := EntryFor(t.cells, PhaseName(env, t, v), SituationName(env, t, v));
    assert tree.cellEntry[cell] == entry;
    if entry.None? {
      assert CellLines(tree, cell) == LinesAt(env, cols, 0, []);
    } else {
      EntriesAtAre(env, cols, first, t.cells, entry.value);
      var at: nat :| tree.entries[entry.value] == LinesAt(env, cols, at, t.cells[entry.value].on);
      assert CellLines(tree, cell) == LinesAt(env, cols, at, t.cells[entry.value].on);
    }
  }

  ghost predicate RunsLines(env: Env, cols: seq<SeriesColumn>, ls: seq<AuthoredLine>, out: seq<Line>) {
    exists first: nat :: out == LinesAt(env, cols, first, ls)
  }

  /** The tree of a rule that carries the compiled one. */
  lemma TreeCellIsTheAuthoredOne(env: Env, cols: seq<SeriesColumn>, rule: Rule, first: nat, t: TreeDef,
                                 allowed: seq<(Option<string>, Option<string>)>, v: View)
    requires SignalsFrom(env, cols, rule) && TreeNamed(env, t)
    requires TreeOk(rule, TreeAt(env, cols, first, t, allowed))
    ensures var tree := TreeAt(env, cols, first, t, allowed);
            var cell := TreeCell(rule, tree, v.coin, v.pos, v.now);
            && RunsLines(env, cols, EntryLines(env, t, v), CellLines(tree, cell))
            && tree.entryOk[cell] == MayBuyIn(allowed, PhaseName(env, t, v), SituationName(env, t, v))
  {
    CellIsPhaseBySituation(env, cols, rule, first, t, allowed, v);
    var cell := TreeCell(rule, TreeAt(env, cols, first, t, allowed), v.coin, v.pos, v.now);
    CellRunsItsEntry(env, cols, first, t, allowed, cell, v);
  }

  /** The compiled cell is the authored phase and situation: it runs the compiled lines of
      the most specific entry, and a buy may start in it when the entry block says so. */
  lemma CellIsTheAuthoredOne(env: Env, p: Params, v: View)
    requires Named(env, p) && p.tree.Some?
    ensures Wf(Compiled(env, p)) && Compiled(env, p).tree.Some?
    ensures var tree := Compiled(env, p).tree.value;
            var cell := TreeCell(Compiled(env, p), tree, v.coin, v.pos, v.now);
            && RunsLines(env, FinalColumns(env, p), EntryLines(env, p.tree.value, v), CellLines(tree, cell))
            && tree.entryOk[cell] == MayBuyIn(p.enter.cells, PhaseName(env, p.tree.value, v), SituationName(env, p.tree.value, v))
  {
    CompiledRuleIsWellFormed(env, p, v);
    TreeCellIsTheAuthoredOne(env, FinalColumns(env, p), Compiled(env, p), FirstCellLine(env, p), p.tree.value, p.enter.cells, v);
  }

  // ---- one held step --------------------------------------------------------

  datatype Pick = Nothing | StopOut | TakeProfitNow | Take(line: AuthoredLine) | MoveTo(name: string)

  /** Our profit in percent, when we hold something it can be read on. */
  function Profit(v: View): Reading
    requires v.pos.Some?
  {
    v.coin.anchored(PnlPct, v.pos.value)
  }

  predicate Stopped(p: Params, v: View)
    requires v.pos.Some?
  {
    p.stopLoss.Some? && Profit(v).Value? && Profit(v).v <= -p.stopLoss.value
  }

  predicate TookProfit(p: Params, v: View)
    requires v.pos.Some?
  {
    p.takeProfit.Some? && Profit(v).Value? && Profit(v).v >= p.takeProfit.value
  }

  predicate Over(s: Stage, v: View)
    requires v.pos.Some?
  {
    match s.ends
    case None => false
    case Some((basis, secs)) =>
      match basis
      case Age => v.coin.ageSec(v.now) >= secs
      case Held => HeldFor(v.pos.value, v.now) >= secs
      case Stage => InStageFor(v.pos.value, v.now) >= secs
  }

  function Taken(l: Option<AuthoredLine>): Pick {
    match l
    case None => Nothing
    case Some(l) => Take(l)
  }

  /** The name a passed deadline leads to; "" past the last stage. */
  function NextName(p: Params, stage: nat): string
    requires stage < |p.stages|
  {
    if p.stages[stage].next.Some? then p.stages[stage].next.value
    else if stage + 1 < |p.stages| then p.stages[stage + 1].name
    else ""
  }

  function StagePick(env: Env, p: Params, stage: nat, v: View, bound: Option<Option<nat>>): Pick
    requires Named(env, p) && v.pos.Some? && stage < |p.stages|
  {
    var s := p.stages[stage];
    assert StageNamed(env, s);
    if Over(s, v) then
      var last := FirstAuthored(env, s.atEnd, stage, v, bound);
      if last.Some? then Take(last.value) else MoveTo(NextName(p, stage))
    else
      Taken(FirstAuthored(env, s.on, stage, v, bound))
  }

  /** What the authored rule asks for: stop loss, take profit, the `always` lines, then the
      tree entry of the moment or the stage's own lines. */
  function AuthoredPick(env: Env, p: Params, stage: nat, v: View, bound: Option<Option<nat>>): Pick
    requires Named(env, p) && v.pos.Some?
  {
    if Stopped(p, v) then StopOut
    else if TookProfit(p, v) then TakeProfitNow
    else
      var first := FirstAuthored(env, p.always, stage, v, bound);
      if first.Some? then Take(first.value)
      else if p.tree.Some? then Taken(FirstAuthored(env, EntryLines(env, p.tree.value, v), stage, v, bound))
      else if stage >= |p.stages| then Nothing
      else StagePick(env, p, stage, v, bound)
  }

  /** The compiled step is the authored pick: the same shortcut, the compiled form of the
      same line, or the move to the stage of that name. */
  ghost predicate SameStep(env: Env, cols: seq<SeriesColumn>, pick: Pick, step: HeldStep) {
    match pick
    case Nothing => step == NoStep
    case StopOut => step.ActLine? && step.line.sell == Some(Sell(StopLoss, None, false)) && step.line.go == None
    case TakeProfitNow => step.ActLine? && step.line.sell == Some(Sell(TakeProfit, None, false)) && step.line.go == None
    case Take(l) => step.ActLine? && CompiledFrom(env, cols, l, step.line)
    case MoveTo(name) =>
      step.MoveOn? && if step.stage < |env.stages| then env.stages[step.stage] == name else name == ""
  }

  lemma ShortcutActs(env: Env, rule: Rule, index: nat, op: Operator, value: real, reason: ExitReason, stage: nat,
                     v: View, bound: Option<Option<nat>>)
    requires v.pos.Some? && (op.Lte? || op.Gte?)
    ensures Acts(rule, PnlLine(env, [], index, op, value, reason), v.coin, v.pos.value, stage, v.now, bound)
            <==> Profit(v).Value? && if op.Lte? then Profit(v).v <= value else Profit(v).v >= value
  {
    var l := PnlLine(env, [], index, op, value, reason);
    var arm := [Condition(op, value)];
    assert l.conds[0].m.conds == [arm];
    assert arm[0] in arm && arm in [arm];
    assert l.conds[0] in l.conds;
    var x := Profit(v);
    assert x.Value? ==> (ArmHolds(arm, x.v, 1.0) <==> EvalFinite(arm[0], x.v, 1.0));
    assert ReqHolds(l.conds[0].m, v.coin, v.pos, v.now) <==> x.Value? && EvalFinite(arm[0], x.v, 1.0);
    assert AllHold(rule, l.conds, v.coin, v.pos, v.now) <==> ReqHolds(l.conds[0].m, v.coin, v.pos, v.now);
  }

  lemma ShortcutsActAsAuthored(env: Env, rule: Rule, p: Params, stage: nat, v: View, bound: Option<Option<nat>>)
    requires v.pos.Some? && LinesOk(rule, Shortcuts(env, p))
    ensures var first := FirstActing(rule, Shortcuts(env, p), v.coin, v.pos.value, stage, v.now, bound);
            if Stopped(p, v) then first.Some? && first.value.sell == Some(Sell(StopLoss, None, false)) && first.value.go == None
            else if TookProfit(p, v) then first.Some? && first.value.sell == Some(Sell(TakeProfit, None, false)) && first.value.go == None
            else first.None?
  {
    var ls := Shortcuts(env, p);
    if p.stopLoss.Some? {
      ShortcutActs(env, rule, 0, Lte, -p.stopLoss.value, StopLoss, stage, v, bound);
    }
    if p.takeProfit.Some? {
      ShortcutActs(env, rule, |StopLine(env, p)|, Gte, p.takeProfit.value, TakeProfit, stage, v, bound);
    }
    if |ls| == 2 {
      assert ls[1..][0] == ls[1] && ls[1..][1..] == [];
    } else if |ls| == 1 {
      assert ls[1..] == [];
    }
  }

  lemma PlanActsAsAuthored(env: Env, cols: seq<SeriesColumn>, rule: Rule, start: nat, p: Params, stage: nat,
                           plan: StagePlan, v: View, bound: Option<Option<nat>>)
    requires SignalsFrom(env, cols, rule) && Named(env, p) && v.pos.Some? && stage < |p.stages|
    requires plan == StageAt(env, cols, start, stage, p.stages[stage])
    ensures LinesOk(rule, plan.on) && LinesOk(rule, plan.atEnd)
    ensures DeadlineReached(plan, v.coin, v.pos.value, v.now) <==> Over(p.stages[stage], v)
    ensures Over(p.stages[stage], v) ==> plan.next.Some? && SameStep(env, cols, MoveTo(NextName(p, stage)), MoveOn(plan.next.value))
    ensures SameStep(env, cols, StagePick(env, p, stage, v, bound), PlanStep(rule, plan, v, stage, bound))
  {
    var s := p.stages[stage];
    assert StageNamed(env, s);
    FirstLineIsTheAuthoredOne(env, cols, rule, start, s.on, stage, v, bound);
    FirstLineIsTheAuthoredOne(env, cols, rule, LineStart(start, s.on), s.atEnd, stage, v, bound);
  }

  /** The step a stage plan takes once no `always` line acted. */
  function PlanStep(rule: Rule, plan: StagePlan, v: View, stage: nat, bound: Option<Option<nat>>): HeldStep
    requires LinesOk(rule, plan.on) && LinesOk(rule, plan.atEnd) && v.pos.Some?
  {
    if DeadlineReached(plan, v.coin, v.pos.value, v.now) then
      var last := FirstActing(rule, plan.atEnd, v.coin, v.pos.value, stage, v.now, bound);
      if last.Some? then ActLine(last.value) else if plan.next.Some? then MoveOn(plan.next.value) else NoStep
    else
      LineStep(FirstActing(rule, plan.on, v.coin, v.pos.value, stage, v.now, bound))
  }

  ghost predicate AlwaysSame(env: Env, cols: seq<SeriesColumn>, p: Params, rule: Rule, stage: nat, v: View,
                             bound: Option<Option<nat>>)
    requires Named(env, p) && LinesOk(rule, rule.always) && v.pos.Some?
  {
    var first := FirstActing(rule, rule.always, v.coin, v.pos.value, stage, v.now, bound);
    if Stopped(p, v) then first.Some? && SameStep(env, cols, StopOut, ActLine(first.value))
    else if TookProfit(p, v) then first.Some? && SameStep(env, cols, TakeProfitNow, ActLine(first.value))
    else SameLine(env, cols, FirstAuthored(env, p.always, stage, v, bound), first)
  }

  ghost predicate TreeSame(env: Env, cols: seq<SeriesColumn>, t: TreeDef, rule: Rule, stage: nat, v: View,
                           bound: Option<Option<nat>>)
    requires TreeNamed(env, t) && Wf(rule) && rule.tree.Some? && v.pos.Some?
  {
    SameLine(env, cols, FirstAuthored(env, EntryLines(env, t, v), stage, v, bound),
             FirstActing(rule, CellLines(rule.tree.value, TreeCell(rule, rule.tree.value, v.coin, v.pos, v.now)), v.coin, v.pos.value, stage, v.now, bound))
  }

  lemma AlwaysStepIsTheAuthoredOne(env: Env, p: Params, stage: nat, v: View, bound: Option<Option<nat>>)
    requires Named(env, p) && v.pos.Some?
    ensures Wf(Compiled(env, p)) && AlwaysSame(env, FinalColumns(env, p), p, Compiled(env, p), stage, v, bound)
  {
    var rule, cols := Compiled(env, p), FinalColumns(env, p);
    CompiledRuleIsWellFormed(env, p, v);
    AlwaysIsOk(env, cols, rule, p, v);
    ShortcutsActAsAuthored(env, rule, p, stage, v, bound);
    FirstLineIsTheAuthoredOne(env, cols, rule, |Shortcuts(env, p)|, p.always, stage, v, bound);
    FirstActingOverTwo(rule, Shortcuts(env, p), LinesAt(env, cols, |Shortcuts(env, p)|, p.always), v.coin, v.pos.value, stage, v.now, bound);
  }

  lemma TreeStepIsTheAuthoredOne(env: Env, p: Params, stage: nat, v: View, bound: Option<Option<nat>>)
    requires Named(env, p) && v.pos.Some? && p.tree.Some?
    ensures Wf(Compiled(env, p)) && Compiled(env, p).tree.Some?
    ensures TreeSame(env, FinalColumns(env, p), p.tree.value, Compiled(env, p), stage, v, bound)
  {
    var rule, cols, authored := Compiled(env, p), FinalColumns(env, p), EntryLines(env, p.tree.value, v);
    CellIsTheAuthoredOne(env, p, v);
    var lines := CellLines(rule.tree.value, TreeCell(rule, rule.tree.value, v.coin, v.pos, v.now));
    assert RunsLines(env, cols, authored, lines);
    var first: nat :| lines == LinesAt(env, cols, first, authored);
    FirstLineIsTheAuthoredOne(env, cols, rule, first, authored, stage, v, bound);
  }

  lemma StageStepIsTheAuthoredOne(env: Env, p: Params, stage: nat, v: View, bound: Option<Option<nat>>)
    requires Named(env, p) && v.pos.Some? && stage < |p.stages|
    ensures var rule := Compiled(env, p);
            && Wf(rule) && |rule.stages| == |p.stages|
            && LinesOk(rule, rule.stages[stage].on) && LinesOk(rule, rule.stages[stage].atEnd)
            && SameStep(env, FinalColumns(env, p), StagePick(env, p, stage, v, bound), PlanStep(rule, rule.stages[stage], v, stage, bound))
  {
    var rule, cols := Compiled(env, p), FinalColumns(env, p);
    CompiledRuleIsWellFormed(env, p, v);
    StagesAtAre(env, cols, FirstStageLine(env, p), p.stages, stage);
    var start: nat :| rule.stages[stage] == StageAt(env, cols, start, stage, p.stages[stage]);
    PlanActsAsAuthored(env, cols, rule, start, p, stage, rule.stages[stage], v, bound);
  }

  /** Parts that agree make steps that agree. */
  lemma StepsCompose(env: Env, cols: seq<SeriesColumn>, p: Params, rule: Rule, stage: nat, v: View,
                     bound: Option<Option<nat>>)
    requires Named(env, p) && Wf(rule) && v.pos.Some? && (rule.tree.Some? <==> p.tree.Some?)
    requires AlwaysSame(env, cols, p, rule, stage, v, bound)
    requires p.tree.Some? ==> TreeSame(env, cols, p.tree.value, rule, stage, v, bound)
    requires if p.stages == [] then rule.stages == [MAIN_STAGE] else |rule.stages| == |p.stages|
    requires p.tree.None? && stage < |p.stages| ==>
               SameStep(env, cols, StagePick(env, p, stage, v, bound), PlanStep(rule, rule.stages[stage], v, stage, bound))
    ensures SameStep(env, cols, AuthoredPick(env, p, stage, v, bound), HeldLineBound(rule, v.coin, v.pos.value, stage, v.now, bound))
  {
  }

  /** The compiled rule takes the step the authored rule asks for, from every position, stage,
      coin and instant, whether or not the position follows one wallet. */
  lemma CompiledStepIsTheAuthoredOne(env: Env, p: Params, stage: nat, v: View, bound: Option<Option<nat>>)
    requires Named(env, p) && v.pos.Some?
    ensures Wf(Compiled(env, p))
    ensures SameStep(env, FinalColumns(env, p), AuthoredPick(env, p, stage, v, bound),
                     HeldLineBound(Compiled(env, p), v.coin, v.pos.value, stage, v.now, bound))
  {
    AlwaysStepIsTheAuthoredOne(env, p, stage, v, bound);
    StagesAtLength(env, FinalColumns(env, p), FirstStageLine(env, p), p.stages);
    if p.tree.Some? {
      TreeStepIsTheAuthoredOne(env, p, stage, v, bound);
    } else if stage < |p.stages| {
      StageStepIsTheAuthoredOne(env, p, stage, v, bound);
    }
    StepsCompose(env, FinalColumns(env, p), p, Compiled(env, p), stage, v, bound);
  }

  // ---- entry ----------------------------------------------------------------

  /** A live authored sell line that would have something to do in the first stage and whose
      conditions already hold with no position. */
  predicate VetoesAsAuthored(env: Env, l: AuthoredLine, v: View)
    requires LineNamed(env, l)
  {
    !l.off && l.sell.Some? && !NothingToDo(env, l, 0) && ListMeans(env, l.when, v)
  }

  lemma LineVetoesAsAuthored(env: Env, cols: seq<SeriesColumn>, rule: Rule, index: nat, l: AuthoredLine, v: View)
    requires SignalsFrom(env, cols, rule) && LineNamed(env, l) && DistinctNames(env.stages) && !l.off && v.pos.None?
    ensures CondsOk(rule, LineAt(env, cols, index, l).conds)
    ensures VetoedBy(rule, LineAt(env, cols, index, l), v.coin, v.now) <==> VetoesAsAuthored(env, l, v)
  {
    ConditionsKeepTheirMeaning(env, cols, rule, l.when, v);
  }

  predicate AnyVeto(rule: Rule, ls: seq<Line>, coin: Reads, now: Ts)
    requires LinesOk(rule, ls)
  {
    exists l | l in ls :: VetoedBy(rule, l, coin, now)
  }

  predicate AnyAuthoredVeto(env: Env, ls: seq<AuthoredLine>, v: View)
    requires LinesNamed(env, ls)
  {
    exists l | l in ls :: VetoesAsAuthored(env, l, v)
  }

  lemma {:induction false} LinesVetoAsAuthored(env: Env, cols: seq<SeriesColumn>, rule: Rule, first: nat,
                                               ls: seq<AuthoredLine>, v: View)
    requires SignalsFrom(env, cols, rule) && LinesNamed(env, ls) && DistinctNames(env.stages) && v.pos.None?
    ensures LinesOk(rule, LinesAt(env, cols, first, ls))
    ensures AnyVeto(rule, LinesAt(env, cols, first, ls), v.coin, v.now) <==> AnyAuthoredVeto(env, ls, v)
  {
    if ls != [] {
      var n := |ls| - 1;
      LinesVetoAsAuthored(env, cols, rule, first, ls[..n], v);
      assert ls == ls[..n] + [ls[n]];
      assert AnyAuthoredVeto(env, ls, v) <==> AnyAuthoredVeto(env, ls[..n], v) || VetoesAsAuthored(env, ls[n], v);
      var before := LinesAt(env, cols, first, ls[..n]);
      if ls[n].off {
        assert LinesAt(env, cols, first, ls) == before;
      } else {
        var one := LineAt(env, cols, LineStart(first, ls[..n]), ls[n]);
        LineVetoesAsAuthored(env, cols, rule, LineStart(first, ls[..n]), ls[n], v);
        assert LinesAt(env, cols, first, ls) == before + [one];
        assert AnyVeto(rule, before + [one], v.coin, v.now) <==> AnyVeto(rule, before, v.coin, v.now) || VetoedBy(rule, one, v.coin, v.now);
      }
    }
  }

  /** Stop loss and take profit read a position, so neither ever vetoes. */
  lemma ShortcutsNeverVeto(env: Env, p: Params, rule: Rule, coin: Reads, now: Ts)
    requires LinesOk(rule, Shortcuts(env, p))
    ensures !AnyVeto(rule, Shortcuts(env, p), coin, now)
  {
    forall l | l in Shortcuts(env, p)
      ensures !VetoedBy(rule, l, coin, now)
    {
      assert l.conds[0] in l.conds && ReadReq(l.conds[0].m, coin, None, now) == Undefined;
    }
  }

  /** The lines that could act right after a buy: the `always` lines, and the first stage's
      or those of the tree entry of the moment. */
  function FirstAuthoredLines(env: Env, p: Params, v: View): (ls: seq<AuthoredLine>)
    requires Named(env, p)
    ensures LinesNamed(env, ls)
  {
    if p.tree.Some? then EntryLines(env, p.tree.value, v)
    else if p.stages == [] then []
    else
      assert StageNamed(env, p.stages[0]);
      p.stages[0].on
  }

  predicate MayBuyHere(env: Env, p: Params, v: View)
    requires Named(env, p)
  {
    p.tree.Some? ==> MayBuyIn(p.enter.cells, PhaseName(env, p.tree.value, v), SituationName(env, p.tree.value, v))
  }

  lemma FirstLinesAreTheAuthoredOnes(env: Env, p: Params, v: View)
    requires Named(env, p) && v.pos.None?
    ensures Wf(Compiled(env, p))
    ensures RunsLines(env, FinalColumns(env, p), FirstAuthoredLines(env, p, v), FirstLines(Compiled(env, p), v.coin, v.now))
    ensures EntryCellOk(Compiled(env, p), v.coin, v.now) == MayBuyHere(env, p, v)
  {
    var rule, cols := Compiled(env, p), FinalColumns(env, p);
    CompiledRuleIsWellFormed(env, p, v);
    if p.tree.Some? {
      CellIsTheAuthoredOne(env, p, v);
    } else if p.stages == [] {
      assert FirstLines(rule, v.coin, v.now) == LinesAt(env, cols, 0, []);
    } else {
      StagesAtAre(env, cols, FirstStageLine(env, p), p.stages, 0);
      var start: nat :| rule.stages[0] == StageAt(env, cols, start, 0, p.stages[0]);
      assert FirstLines(rule, v.coin, v.now) == LinesAt(env, cols, start, p.stages[0].on);
    }
  }

  lemma VetoIsTheAuthoredOne(env: Env, p: Params, v: View)
    requires Named(env, p) && v.pos.None?
    ensures Wf(Compiled(env, p))
    ensures SellLineHoldingBeforeEntry(Compiled(env, p), v.coin, v.now).Some?
            <==> AnyAuthoredVeto(env, p.always, v) || AnyAuthoredVeto(env, FirstAuthoredLines(env, p, v), v)
  {
    var rule, cols := Compiled(env, p), FinalColumns(env, p);
    FirstLinesAreTheAuthoredOnes(env, p, v);
    AlwaysIsOk(env, cols, rule, p, v);
    ShortcutsNeverVeto(env, p, rule, v.coin, v.now);
    var shortcuts := Shortcuts(env, p);
    LinesVetoAsAuthored(env, cols, rule, |shortcuts|, p.always, v);
    var first: nat :| FirstLines(rule, v.coin, v.now) == LinesAt(env, cols, first, FirstAuthoredLines(env, p, v));
    LinesVetoAsAuthored(env, cols, rule, first, FirstAuthoredLines(env, p, v), v);
    var a, b, c := shortcuts, LinesAt(env, cols, |shortcuts|, p.always), FirstLines(rule, v.coin, v.now);
    assert rule.always == a + b;
    assert forall l :: l in (a + b) + c <==> l in a || l in b || l in c;
  }

  lemma EntryListsAreTheAuthoredOnes(env: Env, p: Params, v: View)
    requires Named(env, p) && v.pos.None?
    ensures Wf(Compiled(env, p))
    ensures EventSatisfied(Compiled(env, p), v.coin, v.now) <==> ListMeans(env, p.enter.event, v)
    ensures FiltersSatisfied(Compiled(env, p), v.coin, v.now) <==> ListMeans(env, p.enter.filters, v)
    ensures FinalFiltersSatisfied(Compiled(env, p), v.coin, v.now) <==> ListMeans(env, p.enter.finalFilters, v)
  {
    var rule, cols := Compiled(env, p), FinalColumns(env, p);
    CompiledRuleIsWellFormed(env, p, v);
    ConditionsKeepTheirMeaning(env, cols, rule, p.enter.event, v);
    ConditionsKeepTheirMeaning(env, cols, rule, p.enter.filters, v);
    ConditionsKeepTheirMeaning(env, cols, rule, p.enter.finalFilters, v);
  }

  /** What the authored entry block asks for: its three lists hold, the coin is in an allowed
      cell, and no live sell line already holds. */
  predicate AuthoredEntry(env: Env, p: Params, v: View)
    requires Named(env, p)
  {
    && ListMeans(env, p.enter.event, v) && ListMeans(env, p.enter.filters, v) && ListMeans(env, p.enter.finalFilters, v)
    && MayBuyHere(env, p, v)
    && !AnyAuthoredVeto(env, p.always, v) && !AnyAuthoredVeto(env, FirstAuthoredLines(env, p, v), v)
  }

  /** The compiled rule may buy exactly when the authored entry block lets it. */
  lemma CompiledEntryIsTheAuthoredOne(env: Env, p: Params, v: View)
    requires Named(env, p) && v.pos.None?
    ensures Wf(Compiled(env, p))
    ensures CanEnter(Compiled(env, p), v.coin, v.now) <==> AuthoredEntry(env, p, v)
  {
    EntryListsAreTheAuthoredOnes(env, p, v);
    FirstLinesAreTheAuthoredOnes(env, p, v);
    VetoIsTheAuthoredOne(env, p, v);
  }

  /** Everything lets the buy through but a final filter. */
  predicate OnlyFinalSaysNo(env: Env, p: Params, v: View)
    requires Named(env, p)
  {
    && ListMeans(env, p.enter.event, v) && ListMeans(env, p.enter.filters, v) && !ListMeans(env, p.enter.finalFilters, v)
    && MayBuyHere(env, p, v)
    && !AnyAuthoredVeto(env, p.always, v) && !AnyAuthoredVeto(env, FirstAuthoredLines(env, p, v), v)
  }

  /** What the authored entry block asks for under its lock: with none, each instant is a try;
      under `token` a print alone is, once; under `slot` one instant of each slot is. */
  function AuthoredVerdict(env: Env, p: Params, v: View, lockedSlot: Option<nat>, onPrint: bool): Verdict
    requires Named(env, p)
  {
    match p.enter.lock
    case Unlocked =>
      if AuthoredEntry(env, p, v) then Enter else if OnlyFinalSaysNo(env, p, v) then Exhaust else No
    case LockToken =>
      if !onPrint || !ListMeans(env, p.enter.event, v) then No else if AuthoredEntry(env, p, v) then Enter else Exhaust
    case LockSlot =>
      if (v.coin.slot > 0 && lockedSlot == Some(v.coin.slot)) || !ListMeans(env, p.enter.event, v) then No
      else if AuthoredEntry(env, p, v) then Enter
      else if OnlyFinalSaysNo(env, p, v) then Exhaust
      else SpendSlot
  }

  /** The compiled rule's whole verdict is the authored one: on every coin and instant, under
      every lock, on a print or a tick. */
  lemma CompiledVerdictIsTheAuthoredOne(env: Env, p: Params, v: View, lockedSlot: Option<nat>, onPrint: bool)
    requires Named(env, p) && v.pos.None?
    ensures Wf(Compiled(env, p))
    ensures TryEnter(Compiled(env, p), v.coin, v.now, lockedSlot, onPrint) == AuthoredVerdict(env, p, v, lockedSlot, onPrint)
  {
    EntryListsAreTheAuthoredOnes(env, p, v);
    FirstLinesAreTheAuthoredOnes(env, p, v);
    VetoIsTheAuthoredOne(env, p, v);
    var rule := Compiled(env, p);
    PartsDecide(rule, v.coin, v.now, lockedSlot, onPrint);
    assert rule.entryLock == p.enter.lock;
  }

  lemma PartsDecide(rule: Rule, coin: Reads, now: Ts, lockedSlot: Option<nat>, onPrint: bool)
    requires Wf(rule)
    ensures var event, final := EventSatisfied(rule, coin, now), FinalFiltersSatisfied(rule, coin, now);
            var rest := FiltersSatisfied(rule, coin, now) && EntryCellOk(rule, coin, now) && SellLineHoldingBeforeEntry(rule, coin, now).None?;
            TryEnter(rule, coin, now, lockedSlot, onPrint)
            == match rule.entryLock
               case Unlocked => if !event || !rest then No else if final then Enter else Exhaust
               case LockToken => if !onPrint || !event then No else if rest && final then Enter else Exhaust
               case LockSlot =>
                 if (coin.slot > 0 && lockedSlot == Some(coin.slot)) || !event then No
                 else if !rest then SpendSlot
                 else if final then Enter
                 else Exhaust
  {
  }
}
