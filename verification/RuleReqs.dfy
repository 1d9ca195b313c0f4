/** Every metric condition of a rule, and why two sets of readings that agree on them
    decide alike. */
module RuleReqs {
  import opened Metrics
  import opened Rules

  function ReqsOf(conds: seq<CondReq>): (ms: seq<MetricReq>)
    ensures forall m :: m in ms <==> OnMetric(m) in conds
  {
    if conds == [] then []
    else (if conds[0].OnMetric? then [conds[0].m] else []) + ReqsOf(conds[1..])
  }

  function ReqsOfLists(lists: seq<seq<CondReq>>): (ms: seq<MetricReq>)
    ensures forall m :: m in ms <==> exists cs | cs in lists :: OnMetric(m) in cs
  {
    if lists == [] then [] else ReqsOf(lists[0]) + ReqsOfLists(lists[1..])
  }

  function ReqsOfLines(lines: seq<Line>): (ms: seq<MetricReq>)
    ensures forall m :: m in ms <==> exists l | l in lines :: OnMetric(m) in l.conds
  {
    if lines == [] then [] else ReqsOf(lines[0].conds) + ReqsOfLines(lines[1..])
  }

  function StageOwn(s: StagePlan): seq<Line> {
    s.on + s.atEnd
  }

  function StageLines(stages: seq<StagePlan>): seq<Line> {
    if stages == [] then [] else StageOwn(stages[0]) + StageLines(stages[1..])
  }

  lemma {:induction false} StageLinesAre(stages: seq<StagePlan>)
    ensures forall l :: l in StageLines(stages) <==> exists s | s in stages :: l in s.on || l in s.atEnd
  {
    if stages != [] {
      StageLinesAre(stages[1..]);
    }
  }

  function Flatten<T(!new)>(lists: seq<seq<T>>): (xs: seq<T>)
    ensures forall x :: x in xs <==> exists s | s in lists :: x in s
  {
    if lists == [] then [] else lists[0] + Flatten(lists[1..])
  }

  lemma FlattenOne<T(!new)>(xs: seq<T>)
    ensures Flatten([xs]) == xs
  {
    assert [xs][1..] == [] && Flatten<T>([]) == [];
  }

  function TreeLines(tree: Option<Tree>): seq<Line> {
    match tree
    case None => []
    case Some(t) => Flatten(t.entries)
  }

  function TreeConds(tree: Option<Tree>): seq<seq<CondReq>> {
    match tree
    case None => []
    case Some(t) => t.untils + t.whens
  }

  /** Every held line in index order. */
  function HeldLines(rule: Rule): seq<Line> {
    rule.always + StageLines(rule.stages) + TreeLines(rule.tree)
  }

  function AllReqs(rule: Rule): seq<MetricReq> {
    ReqsOf(rule.event + rule.filters + rule.finalFilters)
    + ReqsOfLines(HeldLines(rule))
    + ReqsOfLists(TreeConds(rule.tree))
    + Flatten(Flatten(rule.signals))
  }

  /** `AllReqs` misses no condition of the rule. */
  lemma AllReqsMissesNothing(rule: Rule)
    ensures forall m | OnMetric(m) in rule.event || OnMetric(m) in rule.filters || OnMetric(m) in rule.finalFilters :: m in AllReqs(rule)
    ensures forall l, m | l in HeldLines(rule) && OnMetric(m) in l.conds :: m in AllReqs(rule)
    ensures forall l | l in rule.always :: l in HeldLines(rule)
    ensures forall s, l | s in rule.stages && (l in s.on || l in s.atEnd) :: l in HeldLines(rule)
    ensures rule.tree.Some? ==> forall e, l | e in rule.tree.value.entries && l in e :: l in HeldLines(rule)
    ensures rule.tree.Some? ==> forall cs, m | (cs in rule.tree.value.untils || cs in rule.tree.value.whens) && OnMetric(m) in cs :: m in AllReqs(rule)
    ensures forall s, g, m | s in rule.signals && g in s && m in g :: m in AllReqs(rule)
  {
    StageLinesAre(rule.stages);
    assert forall cs | cs in TreeConds(rule.tree) :: forall m | OnMetric(m) in cs :: m in ReqsOfLists(TreeConds(rule.tree));
    forall s, g, m | s in rule.signals && g in s && m in g
      ensures m in Flatten(Flatten(rule.signals))
    {
      assert g in Flatten(rule.signals);
    }
  }

  // ---- agreement ------------------------------------------------------------

  /** One way of reading a rule: a coin, a held position if any, and an instant. */
  datatype View = View(coin: Reads, pos: Option<PositionCtx>, now: Ts)

  ghost predicate ReqAgrees(m: MetricReq, a: View, b: View) {
    && ReqHolds(m, a.coin, None, a.now) == ReqHolds(m, b.coin, None, b.now)
    && ReqHolds(m, a.coin, a.pos, a.now) == ReqHolds(m, b.coin, b.pos, b.now)
    && (m.r.metric == SoldBagPct ==> ReadReq(m, a.coin, a.pos, a.now) == ReadReq(m, b.coin, b.pos, b.now))
  }

  ghost predicate ReqsAgree(rule: Rule, a: View, b: View) {
    forall m | m in AllReqs(rule) :: ReqAgrees(m, a, b)
  }

  ghost predicate ListAgrees(rule: Rule, cs: seq<CondReq>, a: View, b: View) {
    forall m | OnMetric(m) in cs :: ReqAgrees(m, a, b)
  }

  lemma SignalsAgree(rule: Rule, i: nat, a: View, b: View)
    requires ReqsAgree(rule, a, b) && i < |rule.signals|
    ensures SignalHolds(rule.signals[i], a.coin, None, a.now) == SignalHolds(rule.signals[i], b.coin, None, b.now)
    ensures SignalHolds(rule.signals[i], a.coin, a.pos, a.now) == SignalHolds(rule.signals[i], b.coin, b.pos, b.now)
  {
    AllReqsMissesNothing(rule);
    var s := rule.signals[i];
    assert s in rule.signals;
    forall g | g in s
      ensures (forall m | m in g :: ReqHolds(m, a.coin, None, a.now)) == (forall m | m in g :: ReqHolds(m, b.coin, None, b.now))
      ensures (forall m | m in g :: ReqHolds(m, a.coin, a.pos, a.now)) == (forall m | m in g :: ReqHolds(m, b.coin, b.pos, b.now))
    {
      assert forall m | m in g :: ReqAgrees(m, a, b);
    }
  }

  lemma CondsAgree(rule: Rule, cs: seq<CondReq>, a: View, b: View)
    requires ReqsAgree(rule, a, b) && CondsOk(rule, cs) && ListAgrees(rule, cs, a, b)
    ensures AllHold(rule, cs, a.coin, None, a.now) == AllHold(rule, cs, b.coin, None, b.now)
    ensures AllHold(rule, cs, a.coin, a.pos, a.now) == AllHold(rule, cs, b.coin, b.pos, b.now)
  {
    forall c | c in cs
      ensures CondHolds(rule, c, a.coin, None, a.now) == CondHolds(rule, c, b.coin, None, b.now)
      ensures CondHolds(rule, c, a.coin, a.pos, a.now) == CondHolds(rule, c, b.coin, b.pos, b.now)
    {
      match c
      case OnMetric(m) => assert ReqAgrees(m, a, b);
      case OnSignal(i, _) => SignalsAgree(rule, i, a, b);
    }
  }

  ghost predicate LinesAgree(rule: Rule, ls: seq<Line>, a: View, b: View) {
    forall l | l in ls :: ListAgrees(rule, l.conds, a, b)
  }

  lemma {:induction false} VetoAgrees(rule: Rule, ls: seq<Line>, a: View, b: View)
    requires ReqsAgree(rule, a, b) && LinesOk(rule, ls) && LinesAgree(rule, ls, a, b)
    ensures FirstVeto(rule, ls, a.coin, a.now) == FirstVeto(rule, ls, b.coin, b.now)
  {
    if ls != [] {
      CondsAgree(rule, ls[0].conds, a, b);
      VetoAgrees(rule, ls[1..], a, b);
    }
  }

  lemma {:induction false} ActingAgrees(rule: Rule, ls: seq<Line>, a: View, b: View, stage: nat,
                                        bound: Option<Option<nat>>)
    requires ReqsAgree(rule, a, b) && LinesOk(rule, ls) && LinesAgree(rule, ls, a, b)
    requires a.pos.Some? && b.pos.Some?
    requires bound.Some? ==> a.coin.printWallet == b.coin.printWallet
    ensures FirstActing(rule, ls, a.coin, a.pos.value, stage, a.now, bound) == FirstActing(rule, ls, b.coin, b.pos.value, stage, b.now, bound)
  {
    if ls != [] {
      CondsAgree(rule, ls[0].conds, a, b);
      ActingAgrees(rule, ls[1..], a, b, stage, bound);
    }
  }

  lemma {:induction false} PhaseAgrees(rule: Rule, untils: seq<seq<CondReq>>, a: View, b: View)
    requires ReqsAgree(rule, a, b)
    requires forall u | u in untils :: CondsOk(rule, u) && ListAgrees(rule, u, a, b)
    ensures Phase(rule, untils, a.coin, a.now) == Phase(rule, untils, b.coin, b.now)
  {
    if untils != [] {
      CondsAgree(rule, untils[0], a, b);
      PhaseAgrees(rule, untils[1..], a, b);
    }
  }

  lemma {:induction false} SituationAgrees(rule: Rule, whens: seq<seq<CondReq>>, a: View, b: View)
    requires ReqsAgree(rule, a, b)
    requires forall w | w in whens :: CondsOk(rule, w) && ListAgrees(rule, w, a, b)
    ensures Situation(rule, whens, a.coin, None, a.now) == Situation(rule, whens, b.coin, None, b.now)
    ensures Situation(rule, whens, a.coin, a.pos, a.now) == Situation(rule, whens, b.coin, b.pos, b.now)
  {
    if whens != [] {
      CondsAgree(rule, whens[0], a, b);
      SituationAgrees(rule, whens[1..], a, b);
    }
  }

  lemma CellAgrees(rule: Rule, a: View, b: View)
    requires Wf(rule) && ReqsAgree(rule, a, b) && rule.tree.Some?
    ensures var t := rule.tree.value;
            && TreeCell(rule, t, a.coin, None, a.now) == TreeCell(rule, t, b.coin, None, b.now)
            && TreeCell(rule, t, a.coin, a.pos, a.now) == TreeCell(rule, t, b.coin, b.pos, b.now)
  {
    AllReqsMissesNothing(rule);
    PhaseAgrees(rule, rule.tree.value.untils, a, b);
    SituationAgrees(rule, rule.tree.value.whens, a, b);
  }

  lemma CellLinesAreHeld(rule: Rule, cell: nat)
    requires Wf(rule) && rule.tree.Some?
    ensures LinesOk(rule, CellLines(rule.tree.value, cell))
    ensures forall l | l in CellLines(rule.tree.value, cell) :: l in HeldLines(rule)
  {
  }

  lemma FirstLinesAgree(rule: Rule, a: View, b: View)
    requires Wf(rule) && ReqsAgree(rule, a, b)
    ensures FirstLines(rule, a.coin, a.now) == FirstLines(rule, b.coin, b.now)
    ensures LinesAgree(rule, rule.always + FirstLines(rule, a.coin, a.now), a, b)
  {
    AllReqsMissesNothing(rule);
    if rule.tree.Some? {
      CellAgrees(rule, a, b);
      CellLinesAreHeld(rule, TreeCell(rule, rule.tree.value, a.coin, None, a.now));
    } else {
      assert rule.stages[0] in rule.stages;
    }
  }

  lemma EntryPartsAgree(rule: Rule, a: View, b: View)
    requires Wf(rule) && ReqsAgree(rule, a, b)
    ensures EventSatisfied(rule, a.coin, a.now) == EventSatisfied(rule, b.coin, b.now)
    ensures FiltersSatisfied(rule, a.coin, a.now) == FiltersSatisfied(rule, b.coin, b.now)
    ensures FinalFiltersSatisfied(rule, a.coin, a.now) == FinalFiltersSatisfied(rule, b.coin, b.now)
    ensures EntryCellOk(rule, a.coin, a.now) == EntryCellOk(rule, b.coin, b.now)
  {
    AllReqsMissesNothing(rule);
    CondsAgree(rule, rule.event, a, b);
    CondsAgree(rule, rule.filters, a, b);
    CondsAgree(rule, rule.finalFilters, a, b);
    if rule.tree.Some? {
      CellAgrees(rule, a, b);
    }
  }

  /** Readings that agree on every condition of the rule enter alike. */
  lemma EntryAgrees(rule: Rule, a: View, b: View, lockedSlot: Option<nat>, onPrint: bool)
    requires Wf(rule) && ReqsAgree(rule, a, b)
    requires a.coin.slot == b.coin.slot
    ensures TryEnter(rule, a.coin, a.now, lockedSlot, onPrint) == TryEnter(rule, b.coin, b.now, lockedSlot, onPrint)
    ensures CanEnter(rule, a.coin, a.now) == CanEnter(rule, b.coin, b.now)
  {
    EntryPartsAgree(rule, a, b);
    FirstLinesAgree(rule, a, b);
    VetoAgrees(rule, rule.always + FirstLines(rule, a.coin, a.now), a, b);
  }

  lemma {:induction false} BagShareAgrees(rule: Rule, cs: seq<CondReq>, a: View, b: View)
    requires ListAgrees(rule, cs, a, b)
    ensures BagShare(cs, a.coin, a.pos, a.now) == BagShare(cs, b.coin, b.pos, b.now)
  {
    if cs != [] {
      if cs[0].OnMetric? {
        assert ReqAgrees(cs[0].m, a, b);
      }
      BagShareAgrees(rule, cs[1..], a, b);
    }
  }

  lemma StepAgrees(rule: Rule, held: Entered, a: View, b: View)
    requires Wf(rule) && ReqsAgree(rule, a, b)
    requires a.pos == b.pos == Some(Ctx(held))
    requires rule.followBought ==> a.coin.printWallet == b.coin.printWallet
    requires forall s | s in rule.stages :: DeadlineReached(s, a.coin, Ctx(held), a.now) == DeadlineReached(s, b.coin, Ctx(held), b.now)
    ensures PickedStep(rule, a.coin, held, a.now) == PickedStep(rule, b.coin, held, b.now)
    ensures PickedStep(rule, a.coin, held, a.now).ActLine? ==> PickedStep(rule, a.coin, held, a.now).line in HeldLines(rule)
  {
    AllReqsMissesNothing(rule);
    var bound := BoundOf(rule, held);
    ActingAgrees(rule, rule.always, a, b, held.stage, bound);
    if rule.tree.Some? {
      CellAgrees(rule, a, b);
      var cell := TreeCell(rule, rule.tree.value, a.coin, a.pos, a.now);
      ActingAgrees(rule, CellLines(rule.tree.value, cell), a, b, held.stage, bound);
    } else if held.stage < |rule.stages| {
      var current := rule.stages[held.stage];
      assert current in rule.stages;
      ActingAgrees(rule, current.on, a, b, held.stage, bound);
      ActingAgrees(rule, current.atEnd, a, b, held.stage, bound);
    }
  }

  /** Readings that agree on every condition and deadline of the rule hold alike. */
  lemma HeldAgrees(rule: Rule, held: Entered, a: View, b: View)
    requires Wf(rule) && ReqsAgree(rule, a, b)
    requires a.pos == b.pos == Some(Ctx(held))
    requires rule.followBought ==> a.coin.printWallet == b.coin.printWallet
    requires forall s | s in rule.stages :: DeadlineReached(s, a.coin, Ctx(held), a.now) == DeadlineReached(s, b.coin, Ctx(held), b.now)
    ensures HeldStepAction(rule, a.coin, held, a.now) == HeldStepAction(rule, b.coin, held, b.now)
  {
    StepAgrees(rule, held, a, b);
    var step := PickedStep(rule, a.coin, held, a.now);
    if step.ActLine? {
      AllReqsMissesNothing(rule);
      assert ListAgrees(rule, step.line.conds, a, b);
      BagShareAgrees(rule, step.line.conds, a, b);
    }
  }
}
