/** The pre-entry veto: which lines can still sell a position on the very reads that bought it. */
module Veto {
  import opened Metrics
  import opened Rules

  predicate ReqReadsPosition(m: MetricReq) {
    m.readId.PositionRead?
  }

  predicate CondReadsPosition(rule: Rule, c: CondReq)
    requires CondOk(rule, c)
  {
    match c
    case OnMetric(m) => ReqReadsPosition(m)
    case OnSignal(i, _) => exists g | g in rule.signals[i] :: exists m | m in g :: ReqReadsPosition(m)
  }

  /** The line reads our position, in a condition of its own or inside a signal. */
  predicate ReadsPosition(rule: Rule, cs: seq<CondReq>)
    requires CondsOk(rule, cs)
  {
    exists c | c in cs :: CondReadsPosition(rule, c)
  }

  lemma BlindCondsIgnoreThePosition(rule: Rule, cs: seq<CondReq>, coin: Reads, pos: PositionCtx, now: Ts)
    requires CondsOk(rule, cs) && !ReadsPosition(rule, cs)
    ensures AllHold(rule, cs, coin, None, now) == AllHold(rule, cs, coin, Some(pos), now)
  {
  }

  predicate WhensReadPosition(rule: Rule, whens: seq<seq<CondReq>>)
    requires forall w | w in whens :: CondsOk(rule, w)
  {
    exists w | w in whens :: ReadsPosition(rule, w)
  }

  lemma {:induction false} BlindWhensPickOneSituation(rule: Rule, whens: seq<seq<CondReq>>, coin: Reads,
                                                      pos: PositionCtx, now: Ts)
    requires forall w | w in whens :: CondsOk(rule, w)
    requires !WhensReadPosition(rule, whens)
    ensures Situation(rule, whens, coin, None, now) == Situation(rule, whens, coin, Some(pos), now)
  {
    if whens != [] {
      BlindCondsIgnoreThePosition(rule, whens[0], coin, pos, now);
      assert !WhensReadPosition(rule, whens[1..]);
      BlindWhensPickOneSituation(rule, whens[1..], coin, pos, now);
    }
  }

  /** A position that has just filled, copying `followed` if the rule follows one wallet. */
  function Fresh(price: real, at: Ts, reserve: Reading, followed: Option<nat>): Entered {
    AtFill(price, at, reserve).(followed := followed)
  }

  /** The lines the veto looked at. */
  function VettedLines(rule: Rule, coin: Reads, now: Ts): seq<Line>
    requires Wf(rule)
  {
    rule.always + FirstLines(rule, coin, now)
  }

  /** Where the line a step acted on came from. */
  lemma ActedLineOrigin(rule: Rule, coin: Reads, pos: PositionCtx, stage: nat, now: Ts, bound: Option<Option<nat>>)
    requires Wf(rule) && HeldLineBound(rule, coin, pos, stage, now, bound).ActLine?
    ensures var l := HeldLineBound(rule, coin, pos, stage, now, bound).line;
            && CondsOk(rule, l.conds) && Acts(rule, l, coin, pos, stage, now, bound)
            && (|| l in rule.always
                || (rule.tree.Some? && l in CellLines(rule.tree.value, TreeCell(rule, rule.tree.value, coin, Some(pos), now)))
                || (rule.tree.None? && stage < |rule.stages|
                    && l in if DeadlineReached(rule.stages[stage], coin, pos, now) then rule.stages[stage].atEnd else rule.stages[stage].on))
  {
    if FirstActing(rule, rule.always, coin, pos, stage, now, bound).None? {
      if rule.tree.Some? {
        assert LinesOk(rule, CellLines(rule.tree.value, TreeCell(rule, rule.tree.value, coin, Some(pos), now)));
      } else {
        assert rule.stages[stage] in rule.stages;
      }
    }
  }

  /** What can still sell a position right after its buy. */
  predicate Escapes(rule: Rule, l: Line, coin: Reads, pos: PositionCtx, now: Ts)
    requires Wf(rule) && CondsOk(rule, l.conds)
  {
    || ReadsPosition(rule, l.conds)
    || (&& rule.tree.Some? && WhensReadPosition(rule, rule.tree.value.whens)
        && TreeCell(rule, rule.tree.value, coin, Some(pos), now) != TreeCell(rule, rule.tree.value, coin, None, now))
    || (rule.tree.None? && l in rule.stages[0].atEnd && DeadlineReached(rule.stages[0], coin, pos, now))
  }

  lemma UnvetoedLineEscapes(rule: Rule, l: Line, coin: Reads, pos: PositionCtx, now: Ts, bound: Option<Option<nat>>)
    requires Wf(rule) && SellLineHoldingBeforeEntry(rule, coin, now).None?
    requires HeldLineBound(rule, coin, pos, 0, now, bound) == ActLine(l) && l.sell.Some?
    ensures CondsOk(rule, l.conds) && Escapes(rule, l, coin, pos, now)
  {
    ActedLineOrigin(rule, coin, pos, 0, now, bound);
    if l in VettedLines(rule, coin, now) {
    } else if rule.tree.Some? && !WhensReadPosition(rule, rule.tree.value.whens) {
      BlindWhensPickOneSituation(rule, rule.tree.value.whens, coin, pos, now);
    }
  }

  /** The veto names the first line, in order, that would sell. */
  lemma {:induction false} VetoNamesTheFirstLine(rule: Rule, ls: seq<Line>, coin: Reads, now: Ts) returns (i: nat)
    requires LinesOk(rule, ls) && FirstVeto(rule, ls, coin, now).Some?
    ensures i < |ls| && VetoedBy(rule, ls[i], coin, now) && FirstVeto(rule, ls, coin, now).value == ls[i].sell.value.reason
    ensures forall j | 0 <= j < i :: !VetoedBy(rule, ls[j], coin, now)
  {
    if VetoedBy(rule, ls[0], coin, now) {
      i := 0;
    } else {
      var k := VetoNamesTheFirstLine(rule, ls[1..], coin, now);
      assert forall j | 0 < j < k + 1 :: ls[j] == ls[1..][j - 1];
      i := k + 1;
    }
  }

  /** No buy that would sell straight back. When the armed side buys, a sell taken on the
      same reads by the position it opens comes from a line that reads that position, from a
      tree cell the position itself moved the coin into, or from a deadline already passed. */
  lemma BuyDoesNotSellStraightBack(rule: Rule, coin: Reads, now: Ts, lockedSlot: Option<nat>, onPrint: bool,
                                   price: real, reserve: Reading, followed: Option<nat>)
    requires Wf(rule)
    requires TryEnter(rule, coin, now, lockedSlot, onPrint) == Enter
    requires HeldStepAction(rule, coin, Fresh(price, now, reserve, followed), now).SellAction?
    ensures var held := Fresh(price, now, reserve, followed);
            var step := PickedStep(rule, coin, held, now);
            step.ActLine? && CondsOk(rule, step.line.conds) && Escapes(rule, step.line, coin, Ctx(held), now)
  {
    var held := Fresh(price, now, reserve, followed);
    VerdictMeaning(rule, coin, now, lockedSlot, onPrint);
    UnvetoedLineEscapes(rule, PickedStep(rule, coin, held, now).line, coin, Ctx(held), now, BoundOf(rule, held));
  }

  /** The first line that acts, with its place. */
  lemma {:induction false} FirstActingAt(rule: Rule, ls: seq<Line>, coin: Reads, pos: PositionCtx, stage: nat, now: Ts,
                                         bound: Option<Option<nat>>, i: nat) returns (k: nat)
    requires LinesOk(rule, ls) && i < |ls| && Acts(rule, ls[i], coin, pos, stage, now, bound)
    ensures k <= i && Acts(rule, ls[k], coin, pos, stage, now, bound)
    ensures forall j | 0 <= j < k :: !Acts(rule, ls[j], coin, pos, stage, now, bound)
    ensures FirstActing(rule, ls, coin, pos, stage, now, bound) == Some(ls[k])
  {
    if Acts(rule, ls[0], coin, pos, stage, now, bound) {
      k := 0;
    } else {
      var m := FirstActingAt(rule, ls[1..], coin, pos, stage, now, bound, i - 1);
      assert forall j | 0 < j < m + 1 :: ls[j] == ls[1..][j - 1];
      k := m + 1;
    }
  }

  lemma {:induction false} FirstActingOverTwo(rule: Rule, a: seq<Line>, b: seq<Line>, coin: Reads, pos: PositionCtx,
                                              stage: nat, now: Ts, bound: Option<Option<nat>>)
    requires LinesOk(rule, a) && LinesOk(rule, b)
    ensures LinesOk(rule, a + b)
    ensures FirstActing(rule, a + b, coin, pos, stage, now, bound)
            == var x := FirstActing(rule, a, coin, pos, stage, now, bound);
               if x.Some? then x else FirstActing(rule, b, coin, pos, stage, now, bound)
  {
    if a == [] {
      assert a + b == b;
    } else {
      var whole := a + b;
      FirstActingOverTwo(rule, a[1..], b, coin, pos, stage, now, bound);
      assert whole[0] == a[0] && whole[1..] == a[1..] + b;
      assert LinesOk(rule, whole);
    }
  }

  /** No deadline and no situation of its own takes the lines the veto looked at away. */
  predicate SameLinesAfterBuy(rule: Rule, coin: Reads, now: Ts, pos: PositionCtx)
    requires Wf(rule)
  {
    match rule.tree
    case Some(t) => !WhensReadPosition(rule, t.whens)
    case None => !DeadlineReached(rule.stages[0], coin, pos, now)
  }

  lemma FreshStepScansVettedLines(rule: Rule, coin: Reads, now: Ts, held: Entered)
    requires Wf(rule) && held.stage == 0
    requires FirstActing(rule, rule.always, coin, Ctx(held), 0, now, BoundOf(rule, held)).Some?
             || SameLinesAfterBuy(rule, coin, now, Ctx(held))
    ensures LinesOk(rule, VettedLines(rule, coin, now))
    ensures var line := FirstActing(rule, VettedLines(rule, coin, now), coin, Ctx(held), 0, now, BoundOf(rule, held));
            line.Some? ==> PickedStep(rule, coin, held, now) == ActLine(line.value)
  {
    FirstActingOverTwo(rule, rule.always, FirstLines(rule, coin, now), coin, Ctx(held), 0, now, BoundOf(rule, held));
    if rule.tree.Some? && !WhensReadPosition(rule, rule.tree.value.whens) {
      BlindWhensPickOneSituation(rule, rule.tree.value.whens, coin, Ctx(held), now);
    }
  }

  /** The veto stops no buy in vain. A line that vetoes without reading our position would act
      the instant the position opened, it or an earlier one: the step takes the first line in
      the vetted order that acts, and when that is the vetoing line it sells with its own
      reason. A line of the stage needs its stage not to have ended already, one of the tree
      that no situation reads our position, and a print line of a followed position that the
      print is of the wallet it follows. */
  lemma VetoedBuyWouldActAtOnce(rule: Rule, i: nat, coin: Reads, now: Ts, price: real, reserve: Reading,
                                followed: Option<nat>) returns (k: nat)
    requires Wf(rule) && i < |VettedLines(rule, coin, now)|
    requires var l := VettedLines(rule, coin, now)[i];
             && CondsOk(rule, l.conds) && VetoedBy(rule, l, coin, now) && !ReadsPosition(rule, l.conds)
             && (rule.followBought && l.readsPrint ==> coin.printWallet == followed)
    requires i < |rule.always| || SameLinesAfterBuy(rule, coin, now, Ctx(Fresh(price, now, reserve, followed)))
    ensures var held, ls := Fresh(price, now, reserve, followed), VettedLines(rule, coin, now);
            && k <= i && LinesOk(rule, ls)
            && Acts(rule, ls[k], coin, Ctx(held), 0, now, BoundOf(rule, held))
            && (forall j | 0 <= j < k :: !Acts(rule, ls[j], coin, Ctx(held), 0, now, BoundOf(rule, held)))
            && PickedStep(rule, coin, held, now) == ActLine(ls[k])
            && (k == i && !ls[i].sell.value.ofBag ==>
                  HeldStepAction(rule, coin, held, now) == SellAction(ls[i].sell.value.reason, ls[i].sell.value.bps, false, ls[i].go))
            && (k == i && ls[i].sell.value.ofBag ==>
                  HeldStepAction(rule, coin, held, now) == ShareSell(BagShare(ls[i].conds, coin, Some(Ctx(held)), now), ls[i].sell.value.reason, ls[i].go))
  {
    var held, ls := Fresh(price, now, reserve, followed), VettedLines(rule, coin, now);
    var pos, bound := Ctx(held), BoundOf(rule, held);
    BlindCondsIgnoreThePosition(rule, ls[i].conds, coin, pos, now);
    k := FirstActingAt(rule, ls, coin, pos, 0, now, bound, i);
    if i < |rule.always| {
      assert ls[i] in rule.always;
    }
    FreshStepScansVettedLines(rule, coin, now, held);
  }

  /** The lines that can act in a treeless rule's first stage once its deadline has passed. */
  function LinesAtTheEnd(rule: Rule): (ls: seq<Line>)
    requires Wf(rule)
    ensures LinesOk(rule, ls)
  {
    assert rule.stages[0] in rule.stages;
    rule.always + rule.stages[0].atEnd
  }

  /** A sell the moment after the buy: the stage is already over, and the first of those lines
      to act sells. */
  predicate SellsAtTheEnd(rule: Rule, coin: Reads, held: Entered, now: Ts)
    requires Wf(rule)
  {
    var last := FirstActing(rule, LinesAtTheEnd(rule), coin, Ctx(held), 0, now, BoundOf(rule, held));
    && DeadlineReached(rule.stages[0], coin, Ctx(held), now)
    && last.Some? && Act(last.value, coin, Some(Ctx(held)), now).SellAction?
  }

  predicate BlindLines(rule: Rule, ls: seq<Line>)
    requires LinesOk(rule, ls)
  {
    forall l | l in ls :: !ReadsPosition(rule, l.conds)
  }

  lemma EndedStageSells(rule: Rule, coin: Reads, held: Entered, now: Ts)
    requires Wf(rule) && rule.tree.None? && held.stage == 0 && SellsAtTheEnd(rule, coin, held, now)
    ensures HeldStepAction(rule, coin, held, now).SellAction?
  {
    assert rule.stages[0] in rule.stages;
    FirstActingOverTwo(rule, rule.always, rule.stages[0].atEnd, coin, Ctx(held), 0, now, BoundOf(rule, held));
  }

  lemma OnlyAnEndedStageSells(rule: Rule, coin: Reads, held: Entered, now: Ts)
    requires Wf(rule) && rule.tree.None? && held.stage == 0 && SellLineHoldingBeforeEntry(rule, coin, now).None?
    requires BlindLines(rule, VettedLines(rule, coin, now))
    requires HeldStepAction(rule, coin, held, now).SellAction?
    ensures SellsAtTheEnd(rule, coin, held, now)
  {
    assert rule.stages[0] in rule.stages;
    var bound, l := BoundOf(rule, held), PickedStep(rule, coin, held, now).line;
    UnvetoedLineEscapes(rule, l, coin, Ctx(held), now, bound);
    ActedLineOrigin(rule, coin, Ctx(held), 0, now, bound);
    FirstActingOverTwo(rule, rule.always, rule.stages[0].atEnd, coin, Ctx(held), 0, now, bound);
    if l in VettedLines(rule, coin, now) {
      BlindCondsIgnoreThePosition(rule, l.conds, coin, Ctx(held), now);
      assert VetoedBy(rule, l, coin, now);
    }
  }

  /** The veto looks at `always` and the first stage's `on` lines, never at its `at_end` ones.
      A treeless rule whose vetted lines do not read our position sells on the very reads that
      bought exactly when its first stage is already over and the first of `always` and
      `at_end` to act sells. */
  lemma BuySellsBackIffTheStageIsOver(rule: Rule, coin: Reads, now: Ts, lockedSlot: Option<nat>, onPrint: bool,
                                      price: real, reserve: Reading, followed: Option<nat>)
    requires Wf(rule) && rule.tree.None? && BlindLines(rule, VettedLines(rule, coin, now))
    requires TryEnter(rule, coin, now, lockedSlot, onPrint) == Enter
    ensures var held := Fresh(price, now, reserve, followed);
            HeldStepAction(rule, coin, held, now).SellAction? <==> SellsAtTheEnd(rule, coin, held, now)
  {
    var held := Fresh(price, now, reserve, followed);
    VerdictMeaning(rule, coin, now, lockedSlot, onPrint);
    if SellsAtTheEnd(rule, coin, held, now) {
      EndedStageSells(rule, coin, held, now);
    } else if HeldStepAction(rule, coin, held, now).SellAction? {
      OnlyAnEndedStageSells(rule, coin, held, now);
    }
  }
}
