/** What an authored rule does at a held step, and that the compiled rule does exactly that:
    the same sell with the same size and label, the same move, or nothing. */
module AuthoredActions {
  import opened Metrics
  import opened Rules
  import opened RuleReqs
  import opened Compile
  import opened Interning
  import opened CompileMeaning
  import opened AuthoredDecisions

  // ---- the share a copied sell takes ----------------------------------------

  /** The share the print's wallet sold, in the first live condition that reads it. */
  function AuthoredShare(env: Env, cs: seq<Cond>, v: View): Option<Reading> {
    if cs == [] then None
    else if !cs[0].off && cs[0].MetricCond? && cs[0].r.metric == SoldBagPct then Some(RefReads(env.fp, cs[0].r, v))
    else AuthoredShare(env, cs[1..], v)
  }

  lemma {:induction false} AuthoredShareSplits(env: Env, a: seq<Cond>, b: seq<Cond>, v: View)
    ensures AuthoredShare(env, a + b, v) == OrElse(AuthoredShare(env, a, v), AuthoredShare(env, b, v))
  {
    if a == [] {
      assert a + b == b;
    } else {
      AuthoredShareSplits(env, a[1..], b, v);
      assert (a + b)[0] == a[0] && (a + b)[1..] == a[1..] + b;
    }
  }

  lemma {:induction false} BagShareSplits(a: seq<CondReq>, b: seq<CondReq>, v: View)
    ensures BagShare(a + b, v.coin, v.pos, v.now) == OrElse(BagShare(a, v.coin, v.pos, v.now), BagShare(b, v.coin, v.pos, v.now))
  {
    if a == [] {
      assert a + b == b;
    } else {
      BagShareSplits(a[1..], b, v);
      assert (a + b)[0] == a[0] && (a + b)[1..] == a[1..] + b;
    }
  }

  lemma OneConditionShare(env: Env, cols: seq<SeriesColumn>, c: Cond, v: View)
    ensures BagShare([CondAt(env, cols, c)], v.coin, v.pos, v.now)
            == if c.MetricCond? && c.r.metric == SoldBagPct then Some(RefReads(env.fp, c.r, v)) else None
  {
    assert [CondAt(env, cols, c)][1..] == [];
  }

  lemma {:induction false} ShareIsTheAuthoredOne(env: Env, cols: seq<SeriesColumn>, cs: seq<Cond>, v: View)
    ensures BagShare(CondsAt(env, cols, cs), v.coin, v.pos, v.now) == AuthoredShare(env, cs, v)
  {
    if cs != [] {
      var n := |cs| - 1;
      ShareIsTheAuthoredOne(env, cols, cs[..n], v);
      assert cs == cs[..n] + [cs[n]] && [cs[n]][1..] == [];
      AuthoredShareSplits(env, cs[..n], [cs[n]], v);
      if cs[n].off {
        assert CondsAt(env, cols, cs) == CondsAt(env, cols, cs[..n]);
      } else {
        BagShareSplits(CondsAt(env, cols, cs[..n]), [CondAt(env, cols, cs[n])], v);
        OneConditionShare(env, cols, cs[n], v);
      }
    }
  }

  // ---- what a line does -----------------------------------------------------

  function Label(env: Env, l: AuthoredLine, s: AuthoredSell): ExitReason {
    Labelled(if s.caption.Some? then s.caption.value else env.caption(l))
  }

  /** Where the line goes, if anywhere. */
  function Goes(env: Env, l: AuthoredLine): Option<nat> {
    if l.go.Some? then Some(FirstIndex(env.stages, l.go.value)) else None
  }

  /** A percent of the first bag as basis points, from one basis point to 99 percent. */
  lemma SizesAreClamped(pct: real)
    ensures 1 <= ClampBps(pct) <= 9_900
    ensures (pct < 0.015 ==> ClampBps(pct) == 1) && (pct > 99.0 ==> ClampBps(pct) == 9_900)
    ensures 0.005 <= pct <= 99.0 ==> -0.5 <= pct * 100.0 - ClampBps(pct) as real <= 0.5
  {
  }

  function LineAction(env: Env, l: AuthoredLine, v: View): HeldAction {
    match l.sell
    case Some(s) =>
      if s.ofBag then ShareSell(AuthoredShare(env, l.when, v), Label(env, l, s), Goes(env, l))
      else SellAction(Label(env, l, s), if s.pct.Some? then Some(ClampBps(s.pct.value)) else None, false, Goes(env, l))
    case None =>
      if l.go.Some? then MoveAction(FirstIndex(env.stages, l.go.value)) else NoAction
  }

  lemma LineDoesAsAuthored(env: Env, cols: seq<SeriesColumn>, a: AuthoredLine, l: Line, v: View)
    requires CompiledFrom(env, cols, a, l)
    ensures Act(l, v.coin, v.pos, v.now) == LineAction(env, a, v)
  {
    ShareIsTheAuthoredOne(env, cols, a.when, v);
  }

  /** The action is what the pick asks for. */
  predicate DoesAsPicked(env: Env, pick: Pick, action: HeldAction, v: View) {
    match pick
    case Nothing => action == NoAction
    case StopOut => action == SellAction(StopLoss, None, false, None)
    case TakeProfitNow => action == SellAction(TakeProfit, None, false, None)
    case Take(l) => action == LineAction(env, l, v)
    case MoveTo(name) => action.MoveAction? && if action.stage < |env.stages| then env.stages[action.stage] == name else name == ""
  }

  /** The wallet a position is bound to, when the rule follows what was bought. */
  function Followed(p: Params, held: Entered): Option<Option<nat>> {
    if p.followBought then Some(held.followed) else None
  }

  /** What a picked step does. */
  function DoStep(step: HeldStep, v: View): HeldAction {
    match step
    case NoStep => NoAction
    case ActLine(l) => Act(l, v.coin, v.pos, v.now)
    case MoveOn(stage) => MoveAction(stage)
  }

  lemma SameStepSameAction(env: Env, cols: seq<SeriesColumn>, pick: Pick, step: HeldStep, v: View)
    requires SameStep(env, cols, pick, step)
    ensures DoesAsPicked(env, pick, DoStep(step, v), v)
  {
    if pick.Take? {
      LineDoesAsAuthored(env, cols, pick.line, step.line, v);
    }
  }

  /** From every position, coin and instant, the compiled rule does what the authored rule
      asks for: stop loss and take profit first, then the picked line's own sell or move. */
  lemma CompiledActionIsTheAuthoredOne(env: Env, p: Params, held: Entered, v: View)
    requires Named(env, p) && v.pos == Some(Ctx(held))
    ensures Wf(Compiled(env, p))
    ensures DoesAsPicked(env, AuthoredPick(env, p, held.stage, v, Followed(p, held)), HeldStepAction(Compiled(env, p), v.coin, held, v.now), v)
  {
    CompiledStepIsTheAuthoredOne(env, p, held.stage, v, Followed(p, held));
    var step := PickedStep(Compiled(env, p), v.coin, held, v.now);
    SameStepSameAction(env, FinalColumns(env, p), AuthoredPick(env, p, held.stage, v, Followed(p, held)), step, v);
    assert HeldStepAction(Compiled(env, p), v.coin, held, v.now) == DoStep(step, v);
  }
}
