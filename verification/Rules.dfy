/** A compiled rule and the decisions it takes: entry, the pre-entry veto, and one held step.

    Every decision reads the coin through `Reads`, so it is a function of the rule, the
    position and the readings at one instant. */
module Rules {
  import opened Metrics

  /** The column a read comes from; a position metric reads our position instead. */
  datatype ReadId = PositionRead | Column(i: nat)

  datatype MetricReq = MetricReq(r: MetricRef, fingerprint: Option<nat>, tolerance: real, conds: ConditionExpr, readId: ReadId)

  datatype PositionCtx = PositionCtx(entryPrice: real, peakPrice: real, troughPrice: real, enteredAt: Ts, stageSince: Ts,
                                     entryReserve: Reading, soldPct: real)

  /** Where the coin is read from. `anchored` is a position metric that moves with the
      coin's price and not with the clock, at the coin's current price. */
  datatype Reads = Reads(value: (MetricRef, Option<nat>, Ts) -> Reading,
                         anchored: (Metric, PositionCtx) -> Reading,
                         ageSec: Ts -> real,
                         slot: nat,
                         printWallet: Option<nat>)

  function HeldFor(p: PositionCtx, now: Ts): real {
    MaxReal(SecsBetween(p.enteredAt, now), 0.0)
  }

  function InStageFor(p: PositionCtx, now: Ts): real {
    MaxReal(SecsBetween(p.stageSince, now), 0.0)
  }

  function PositionValue(m: Metric, p: PositionCtx, coin: Reads, now: Ts): Reading {
    match m
    case HeldSec => Value(HeldFor(p, now))
    case StageSec => Value(InStageFor(p, now))
    case _ => coin.anchored(m, p)
  }

  function ReadReq(m: MetricReq, coin: Reads, pos: Option<PositionCtx>, now: Ts): Reading {
    if m.readId.PositionRead? then
      match pos
      case None => Undefined
      case Some(p) => PositionValue(m.r.metric, p, coin, now)
    else
      coin.value(m.r, m.fingerprint, now)
  }

  predicate ReqHolds(m: MetricReq, coin: Reads, pos: Option<PositionCtx>, now: Ts) {
    Eval(m.conds, ReadReq(m, coin, pos, now), m.tolerance)
  }

  datatype CondReq = OnMetric(m: MetricReq) | OnSignal(index: nat, negated: bool)

  /** An OR of AND groups. */
  type Signal = seq<seq<MetricReq>>

  datatype ExitReason = StopLoss | TakeProfit | Labelled(text: string)

  /** `bps` of the first buy's bag, everything left when absent; `ofBag` sizes the sell
      from the share of his bag the print's wallet sold. */
  datatype Sell = Sell(reason: ExitReason, bps: Option<nat>, ofBag: bool)

  datatype Line = Line(index: nat, conds: seq<CondReq>, sell: Option<Sell>, go: Option<nat>, readsPrint: bool)

  datatype DeadlineBasis = Age | Held | Stage

  datatype StagePlan = StagePlan(ends: Option<(DeadlineBasis, real)>, on: seq<Line>, atEnd: seq<Line>, next: Option<nat>)

  /** Cell `phase * situations + situation`. */
  datatype Tree = Tree(untils: seq<seq<CondReq>>, whens: seq<seq<CondReq>>, entries: seq<seq<Line>>,
                       cellEntry: seq<Option<nat>>, entryOk: seq<bool>)

  datatype EntryLock = Unlocked | LockToken | LockSlot

  datatype SeriesColumn = SeriesColumn(r: MetricRef, fp: Option<nat>)

  datatype MonoBound = MonoBound(r: MetricRef, threshold: real, crossAtGe: bool)

  datatype MonoKill = MonoKill(req: MetricReq, arms: seq<Option<MonoBound>>)

  /** Seconds past which each clock can no longer change a decision. */
  datatype Horizons = Horizons(window: real, time: real, stall: real, held: real, stage: real)

  datatype Rule = Rule(event: seq<CondReq>, filters: seq<CondReq>, finalFilters: seq<CondReq>, entryLock: EntryLock,
                       signals: seq<Signal>, always: seq<Line>, stages: seq<StagePlan>, tree: Option<Tree>,
                       coinReads: seq<SeriesColumn>, monoKills: seq<MonoKill>, horizons: Horizons, followBought: bool)

  // ---- shape ----------------------------------------------------------------

  predicate CondOk(rule: Rule, c: CondReq) {
    c.OnSignal? ==> c.index < |rule.signals|
  }

  predicate CondsOk(rule: Rule, cs: seq<CondReq>) {
    forall c | c in cs :: CondOk(rule, c)
  }

  predicate LinesOk(rule: Rule, ls: seq<Line>) {
    forall l | l in ls :: CondsOk(rule, l.conds)
  }

  function Situations(t: Tree): nat {
    |t.whens| + 1
  }

  predicate TreeOk(rule: Rule, t: Tree) {
    && (forall u | u in t.untils :: CondsOk(rule, u))
    && (forall w | w in t.whens :: CondsOk(rule, w))
    && (forall e | e in t.entries :: LinesOk(rule, e))
    && |t.cellEntry| == |t.entryOk| == (|t.untils| + 1) * Situations(t)
    && (forall e | e in t.cellEntry && e.Some? :: e.value < |t.entries|)
  }

  /** Signal and entry indices are in range and there is a first stage: what compiling a
      validated rule yields. */
  predicate Wf(rule: Rule) {
    && CondsOk(rule, rule.event) && CondsOk(rule, rule.filters) && CondsOk(rule, rule.finalFilters)
    && LinesOk(rule, rule.always)
    && |rule.stages| > 0
    && (forall s | s in rule.stages :: LinesOk(rule, s.on) && LinesOk(rule, s.atEnd))
    && (rule.tree.Some? ==> TreeOk(rule, rule.tree.value))
  }

  // ---- conditions -----------------------------------------------------------

  predicate SignalHolds(s: Signal, coin: Reads, pos: Option<PositionCtx>, now: Ts) {
    exists g | g in s :: forall m | m in g :: ReqHolds(m, coin, pos, now)
  }

  predicate CondHolds(rule: Rule, c: CondReq, coin: Reads, pos: Option<PositionCtx>, now: Ts)
    requires CondOk(rule, c)
  {
    match c
    case OnMetric(m) => ReqHolds(m, coin, pos, now)
    case OnSignal(i, negated) => SignalHolds(rule.signals[i], coin, pos, now) != negated
  }

  predicate AllHold(rule: Rule, cs: seq<CondReq>, coin: Reads, pos: Option<PositionCtx>, now: Ts)
    requires CondsOk(rule, cs)
  {
    forall c | c in cs :: CondHolds(rule, c, coin, pos, now)
  }

  predicate LineHolds(rule: Rule, l: Line, coin: Reads, pos: Option<PositionCtx>, now: Ts)
    requires CondsOk(rule, l.conds)
  {
    AllHold(rule, l.conds, coin, pos, now)
  }

  // ---- the stage tree -------------------------------------------------------

  /** How many leading `until`s hold. */
  function Phase(rule: Rule, untils: seq<seq<CondReq>>, coin: Reads, now: Ts): (n: nat)
    requires forall u | u in untils :: CondsOk(rule, u)
    ensures n <= |untils|
    ensures forall i | 0 <= i < n :: AllHold(rule, untils[i], coin, None, now)
    ensures n < |untils| ==> !AllHold(rule, untils[n], coin, None, now)
  {
    if untils == [] || !AllHold(rule, untils[0], coin, None, now) then 0
    else
      1 + Phase(rule, untils[1..], coin, now)
  }

  /** The first `when` that holds, else the last situation. */
  function Situation(rule: Rule, whens: seq<seq<CondReq>>, coin: Reads, pos: Option<PositionCtx>, now: Ts): (n: nat)
    requires forall w | w in whens :: CondsOk(rule, w)
    ensures n <= |whens|
    ensures forall i | 0 <= i < n :: !AllHold(rule, whens[i], coin, pos, now)
    ensures n < |whens| ==> AllHold(rule, whens[n], coin, pos, now)
  {
    if whens == [] || AllHold(rule, whens[0], coin, pos, now) then 0
    else
      1 + Situation(rule, whens[1..], coin, pos, now)
  }

  lemma CellInRange(phase: nat, situation: nat, phases: nat, situations: nat)
    requires phase < phases && situation < situations
    ensures phase * situations + situation < phases * situations
  {
    assert (phase + 1) * situations <= phases * situations by {
    }
  }

  /** Cells run phase by phase. */
  function CellNumber(phase: nat, situation: nat, situations: nat): nat {
    phase * situations + situation
  }

  /** `untils` read no position: the coin's phase is the same before and after the buy. */
  function TreeCell(rule: Rule, t: Tree, coin: Reads, pos: Option<PositionCtx>, now: Ts): (cell: nat)
    requires TreeOk(rule, t)
    ensures cell < |t.entryOk|
  {
    var phase := Phase(rule, t.untils, coin, now);
    var situation := Situation(rule, t.whens, coin, pos, now);
    CellInRange(phase, situation, |t.untils| + 1, Situations(t));
    CellNumber(phase, situation, Situations(t))
  }

  function CellLines(t: Tree, cell: nat): seq<Line> {
    if cell < |t.cellEntry| && t.cellEntry[cell].Some? && t.cellEntry[cell].value < |t.entries|
    then t.entries[t.cellEntry[cell].value]
    else []
  }

  // ---- entry ----------------------------------------------------------------

  predicate EventSatisfied(rule: Rule, coin: Reads, now: Ts)
    requires Wf(rule)
  {
    AllHold(rule, rule.event, coin, None, now)
  }

  predicate FiltersSatisfied(rule: Rule, coin: Reads, now: Ts)
    requires Wf(rule)
  {
    AllHold(rule, rule.filters, coin, None, now)
  }

  predicate FinalFiltersSatisfied(rule: Rule, coin: Reads, now: Ts)
    requires Wf(rule)
  {
    AllHold(rule, rule.finalFilters, coin, None, now)
  }

  predicate EntryCellOk(rule: Rule, coin: Reads, now: Ts)
    requires Wf(rule)
  {
    match rule.tree
    case None => true
    case Some(t) => t.entryOk[TreeCell(rule, t, coin, None, now)]
  }

  /** The lines that could act right after a buy, besides `always`. */
  function FirstLines(rule: Rule, coin: Reads, now: Ts): (ls: seq<Line>)
    requires Wf(rule)
    ensures LinesOk(rule, ls)
  {
    match rule.tree
    case None => rule.stages[0].on
    case Some(t) => CellLines(t, TreeCell(rule, t, coin, None, now))
  }

  predicate SellsWhole(l: Line) {
    l.sell.Some? && l.sell.value.bps.None? && !l.sell.value.ofBag
  }

  /** Goes to the stage it is in without selling everything: it has nothing to do there. */
  predicate IdleIn(l: Line, stage: nat) {
    l.go == Some(stage) && !SellsWhole(l)
  }

  predicate VetoedBy(rule: Rule, l: Line, coin: Reads, now: Ts)
    requires CondsOk(rule, l.conds)
  {
    !IdleIn(l, 0) && l.sell.Some? && LineHolds(rule, l, coin, None, now)
  }

  /** First reason, in order, of a sell line that already holds with no position. */
  function FirstVeto(rule: Rule, ls: seq<Line>, coin: Reads, now: Ts): (r: Option<ExitReason>)
    requires LinesOk(rule, ls)
    ensures r.Some? <==> exists l | l in ls :: VetoedBy(rule, l, coin, now)
  {
    if ls == [] then None
    else if VetoedBy(rule, ls[0], coin, now) then Some(ls[0].sell.value.reason)
    else
      FirstVeto(rule, ls[1..], coin, now)
  }

  function SellLineHoldingBeforeEntry(rule: Rule, coin: Reads, now: Ts): Option<ExitReason>
    requires Wf(rule)
  {
    FirstVeto(rule, rule.always + FirstLines(rule, coin, now), coin, now)
  }

  predicate CanEnter(rule: Rule, coin: Reads, now: Ts)
    requires Wf(rule)
  {
    && EventSatisfied(rule, coin, now)
    && FinalFiltersSatisfied(rule, coin, now)
    && FiltersSatisfied(rule, coin, now)
    && EntryCellOk(rule, coin, now)
    && SellLineHoldingBeforeEntry(rule, coin, now).None?
  }

  datatype Verdict = No | Enter | SpendSlot | Exhaust

  function TryEnter(rule: Rule, coin: Reads, now: Ts, lockedSlot: Option<nat>, onPrint: bool): Verdict
    requires Wf(rule)
  {
    var finalOk := FinalFiltersSatisfied(rule, coin, now);
    var restOk := FiltersSatisfied(rule, coin, now) && EntryCellOk(rule, coin, now);
    var veto := SellLineHoldingBeforeEntry(rule, coin, now).Some?;
    var wouldEnter := finalOk && restOk && !veto;
    var finalBlocks := !finalOk && restOk && !veto;
    match rule.entryLock
    case Unlocked =>
      if !EventSatisfied(rule, coin, now) then No
      else if wouldEnter then Enter
      else if finalBlocks then Exhaust
      else No
    case LockToken =>
      if !onPrint || !EventSatisfied(rule, coin, now) then No
      else if wouldEnter then Enter
      else Exhaust
    case LockSlot =>
      if lockedSlot == Some(coin.slot) && coin.slot != 0 then No
      else if !EventSatisfied(rule, coin, now) then No
      else if wouldEnter then Enter
      else if finalBlocks then Exhaust
      else SpendSlot
  }

  /** Whether the lock lets this instant be a try at all. */
  predicate LockOpen(rule: Rule, coin: Reads, lockedSlot: Option<nat>, onPrint: bool) {
    match rule.entryLock
    case Unlocked => true
    case LockToken => onPrint
    case LockSlot => !(lockedSlot == Some(coin.slot) && coin.slot != 0)
  }

  /** The event holds, everything else would let the buy through, and a final filter says no. */
  predicate FinalFilterAloneFails(rule: Rule, coin: Reads, now: Ts)
    requires Wf(rule)
  {
    && EventSatisfied(rule, coin, now) && FiltersSatisfied(rule, coin, now) && EntryCellOk(rule, coin, now)
    && SellLineHoldingBeforeEntry(rule, coin, now).None? && !FinalFiltersSatisfied(rule, coin, now)
  }

  /** The armed-side decision buys exactly where the retry gate would, on an open try. An
      open try that misses ends the coin when only a final filter failed, or under the token
      lock; under the slot lock any other miss spends the slot; everything else waits. */
  lemma VerdictMeaning(rule: Rule, coin: Reads, now: Ts, lockedSlot: Option<nat>, onPrint: bool)
    requires Wf(rule)
    ensures var v := TryEnter(rule, coin, now, lockedSlot, onPrint);
            var open := LockOpen(rule, coin, lockedSlot, onPrint) && EventSatisfied(rule, coin, now);
            && (v == Enter <==> open && CanEnter(rule, coin, now))
            && (v == Exhaust <==> open && !CanEnter(rule, coin, now) && (rule.entryLock.LockToken? || FinalFilterAloneFails(rule, coin, now)))
            && (v == SpendSlot <==> open && rule.entryLock.LockSlot? && !CanEnter(rule, coin, now) && !FinalFilterAloneFails(rule, coin, now))
  {
  }

  // ---- the held side --------------------------------------------------------

  datatype HeldStep = NoStep | ActLine(line: Line) | MoveOn(stage: nat)

  datatype HeldAction =
    | NoAction
    | SellAction(reason: ExitReason, bps: Option<nat>, ofBag: bool, nextStage: Option<nat>)
    | MoveAction(stage: nat)

  datatype Entered = Entered(entryPrice: real, enteredAt: Ts, peakPrice: real, troughPrice: real, stage: nat, stageSince: Ts,
                             soldBps: nat, entryReserve: Reading, followed: Option<nat>)

  /** A fresh fill: the extremes seed at the fill price, the first stage starts now. */
  function AtFill(price: real, at: Ts, reserve: Reading): Entered {
    Entered(price, at, price, price, 0, at, 0, reserve, None)
  }

  /** Just filled, the position is in its first stage, has been held and in that stage for no
      time, has never left its entry price and has sold nothing. */
  lemma FillStartsClean(price: real, at: Ts, reserve: Reading)
    ensures var e := AtFill(price, at, reserve);
            && e.stage == 0 && HeldFor(Ctx(e), at) == InStageFor(Ctx(e), at) == 0.0
            && Ctx(e).peakPrice == Ctx(e).troughPrice == Ctx(e).entryPrice == price
            && Ctx(e).soldPct == 0.0 && Ctx(e).entryReserve == reserve && e.followed == None
  {
  }

  function Ctx(e: Entered): PositionCtx {
    PositionCtx(e.entryPrice, e.peakPrice, e.troughPrice, e.enteredAt, e.stageSince, e.entryReserve, e.soldBps as real / 100.0)
  }

  predicate DeadlineReached(s: StagePlan, coin: Reads, pos: PositionCtx, now: Ts) {
    match s.ends
    case None => false
    case Some((basis, secs)) =>
      match basis
      case Age => coin.ageSec(now) >= secs
      case Held => HeldFor(pos, now) >= secs
      case Stage => InStageFor(pos, now) >= secs
  }

  /** `bound` is `Some(wallet)` when the position copies one wallet: a print line acts only
      on that wallet's print. */
  predicate Acts(rule: Rule, l: Line, coin: Reads, pos: PositionCtx, stage: nat, now: Ts, bound: Option<Option<nat>>)
    requires CondsOk(rule, l.conds)
  {
    && (bound.Some? && l.readsPrint ==> coin.printWallet == bound.value)
    && !IdleIn(l, stage)
    && LineHolds(rule, l, coin, Some(pos), now)
  }

  /** The first line that acts. */
  function FirstActing(rule: Rule, ls: seq<Line>, coin: Reads, pos: PositionCtx, stage: nat, now: Ts,
                       bound: Option<Option<nat>>): (r: Option<Line>)
    requires LinesOk(rule, ls)
    ensures r.None? <==> forall l | l in ls :: !Acts(rule, l, coin, pos, stage, now, bound)
    ensures r.Some? ==> r.value in ls && Acts(rule, r.value, coin, pos, stage, now, bound)
  {
    if ls == [] then None
    else if Acts(rule, ls[0], coin, pos, stage, now, bound) then Some(ls[0])
    else
      FirstActing(rule, ls[1..], coin, pos, stage, now, bound)
  }

  function LineStep(r: Option<Line>): HeldStep {
    match r
    case None => NoStep
    case Some(l) => ActLine(l)
  }

  function HeldLineBound(rule: Rule, coin: Reads, pos: PositionCtx, stage: nat, now: Ts,
                         bound: Option<Option<nat>>): HeldStep
    requires Wf(rule)
  {
    var first := FirstActing(rule, rule.always, coin, pos, stage, now, bound);
    if first.Some? then ActLine(first.value)
    else
      match rule.tree
      case Some(t) =>
        LineStep(FirstActing(rule, CellLines(t, TreeCell(rule, t, coin, Some(pos), now)), coin, pos, stage, now, bound))
      case None =>
        if stage >= |rule.stages| then NoStep
        else
          var current := rule.stages[stage];
          if DeadlineReached(current, coin, pos, now) then
            var last := FirstActing(rule, current.atEnd, coin, pos, stage, now, bound);
            if last.Some? then ActLine(last.value)
            else if current.next.Some? then MoveOn(current.next.value)
            else NoStep
          else
            LineStep(FirstActing(rule, current.on, coin, pos, stage, now, bound))
  }

  /** The line a step picks, for a position bound to no wallet. */
  function HeldLine(rule: Rule, coin: Reads, pos: PositionCtx, stage: nat, now: Ts): HeldStep
    requires Wf(rule)
  {
    HeldLineBound(rule, coin, pos, stage, now, None)
  }

  /** The share the print's wallet sold, as this line reads it. */
  function BagShare(conds: seq<CondReq>, coin: Reads, pos: Option<PositionCtx>, now: Ts): Option<Reading> {
    if conds == [] then None
    else if conds[0].OnMetric? && conds[0].m.r.metric == SoldBagPct then Some(ReadReq(conds[0].m, coin, pos, now))
    else
      BagShare(conds[1..], coin, pos, now)
  }

  /** 100 percent closes the bag; anything less is that percent of the tokens still held. */
  function ShareSell(share: Option<Reading>, reason: ExitReason, go: Option<nat>): HeldAction {
    match share
    case Some(Value(pct)) =>
      if pct <= 0.0 then NoAction
      else
        var bps := Round(pct * 100.0);
        if bps >= 10_000 then SellAction(reason, None, false, go)
        else SellAction(reason, Some(if bps < 1 then 1 else bps), true, go)
    case _ => NoAction
  }

  /** A bag sell takes the share it read: nothing when it cannot be read or is not positive,
      everything when it rounds to the whole bag, else the nearest basis points, at least one. */
  lemma BagSellTakesTheShare(share: Option<Reading>, reason: ExitReason, go: Option<nat>)
    ensures match ShareSell(share, reason, go)
            case NoAction => share.None? || share.value.Undefined? || share.value.v <= 0.0
            case MoveAction(_) => false
            case SellAction(why, None, ofBag, next) =>
              why == reason && next == go && !ofBag && share.Some? && share.value.Value? && share.value.v * 100.0 >= 9_999.5
            case SellAction(why, Some(bps), ofBag, next) =>
              && why == reason && next == go && ofBag && share.Some? && share.value.Value? && 1 <= bps <= 9_999
              && (if share.value.v * 100.0 < 1.5 then bps == 1 else -0.5 <= share.value.v * 100.0 - bps as real <= 0.5)
  {
  }

  function BagSell(l: Line, reason: ExitReason, coin: Reads, pos: Option<PositionCtx>, now: Ts): HeldAction {
    ShareSell(BagShare(l.conds, coin, pos, now), reason, l.go)
  }

  function Act(l: Line, coin: Reads, pos: Option<PositionCtx>, now: Ts): HeldAction {
    match l.sell
    case Some(s) =>
      if s.ofBag then BagSell(l, s.reason, coin, pos, now)
      else SellAction(s.reason, s.bps, false, l.go)
    case None =>
      if l.go.Some? then MoveAction(l.go.value) else NoAction
  }

  function BoundOf(rule: Rule, held: Entered): Option<Option<nat>> {
    if rule.followBought then Some(held.followed) else None
  }

  function PickedStep(rule: Rule, coin: Reads, held: Entered, now: Ts): HeldStep
    requires Wf(rule)
  {
    HeldLineBound(rule, coin, Ctx(held), held.stage, now, BoundOf(rule, held))
  }

  function HeldStepAction(rule: Rule, coin: Reads, held: Entered, now: Ts): HeldAction
    requires Wf(rule)
  {
    match PickedStep(rule, coin, held, now)
    case NoStep => NoAction
    case ActLine(l) => Act(l, coin, Some(Ctx(held)), now)
    case MoveOn(stage) => MoveAction(stage)
  }
}
