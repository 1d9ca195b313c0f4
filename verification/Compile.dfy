/** From an authored rule to the compiled one: names become indices, switched-off parts
    disappear, and every coin-side read is interned into one column list. */
module Compile {
  import opened Metrics
  import opened Rules
  import opened RuleReqs
  import opened MonoKills
  import opened ClockHorizons

  // ---- the authored rule ----------------------------------------------------

  datatype Cond =
    | MetricCond(r: MetricRef, expr: ConditionExpr, off: bool)
    | SignalCond(name: string, negated: bool, off: bool)

  /** `pct` is of the first buy's bag, everything left when absent. */
  datatype AuthoredSell = AuthoredSell(caption: Option<string>, pct: Option<real>, ofBag: bool)

  datatype AuthoredLine = AuthoredLine(when: seq<Cond>, sell: Option<AuthoredSell>, go: Option<string>, off: bool)

  datatype Stage = Stage(name: string, ends: Option<(DeadlineBasis, real)>, on: seq<AuthoredLine>, atEnd: seq<AuthoredLine>, next: Option<string>)

  datatype PhaseDef = PhaseDef(name: string, until: seq<Cond>)

  datatype SituationDef = SituationDef(name: string, when: seq<Cond>)

  /** An absent name covers every phase, or every situation. */
  datatype Cell = Cell(phase: Option<string>, situation: Option<string>, on: seq<AuthoredLine>)

  datatype TreeDef = TreeDef(phases: seq<PhaseDef>, situations: seq<SituationDef>, cells: seq<Cell>)

  datatype EnterDef = EnterDef(event: seq<Cond>, filters: seq<Cond>, finalFilters: seq<Cond>, lock: EntryLock,
                               cells: seq<(Option<string>, Option<string>)>)

  datatype SignalDef = SignalDef(name: string, groups: seq<seq<Cond>>)

  datatype Params = Params(enter: EnterDef, takeProfit: Option<real>, stopLoss: Option<real>, signals: seq<SignalDef>,
                           always: seq<AuthoredLine>, stages: seq<Stage>, tree: Option<TreeDef>, followBought: bool)

  const MAX_SELL_BPS: nat := 9_900

  // ---- what stays fixed while compiling -------------------------------------

  /** The rule's fingerprint and the names indices resolve against. `caption` names a sell
      line that carries no label of its own. */
  datatype Env = Env(fp: nat, signals: seq<SignalDef>, stages: seq<string>, caption: AuthoredLine -> string)

  function SignalNames(signals: seq<SignalDef>): (names: seq<string>)
    ensures |names| == |signals| && forall i | 0 <= i < |names| :: names[i] == signals[i].name
  {
    seq(|signals|, i requires 0 <= i < |signals| => signals[i].name)
  }

  function StageNames(stages: seq<Stage>): (names: seq<string>)
    ensures |names| == |stages| && forall i | 0 <= i < |names| :: names[i] == stages[i].name
  {
    seq(|stages|, i requires 0 <= i < |stages| => stages[i].name)
  }

  function EnvOf(fp: nat, p: Params, caption: AuthoredLine -> string): Env {
    Env(fp, p.signals, StageNames(p.stages), caption)
  }

  /** Position of the first occurrence, or the length when there is none. */
  function FirstIndex<T(==)>(xs: seq<T>, x: T): (i: nat)
    ensures i <= |xs| && (i < |xs| <==> x in xs)
    ensures i < |xs| ==> xs[i] == x
    ensures forall j | 0 <= j < i :: xs[j] != x
  {
    if xs == [] || xs[0] == x then 0 else 1 + FirstIndex(xs[1..], x)
  }

  /** Appending never moves a first occurrence. */
  lemma {:induction false} FirstIndexIsStable<T>(xs: seq<T>, longer: seq<T>, x: T)
    requires xs <= longer && x in xs
    ensures FirstIndex(longer, x) == FirstIndex(xs, x)
  {
  }

  // ---- the column list ------------------------------------------------------

  function ColumnOf(fp: nat, r: MetricRef): SeriesColumn {
    SeriesColumn(r, if IsFingerprintScoped(r) then Some(fp) else None)
  }

  /** Two fingerprints share a read's column exactly when it names no tag of theirs: no tag at
      all, or a built-in class of wallets. */
  lemma SharedColumnIff(a: nat, b: nat, r: MetricRef)
    ensures ColumnOf(a, r) == ColumnOf(b, r) <==> a == b || match r.tag
                                                           case None => true
                                                           case Some(Tag(_, _, builtin)) => builtin
  {
  }

  function Interned(cols: seq<SeriesColumn>, fp: nat, r: MetricRef): seq<SeriesColumn> {
    if IsPosition(r) || ColumnOf(fp, r) in cols then cols else cols + [ColumnOf(fp, r)]
  }

  function InternAll(cols: seq<SeriesColumn>, fp: nat, refs: seq<MetricRef>): (out: seq<SeriesColumn>)
    ensures cols <= out
  {
    if refs == [] then cols else Interned(InternAll(cols, fp, refs[..|refs| - 1]), fp, refs[|refs| - 1])
  }

  predicate Distinct(cols: seq<SeriesColumn>) {
    forall i, j | 0 <= i < j < |cols| :: cols[i] != cols[j]
  }

  // ---- conditions -----------------------------------------------------------

  function RefsIn(cs: seq<Cond>): seq<MetricRef> {
    if cs == [] then []
    else
      var last := cs[|cs| - 1];
      RefsIn(cs[..|cs| - 1]) + if last.MetricCond? && !last.off then [last.r] else []
  }

  function ReqAt(env: Env, cols: seq<SeriesColumn>, r: MetricRef, expr: ConditionExpr): MetricReq {
    MetricReq(r, ColumnOf(env.fp, r).fp, EqTolerance(r.metric), expr,
              if IsPosition(r) then PositionRead else Column(FirstIndex(cols, ColumnOf(env.fp, r))))
  }

  function CondAt(env: Env, cols: seq<SeriesColumn>, c: Cond): CondReq {
    match c
    case MetricCond(r, expr, _) => OnMetric(ReqAt(env, cols, r, expr))
    case SignalCond(name, negated, _) => OnSignal(FirstIndex(SignalNames(env.signals), name), negated)
  }

  function CondsAt(env: Env, cols: seq<SeriesColumn>, cs: seq<Cond>): seq<CondReq> {
    if cs == [] then []
    else
      CondsAt(env, cols, cs[..|cs| - 1]) + if cs[|cs| - 1].off then [] else [CondAt(env, cols, cs[|cs| - 1])]
  }

  // ---- interning condition lists --------------------------------------------

  function InternLists(cols: seq<SeriesColumn>, fp: nat, lists: seq<seq<Cond>>): (out: seq<SeriesColumn>)
    ensures cols <= out
  {
    if lists == [] then cols else InternAll(InternLists(cols, fp, lists[..|lists| - 1]), fp, RefsIn(lists[|lists| - 1]))
  }

  lemma {:induction false} InternListsSplits(cols: seq<SeriesColumn>, fp: nat, a: seq<seq<Cond>>, b: seq<seq<Cond>>)
    ensures InternLists(cols, fp, a + b) == InternLists(InternLists(cols, fp, a), fp, b)
  {
    if b == [] {
      assert a + b == a;
    } else {
      var n := |b| - 1;
      InternListsSplits(cols, fp, a, b[..n]);
      assert (a + b)[..|a + b| - 1] == a + b[..n];
    }
  }

  lemma {:induction false} InternAllCollects(cols: seq<SeriesColumn>, fp: nat, refs: seq<MetricRef>)
    ensures Distinct(cols) ==> Distinct(InternAll(cols, fp, refs))
    ensures forall c :: c in InternAll(cols, fp, refs) <==> c in cols || exists r | r in refs :: !IsPosition(r) && c == ColumnOf(fp, r)
  {
    if refs != [] {
      var n := |refs| - 1;
      InternAllCollects(cols, fp, refs[..n]);
      assert refs == refs[..n] + [refs[n]];
    }
  }

  /** A live condition of one of the lists reads the column. */
  predicate ReadBy(fp: nat, lists: seq<seq<Cond>>, c: SeriesColumn) {
    exists cs | cs in lists :: exists r | r in RefsIn(cs) :: !IsPosition(r) && c == ColumnOf(fp, r)
  }

  /** Interning keeps the columns distinct and adds exactly the coin-side reads. */
  lemma {:induction false} InternListsCollects(cols: seq<SeriesColumn>, fp: nat, lists: seq<seq<Cond>>)
    ensures Distinct(cols) ==> Distinct(InternLists(cols, fp, lists))
    ensures forall c :: c in InternLists(cols, fp, lists) <==> c in cols || ReadBy(fp, lists, c)
  {
    if lists != [] {
      var n := |lists| - 1;
      InternListsCollects(cols, fp, lists[..n]);
      InternAllCollects(InternLists(cols, fp, lists[..n]), fp, RefsIn(lists[n]));
      assert lists == lists[..n] + [lists[n]];
      forall c
        ensures ReadBy(fp, lists, c) <==> ReadBy(fp, lists[..n], c) || ReadBy(fp, [lists[n]], c)
      {
        assert lists[n] in lists;
      }
    }
  }

  // ---- lines ----------------------------------------------------------------

  function LiveLines(ls: seq<AuthoredLine>): seq<AuthoredLine> {
    if ls == [] then [] else LiveLines(ls[..|ls| - 1]) + if ls[|ls| - 1].off then [] else [ls[|ls| - 1]]
  }

  function LineLists(ls: seq<AuthoredLine>): seq<seq<Cond>> {
    if ls == [] then []
    else LineLists(ls[..|ls| - 1]) + if ls[|ls| - 1].off then [] else [ls[|ls| - 1].when]
  }

  predicate GroupsWatchPrint(groups: seq<seq<Cond>>) {
    exists g | g in groups :: exists c | c in g :: c.MetricCond? && !c.off && WatchesThisPrint(c.r)
  }

  predicate CondWatchesPrint(signals: seq<SignalDef>, c: Cond) {
    match c
    case MetricCond(r, _, _) => WatchesThisPrint(r)
    case SignalCond(name, _, _) =>
      var i := FirstIndex(SignalNames(signals), name);
      i < |signals| && GroupsWatchPrint(signals[i].groups)
  }

  predicate LineWatchesPrint(signals: seq<SignalDef>, l: AuthoredLine) {
    exists c | c in l.when && !c.off :: CondWatchesPrint(signals, c)
  }

  function ClampBps(pct: real): nat {
    var bps := Round(MaxReal(pct * 100.0, 0.0));
    if bps < 1 then 1 else if bps > MAX_SELL_BPS then MAX_SELL_BPS else bps
  }

  function SellAt(env: Env, l: AuthoredLine): Option<Sell> {
    match l.sell
    case None => None
    case Some(s) =>
      Some(Sell(Labelled(if s.caption.Some? then s.caption.value else env.caption(l)),
                if s.pct.Some? then Some(ClampBps(s.pct.value)) else None, s.ofBag))
  }

  function LineAt(env: Env, cols: seq<SeriesColumn>, index: nat, l: AuthoredLine): Line {
    Line(index, CondsAt(env, cols, l.when), SellAt(env, l),
         if l.go.Some? then Some(FirstIndex(env.stages, l.go.value)) else None, LineWatchesPrint(env.signals, l))
  }

  /** The first line number after these lines. */
  function LineStart(first: nat, ls: seq<AuthoredLine>): nat {
    first + |LiveLines(ls)|
  }

  /** The live lines, numbered from `first`. */
  function LinesAt(env: Env, cols: seq<SeriesColumn>, first: nat, ls: seq<AuthoredLine>): seq<Line> {
    if ls == [] then []
    else
      var n := |ls| - 1;
      LinesAt(env, cols, first, ls[..n])
      + if ls[n].off then [] else [LineAt(env, cols, LineStart(first, ls[..n]), ls[n])]
  }

  lemma {:induction false} LinesAtAre(env: Env, cols: seq<SeriesColumn>, first: nat, ls: seq<AuthoredLine>)
    ensures var out := LinesAt(env, cols, first, ls);
            |out| == |LiveLines(ls)| && forall i | 0 <= i < |out| :: out[i] == LineAt(env, cols, first + i, LiveLines(ls)[i])
  {
    if ls != [] {
      LinesAtAre(env, cols, first, ls[..|ls| - 1]);
    }
  }

  function PnlLine(env: Env, cols: seq<SeriesColumn>, index: nat, op: Operator, value: real, reason: ExitReason): Line {
    Line(index, [OnMetric(ReqAt(env, cols, MetricRef(PnlPct, None, LIFE), [[Condition(op, value)]]))], Some(Sell(reason, None, false)), None, false)
  }

  function StopLine(env: Env, p: Params): seq<Line> {
    if p.stopLoss.Some? then [PnlLine(env, [], 0, Lte, -p.stopLoss.value, StopLoss)] else []
  }

  /** Stop loss first, then take profit. */
  function Shortcuts(env: Env, p: Params): (ls: seq<Line>)
    ensures forall i | 0 <= i < |ls| :: ls[i].index == i
  {
    var stop := StopLine(env, p);
    stop + if p.takeProfit.Some? then [PnlLine(env, [], |stop|, Gte, p.takeProfit.value, TakeProfit)] else []
  }

  // ---- stages ---------------------------------------------------------------

  function CountIn(s: Stage): nat {
    |LiveLines(s.on)| + |LiveLines(s.atEnd)|
  }

  function CountInStages(stages: seq<Stage>): nat {
    if stages == [] then 0 else CountInStages(stages[..|stages| - 1]) + CountIn(stages[|stages| - 1])
  }

  /** The first line number after these stages. */
  function StageStart(first: nat, stages: seq<Stage>): nat {
    first + CountInStages(stages)
  }

  function StageLists(stages: seq<Stage>): seq<seq<Cond>> {
    if stages == [] then []
    else
      var last := stages[|stages| - 1];
      StageLists(stages[..|stages| - 1]) + LineLists(last.on) + LineLists(last.atEnd)
  }

  /** A deadline leads to `next`, or to the stage that follows. */
  function StageAt(env: Env, cols: seq<SeriesColumn>, first: nat, i: nat, s: Stage): StagePlan {
    StagePlan(s.ends,
              LinesAt(env, cols, first, s.on),
              LinesAt(env, cols, LineStart(first, s.on), s.atEnd),
              if s.ends.None? then None
              else if s.next.Some? then Some(FirstIndex(env.stages, s.next.value))
              else Some(i + 1))
  }

  function StagesAt(env: Env, cols: seq<SeriesColumn>, first: nat, stages: seq<Stage>): seq<StagePlan> {
    if stages == [] then []
    else
      var n := |stages| - 1;
      StagesAt(env, cols, first, stages[..n]) + [StageAt(env, cols, StageStart(first, stages[..n]), n, stages[n])]
  }

  // ---- the tree -------------------------------------------------------------

  function CountInCells(cells: seq<Cell>): nat {
    if cells == [] then 0 else CountInCells(cells[..|cells| - 1]) + |LiveLines(cells[|cells| - 1].on)|
  }

  /** The first line number after these cells. */
  function CellStart(first: nat, cells: seq<Cell>): nat {
    first + CountInCells(cells)
  }

  function CellLists(cells: seq<Cell>): seq<seq<Cond>> {
    if cells == [] then [] else CellLists(cells[..|cells| - 1]) + LineLists(cells[|cells| - 1].on)
  }

  function TreeLists(t: Option<TreeDef>): seq<seq<Cond>> {
    match t
    case None => []
    case Some(t) => Untils(t.phases) + Whens(t.situations) + CellLists(t.cells)
  }

  /** The last phase has no `until`. */
  function Untils(phases: seq<PhaseDef>): (out: seq<seq<Cond>>)
    ensures |out| == if phases == [] then 0 else |phases| - 1
    ensures forall i | 0 <= i < |out| :: out[i] == phases[i].until
  {
    seq(if phases == [] then 0 else |phases| - 1, i requires 0 <= i < |phases| => phases[i].until)
  }

  /** The last situation has no `when`. */
  function Whens(situations: seq<SituationDef>): (out: seq<seq<Cond>>)
    ensures |out| == if situations == [] then 0 else |situations| - 1
    ensures forall i | 0 <= i < |out| :: out[i] == situations[i].when
  {
    seq(if situations == [] then 0 else |situations| - 1, i requires 0 <= i < |situations| => situations[i].when)
  }

  function ListsAt(env: Env, cols: seq<SeriesColumn>, lists: seq<seq<Cond>>): seq<seq<CondReq>> {
    if lists == [] then [] else ListsAt(env, cols, lists[..|lists| - 1]) + [CondsAt(env, cols, lists[|lists| - 1])]
  }

  function EntriesAt(env: Env, cols: seq<SeriesColumn>, first: nat, cells: seq<Cell>): seq<seq<Line>> {
    if cells == [] then []
    else
      var n := |cells| - 1;
      EntriesAt(env, cols, first, cells[..n]) + [LinesAt(env, cols, CellStart(first, cells[..n]), cells[n].on)]
  }

  function FindCell(cells: seq<Cell>, phase: Option<string>, situation: Option<string>): (i: Option<nat>)
    ensures i.Some? ==> i.value < |cells| && cells[i.value].phase == phase && cells[i.value].situation == situation
    ensures i.None? ==> forall c | c in cells :: c.phase != phase || c.situation != situation
  {
    if cells == [] then None
    else if cells[0].phase == phase && cells[0].situation == situation then Some(0)
    else
      match FindCell(cells[1..], phase, situation)
      case None => None
      case Some(i) => Some(i + 1)
  }

  function OrElse<T>(a: Option<T>, b: Option<T>): Option<T> {
    if a.Some? then a else b
  }

  /** The most specific entry that covers the cell. */
  function EntryFor(cells: seq<Cell>, phase: string, situation: string): Option<nat> {
    OrElse(FindCell(cells, Some(phase), Some(situation)),
           OrElse(FindCell(cells, Some(phase), None), OrElse(FindCell(cells, None, Some(situation)), FindCell(cells, None, None))))
  }

  predicate Covers(c: Cell, phase: string, situation: string) {
    (c.phase.None? || c.phase.value == phase) && (c.situation.None? || c.situation.value == situation)
  }

  /** A named phase weighs more than a named situation. */
  function Specificity(c: Cell): nat {
    (if c.phase.Some? then 2 else 0) + if c.situation.Some? then 1 else 0
  }

  /** Of the entries that cover a cell, the one found is the most specific, and the first of
      its kind; none is found only when none covers it. */
  lemma EntryIsTheMostSpecific(cells: seq<Cell>, phase: string, situation: string)
    ensures var found := EntryFor(cells, phase, situation);
            match found
            case None => forall c | c in cells :: !Covers(c, phase, situation)
            case Some(i) =>
              && i < |cells| && Covers(cells[i], phase, situation)
              && (forall c | c in cells && Covers(c, phase, situation) :: Specificity(c) <= Specificity(cells[i]))
              && (forall j | 0 <= j < i && Covers(cells[j], phase, situation) :: Specificity(cells[j]) < Specificity(cells[i]))
  {
    FoundIsFirst(cells, Some(phase), Some(situation));
    FoundIsFirst(cells, Some(phase), None);
    FoundIsFirst(cells, None, Some(situation));
    FoundIsFirst(cells, None, None);
  }

  lemma {:induction false} FoundIsFirst(cells: seq<Cell>, phase: Option<string>, situation: Option<string>)
    ensures var found := FindCell(cells, phase, situation);
            found.Some? ==> forall j | 0 <= j < found.value :: cells[j].phase != phase || cells[j].situation != situation
  {
    if cells != [] && !(cells[0].phase == phase && cells[0].situation == situation) {
      FoundIsFirst(cells[1..], phase, situation);
    }
  }

  predicate MayBuyIn(allowed: seq<(Option<string>, Option<string>)>, phase: string, situation: string) {
    allowed == [] || exists c | c in allowed :: (c.0.None? || c.0.value == phase) && (c.1.None? || c.1.value == situation)
  }

  /** A buy may start in a cell when nothing is listed, or the cell, its phase, its situation or
      everything is. */
  lemma MayBuyMeans(allowed: seq<(Option<string>, Option<string>)>, phase: string, situation: string)
    ensures MayBuyIn(allowed, phase, situation)
            <==> || allowed == []
                 || (Some(phase), Some(situation)) in allowed || (Some(phase), None) in allowed
                 || (None, Some(situation)) in allowed || (None, None) in allowed
  {
    forall c | c in allowed
      ensures c == (c.0, c.1) && (c.0.Some? ==> c.0 == Some(c.0.value)) && (c.1.Some? ==> c.1 == Some(c.1.value))
    {
    }
  }

  /** Cells run phase by phase: cell `i` is phase `i / situations`, situation `i % situations`. */
  function CellEntries(t: TreeDef): seq<Option<nat>> {
    if t.situations == [] then []
    else
      seq(|t.phases| * |t.situations|, i requires 0 <= i < |t.phases| * |t.situations| =>
        CellBounds(i, |t.phases|, |t.situations|);
        EntryFor(t.cells, t.phases[i / |t.situations|].name, t.situations[i % |t.situations|].name))
  }

  function EntryOks(t: TreeDef, allowed: seq<(Option<string>, Option<string>)>): seq<bool> {
    if t.situations == [] then []
    else
      seq(|t.phases| * |t.situations|, i requires 0 <= i < |t.phases| * |t.situations| =>
        CellBounds(i, |t.phases|, |t.situations|);
        MayBuyIn(allowed, t.phases[i / |t.situations|].name, t.situations[i % |t.situations|].name))
  }

  lemma CellBounds(i: nat, phases: nat, situations: nat)
    requires situations > 0 && i < phases * situations
    ensures i / situations < phases && i % situations < situations
  {
  }

  function TreeAt(env: Env, cols: seq<SeriesColumn>, first: nat, t: TreeDef,
                  allowed: seq<(Option<string>, Option<string>)>): Tree {
    Tree(ListsAt(env, cols, Untils(t.phases)), ListsAt(env, cols, Whens(t.situations)), EntriesAt(env, cols, first, t.cells),
         CellEntries(t), EntryOks(t, allowed))
  }

  // ---- signals --------------------------------------------------------------

  /** The metric conditions of each group that has any; an emptied group is dropped. */
  function GroupsAt(env: Env, cols: seq<SeriesColumn>, groups: seq<seq<Cond>>): Signal {
    if groups == [] then []
    else
      var n := |groups| - 1;
      var g := ReqsOf(CondsAt(env, cols, groups[n]));
      GroupsAt(env, cols, groups[..n]) + if g == [] then [] else [g]
  }

  function SignalsAt(env: Env, cols: seq<SeriesColumn>, signals: seq<SignalDef>): seq<Signal> {
    if signals == [] then []
    else
      SignalsAt(env, cols, signals[..|signals| - 1]) + [GroupsAt(env, cols, signals[|signals| - 1].groups)]
  }

  function SignalLists(signals: seq<SignalDef>): seq<seq<Cond>> {
    if signals == [] then [] else SignalLists(signals[..|signals| - 1]) + signals[|signals| - 1].groups
  }

  // ---- the rule -------------------------------------------------------------

  function EntryLists(e: EnterDef): seq<seq<Cond>> {
    [e.event, e.filters, e.finalFilters]
  }

  /** Every condition list, in the order compiling meets them: the entry side first. */
  function ListsOf(p: Params): seq<seq<Cond>> {
    EntryLists(p.enter) + SignalLists(p.signals) + LineLists(p.always) + StageLists(p.stages) + TreeLists(p.tree)
  }

  const MAIN_STAGE := StagePlan(None, [], [], None)

  function FirstStageLine(env: Env, p: Params): nat {
    LineStart(|Shortcuts(env, p)|, p.always)
  }

  function FirstCellLine(env: Env, p: Params): nat {
    StageStart(FirstStageLine(env, p), p.stages)
  }

  function AlwaysAt(env: Env, cols: seq<SeriesColumn>, p: Params): seq<Line> {
    Shortcuts(env, p) + LinesAt(env, cols, |Shortcuts(env, p)|, p.always)
  }

  /** A rule with no stage gets one with nothing in it. */
  function PlansAt(env: Env, cols: seq<SeriesColumn>, p: Params): seq<StagePlan> {
    if p.stages == [] then [MAIN_STAGE] else StagesAt(env, cols, FirstStageLine(env, p), p.stages)
  }

  function MaybeTreeAt(env: Env, cols: seq<SeriesColumn>, p: Params): Option<Tree> {
    match p.tree
    case None => None
    case Some(t) => Some(TreeAt(env, cols, FirstCellLine(env, p), t, p.enter.cells))
  }

  function RuleAt(env: Env, p: Params, cols: seq<SeriesColumn>): Rule {
    Rule(CondsAt(env, cols, p.enter.event), CondsAt(env, cols, p.enter.filters), CondsAt(env, cols, p.enter.finalFilters), p.enter.lock,
         SignalsAt(env, cols, p.signals), AlwaysAt(env, cols, p), PlansAt(env, cols, p), MaybeTreeAt(env, cols, p),
         cols, [], NO_HORIZONS, p.followBought)
  }

  function Derived(rule: Rule): Rule {
    rule.(monoKills := DeriveKills(EntryConds(rule)), horizons := HorizonsOf(AllReqs(rule), rule.stages))
  }

  function Compiled(env: Env, p: Params): Rule {
    Derived(RuleAt(env, p, InternLists([], env.fp, ListsOf(p))))
  }

  // ---- what validation guarantees -------------------------------------------

  predicate CondNamed(env: Env, c: Cond) {
    c.SignalCond? ==> c.name in SignalNames(env.signals)
  }

  predicate CondsNamed(env: Env, cs: seq<Cond>) {
    forall c | c in cs :: CondNamed(env, c)
  }

  predicate LineNamed(env: Env, l: AuthoredLine) {
    CondsNamed(env, l.when) && (l.go.Some? ==> l.go.value in env.stages)
  }

  predicate LinesNamed(env: Env, ls: seq<AuthoredLine>) {
    forall l | l in ls :: LineNamed(env, l)
  }

  predicate StageNamed(env: Env, s: Stage) {
    LinesNamed(env, s.on) && LinesNamed(env, s.atEnd) && (s.next.Some? ==> s.next.value in env.stages)
  }

  predicate TreeNamed(env: Env, t: TreeDef) {
    && t.phases != [] && t.situations != []
    && (forall ph | ph in t.phases :: CondsNamed(env, ph.until))
    && (forall si | si in t.situations :: CondsNamed(env, si.when))
    && (forall c | c in t.cells :: LinesNamed(env, c.on))
  }

  predicate DistinctNames(names: seq<string>) {
    forall i, j | 0 <= i < j < |names| :: names[i] != names[j]
  }

  /** Every name resolves, stage names differ, signals hold metric conditions only, a tree
      has a phase and a situation. */
  predicate Named(env: Env, p: Params) {
    && env.signals == p.signals && env.stages == StageNames(p.stages) && DistinctNames(env.stages)
    && CondsNamed(env, p.enter.event) && CondsNamed(env, p.enter.filters) && CondsNamed(env, p.enter.finalFilters)
    && (forall s | s in p.signals :: forall g | g in s.groups :: forall c | c in g :: c.MetricCond?)
    && LinesNamed(env, p.always)
    && (forall s | s in p.stages :: StageNamed(env, s))
    && (p.tree.Some? ==> TreeNamed(env, p.tree.value))
  }
}
