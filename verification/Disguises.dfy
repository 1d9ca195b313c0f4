/** How one operation is disguised: its encoding, its compute limit, its fee and its tip, all
    drawn from the wallet's persona with a generator seeded by wallet and operation. */
module Disguises {
  import opened Metrics
  import opened Plans
  import opened Rng
  import opened Words

  const TRANSFER_CU: nat := 10_000

  datatype JitterRange = JitterRange(min: nat, max: nat)

  datatype Persona = Persona(name: string, buyVariants: seq<VariantName>, sellVariants: seq<VariantName>, cuHeadroom: JitterRange,
                             cuPrice: JitterRange, tip: JitterRange, nonSnipeTipPct: nat)

  datatype ComputeCfg = ComputeCfg(curveBuy: nat, curveCreate: nat, curveSell: nat, amm: nat)

  datatype Disguise = Disguise(variant: VariantName, cuLimit: nat, cuPrice: nat, tip: Option<nat>)

  /** Ranges of 64-bit words, short of the one range that has no 64-bit span. */
  predicate RangeOk(r: JitterRange) {
    r.min < WORD && r.max < WORD && !RangePanics(r.min, r.max)
  }

  predicate PersonaOk(p: Persona) {
    RangeOk(p.cuHeadroom) && RangeOk(p.cuPrice) && RangeOk(p.tip) && |p.buyVariants| < WORD && |p.sellVariants| < WORD
  }

  predicate CfgOk(cfg: ComputeCfg) {
    cfg.curveBuy <= U32_MAX && cfg.curveCreate <= U32_MAX && cfg.curveSell <= U32_MAX && cfg.amm <= U32_MAX
  }

  /** The measured cost of a variant's path. */
  function RealCu(cfg: ComputeCfg, s: VariantSpec): nat {
    match s.kind
    case Create => cfg.curveCreate
    case Buy => if s.stage == Amm then cfg.amm else cfg.curveBuy
    case Sell => if s.stage == Amm then cfg.amm else cfg.curveSell
    case _ => TRANSFER_CU
  }

  // ---- choosing the encoding ------------------------------------------------

  function Pool(p: Persona, kind: Kind): seq<VariantName> {
    match kind
    case Buy => p.buyVariants
    case Sell => p.sellVariants
    case _ => []
  }

  function StageOf(variant: VariantName): Option<VenueStage> {
    match SpecOf(variant)
    case None => None
    case Some(s) => Some(s.stage)
  }

  predicate Fits(op: Operation, name: VariantName) {
    Encodes(op, name) && StageOf(name) == StageOf(op.variant)
  }

  function Fitting(op: Operation, pool: seq<VariantName>): (out: seq<VariantName>)
    ensures |out| <= |pool|
    ensures forall n | n in out :: n in pool && Fits(op, n)
  {
    if pool == [] then []
    else
      var n := |pool| - 1;
      assert pool == pool[..n] + [pool[n]];
      Fitting(op, pool[..n]) + if Fits(op, pool[n]) then [pool[n]] else []
  }

  /** A fitting variant of the persona, else the authored one; only buys and sells choose. */
  function Choose(p: Persona, op: Operation, state: bv64): (d: Draw<VariantName>)
    requires PersonaOk(p)
    ensures d.value == op.variant || Fits(op, d.value)
  {
    var fitting := Fitting(op, Pool(p, op.kind));
    if fitting == [] then Draw(op.variant, state)
    else
      var i := IndexOf(state, |fitting|);
      Draw(fitting[i.value], i.state)
  }

  // ---- the rest of the disguise ---------------------------------------------

  function SaturatingAdd(a: nat, b: nat): nat {
    if a + b > U32_MAX then U32_MAX else a + b
  }

  /** A snipe always tips, another buy by the persona's odds, nothing else ever. */
  function TipOf(p: Persona, op: Operation, state: bv64): Draw<Option<nat>>
    requires PersonaOk(p)
  {
    if op.kind != Buy then Draw(None, state)
    else
      var yes := if op.intent == Snipe then Draw(true, state) else ChanceOf(state, p.nonSnipeTipPct);
      if !yes.value then Draw(None, yes.state)
      else
        var amount := RangeOf(yes.state, p.tip.min, p.tip.max);
        Draw(Some(amount.value), amount.state)
  }

  function AtLeastOne(n: nat): nat {
    if n < 1 then 1 else n
  }

  function DisguiseFrom(p: Persona, op: Operation, cfg: ComputeCfg, state: bv64): Draw<Disguise>
    requires PersonaOk(p) && SpecOf(op.variant).Some?
  {
    var chosen := Choose(p, op, state);
    var headroom := RangeOf(chosen.state, p.cuHeadroom.min, p.cuHeadroom.max);
    var price := RangeOf(headroom.state, AtLeastOne(p.cuPrice.min), AtLeastOne(p.cuPrice.max));
    var tip := TipOf(p, op, price.state);
    Draw(Disguise(chosen.value, LimitOver(cfg, chosen.value, headroom.value), price.value, tip.value), tip.state)
  }

  method ChooseVariant(p: Persona, op: Operation, rng: SplitMix64) returns (chosen: VariantName)
    requires PersonaOk(p)
    modifies rng
    ensures Draw(chosen, rng.state) == Choose(p, op, old(rng.state))
  {
    var pool := Pool(p, op.kind);
    var fitting := [];
    for i := 0 to |pool|
      invariant fitting == Fitting(op, pool[..i])
    {
      assert pool[..i + 1][..i] == pool[..i];
      if Fits(op, pool[i]) {
        fitting := fitting + [pool[i]];
      }
    }
    assert pool[..|pool|] == pool;
    if fitting == [] {
      return op.variant;
    }
    var i := rng.Index(|fitting|);
    return fitting[i];
  }

  method DrawTip(p: Persona, op: Operation, rng: SplitMix64) returns (tip: Option<nat>)
    requires PersonaOk(p)
    modifies rng
    ensures Draw(tip, rng.state) == TipOf(p, op, old(rng.state))
  {
    if op.kind != Buy {
      return None;
    }
    var tips := true;
    if op.intent != Snipe {
      tips := rng.Chance(p.nonSnipeTipPct);
    }
    if !tips {
      return None;
    }
    var amount := rng.Range(p.tip.min, p.tip.max);
    return Some(amount);
  }

  function LimitOver(cfg: ComputeCfg, variant: VariantName, headroom: nat): nat
    requires SpecOf(variant).Some?
  {
    SaturatingAdd(RealCu(cfg, SpecOf(variant).value), MinNat(headroom, U32_MAX))
  }

  /** The draws in order, from one generator. */
  method DrawDisguise(p: Persona, op: Operation, cfg: ComputeCfg, rng: SplitMix64) returns (d: Disguise)
    requires PersonaOk(p) && SpecOf(op.variant).Some?
    modifies rng
    ensures Draw(d, rng.state) == DisguiseFrom(p, op, cfg, old(rng.state))
  {
    var chosen := ChooseVariant(p, op, rng);
    var headroom := rng.Range(p.cuHeadroom.min, p.cuHeadroom.max);
    var cuPrice := rng.Range(AtLeastOne(p.cuPrice.min), AtLeastOne(p.cuPrice.max));
    var tip := DrawTip(p, op, rng);
    d := Disguise(chosen, LimitOver(cfg, chosen, headroom), cuPrice, tip);
  }

  /** A snipe always tips, a buy that is no snipe on its persona's share of each hundred
      outputs, nothing else ever; and a tip is within the persona's range. */
  lemma TipPolicy(p: Persona, op: Operation, state: bv64)
    requires PersonaOk(p)
    ensures var tip := TipOf(p, op, state).value;
            && (op.kind != Buy ==> tip == None)
            && (op.kind == Buy && op.intent == Snipe ==> tip.Some?)
            && (op.kind == Buy && op.intent != Snipe ==> (tip.Some? <==> Widen(Output(state, 0)) % 100 < p.nonSnipeTipPct))
            && (tip.Some? ==> if p.tip.min <= p.tip.max then p.tip.min <= tip.value <= p.tip.max else tip.value == p.tip.min)
  {
    ChanceIsPctOfAHundred(state, p.nonSnipeTipPct);
  }

  /** The limit is the measured cost and the headroom together, at most what 32 bits hold. */
  lemma LimitCoversTheCost(cfg: ComputeCfg, variant: VariantName, headroom: nat)
    requires CfgOk(cfg) && SpecOf(variant).Some?
    ensures var cost := RealCu(cfg, SpecOf(variant).value);
            && cost <= LimitOver(cfg, variant, headroom) <= U32_MAX
            && LimitOver(cfg, variant, headroom) == if cost + headroom <= U32_MAX then cost + headroom else U32_MAX
  {
  }

  /** A disguise always lands: the limit covers the measured cost of the encoding it chose,
      the fee is never zero, a snipe always tips within the persona's range, and a sell, a
      create or a transfer never tips. */
  lemma DisguiseLands(p: Persona, op: Operation, cfg: ComputeCfg, state: bv64)
    requires PersonaOk(p) && CfgOk(cfg) && SpecOf(op.variant).Some?
    ensures var d := DisguiseFrom(p, op, cfg, state).value;
            && SpecOf(d.variant).Some? && RealCu(cfg, SpecOf(d.variant).value) <= d.cuLimit <= U32_MAX
            && d.cuPrice >= 1
            && (op.kind != Buy ==> d.tip == None)
            && (op.kind == Buy && op.intent == Snipe ==> d.tip.Some?)
            && (d.tip.Some? && p.tip.min <= p.tip.max ==> p.tip.min <= d.tip.value <= p.tip.max)
  {
    var chosen := Choose(p, op, state);
    var headroom := RangeOf(chosen.state, p.cuHeadroom.min, p.cuHeadroom.max);
    var price := RangeOf(headroom.state, AtLeastOne(p.cuPrice.min), AtLeastOne(p.cuPrice.max));
    LimitCoversTheCost(cfg, chosen.value, headroom.value);
    TipPolicy(p, op, price.state);
  }

  /** The chosen encoding is the authored one, or a catalog row of the same kind and stage
      that can encode the same amount. */
  lemma DisguiseKeepsTheOperation(p: Persona, op: Operation, cfg: ComputeCfg, state: bv64)
    requires PersonaOk(p) && Encodes(op, op.variant)
    ensures var v := DisguiseFrom(p, op, cfg, state).value.variant;
            Encodes(op, v) && StageOf(v) == StageOf(op.variant)
  {
  }

  /** The compute an operation is measured at, by what it does and where. */
  function OperationCost(cfg: ComputeCfg, op: Operation): nat {
    if op.kind == TransferSol || op.kind == TransferToken then 10_000
    else if op.kind == Create then cfg.curveCreate
    else if StageOf(op.variant) == Some(Amm) then cfg.amm
    else if op.kind == Buy then cfg.curveBuy
    else cfg.curveSell
  }

  /** Whatever encoding is drawn, it is measured at the operation's own cost. */
  lemma DrawnEncodingCostsTheSame(p: Persona, op: Operation, cfg: ComputeCfg, state: bv64)
    requires PersonaOk(p) && Encodes(op, op.variant)
    ensures var v := DisguiseFrom(p, op, cfg, state).value.variant;
            SpecOf(v).Some? && RealCu(cfg, SpecOf(v).value) == OperationCost(cfg, op)
  {
    DisguiseKeepsTheOperation(p, op, cfg, state);
    EncodingCosts(op, cfg, DisguiseFrom(p, op, cfg, state).value.variant);
  }

  lemma EncodingCosts(op: Operation, cfg: ComputeCfg, v: VariantName)
    requires Encodes(op, v) && StageOf(v) == StageOf(op.variant)
    ensures SpecOf(v).Some? && RealCu(cfg, SpecOf(v).value) == OperationCost(cfg, op)
  {
  }

  /** The limit also covers the encoding a locked operation keeps instead of the drawn one. */
  lemma LockedEncodingLands(p: Persona, op: Operation, cfg: ComputeCfg, state: bv64)
    requires PersonaOk(p) && CfgOk(cfg) && Encodes(op, op.variant)
    ensures RealCu(cfg, SpecOf(op.variant).value) <= DisguiseFrom(p, op, cfg, state).value.cuLimit
  {
    var d := DisguiseFrom(p, op, cfg, state).value;
    DisguiseLands(p, op, cfg, state);
    DisguiseKeepsTheOperation(p, op, cfg, state);
    assert RealCu(cfg, SpecOf(d.variant).value) == RealCu(cfg, SpecOf(op.variant).value);
  }

  // ---- drawing again --------------------------------------------------------

  lemma {:induction false} FittingIgnoresTheSwap(op: Operation, pool: seq<VariantName>, v: VariantName)
    requires StageOf(v) == StageOf(op.variant)
    ensures Fitting(op.(variant := v), pool) == Fitting(op, pool)
  {
    if pool != [] {
      FittingIgnoresTheSwap(op, pool[..|pool| - 1], v);
    }
  }

  lemma ChoiceIsStable(p: Persona, op: Operation, state: bv64)
    requires PersonaOk(p) && Encodes(op, op.variant)
    ensures var v := Choose(p, op, state).value;
            Encodes(op, v) && Choose(p, op.(variant := v), state) == Choose(p, op, state)
  {
    FittingIgnoresTheSwap(op, Pool(p, op.kind), Choose(p, op, state).value);
  }

  /** Disguising the disguised operation draws the same disguise again. */
  lemma DisguiseIsStable(p: Persona, op: Operation, cfg: ComputeCfg, state: bv64)
    requires PersonaOk(p) && Encodes(op, op.variant)
    ensures var d := DisguiseFrom(p, op, cfg, state).value;
            SpecOf(d.variant).Some? && DisguiseFrom(p, op.(variant := d.variant), cfg, state).value == d
  {
    ChoiceIsStable(p, op, state);
  }

  // ---- every disguise a persona allows is drawn -----------------------------

  /** The state that is about to be drawn from after `uses` outputs. */
  function RewindBy(state: bv64, uses: nat): bv64 {
    if uses == 0 then state else Retreat(RewindBy(state, uses - 1))
  }

  function Uses(r: JitterRange): nat {
    if r.min < r.max then 1 else 0
  }

  function ChoiceUses(p: Persona, op: Operation): nat {
    if |Fitting(op, Pool(p, op.kind))| > 1 then 1 else 0
  }

  lemma ChoiceRewinds(p: Persona, op: Operation, state: bv64)
    requires PersonaOk(p)
    ensures Choose(p, op, RewindBy(state, ChoiceUses(p, op))).state == state
  {
    RetreatIsUndone(state);
    assert RewindBy(state, 1) == Retreat(RewindBy(state, 0));
  }

  lemma RangeRewinds(r: JitterRange, state: bv64)
    requires RangeOk(r)
    ensures RangeOf(RewindBy(state, Uses(r)), r.min, r.max).state == state
  {
    RetreatIsUndone(state);
    assert RewindBy(state, 1) == Retreat(RewindBy(state, 0));
  }

  /** The price range as it is drawn: a fee is never zero. */
  function PriceRange(p: Persona): JitterRange {
    JitterRange(AtLeastOne(p.cuPrice.min), AtLeastOne(p.cuPrice.max))
  }

  lemma PriceRangeIsOk(p: Persona)
    requires PersonaOk(p)
    ensures RangeOk(PriceRange(p))
  {
    PanicsOnTheFullRangeAlone(PriceRange(p).min, PriceRange(p).max);
  }

  /** Each fitting encoding of the persona is drawn from some state. */
  lemma EveryFittingVariantIsDrawn(p: Persona, op: Operation, cfg: ComputeCfg, name: VariantName) returns (state: bv64)
    requires PersonaOk(p) && SpecOf(op.variant).Some? && name in Fitting(op, Pool(p, op.kind))
    ensures DisguiseFrom(p, op, cfg, state).value.variant == name
  {
    var fitting := Fitting(op, Pool(p, op.kind));
    var i: nat :| i < |fitting| && fitting[i] == name;
    state := EveryIndexIsDrawn(|fitting|, i);
  }

  /** So is each headroom of its range, on top of the cost of the encoding then chosen. */
  lemma EveryHeadroomIsDrawn(p: Persona, op: Operation, cfg: ComputeCfg, headroom: nat) returns (state: bv64)
    requires PersonaOk(p) && SpecOf(op.variant).Some? && p.cuHeadroom.min <= headroom <= p.cuHeadroom.max
    ensures var d := DisguiseFrom(p, op, cfg, state).value;
            SpecOf(d.variant).Some? && d.cuLimit == LimitOver(cfg, d.variant, headroom)
  {
    var at := EveryValueIsDrawn(p.cuHeadroom.min, p.cuHeadroom.max, headroom);
    state := RewindBy(at, ChoiceUses(p, op));
    ChoiceRewinds(p, op, at);
  }

  /** Each price of its range, zero counting as one. */
  lemma EveryPriceIsDrawn(p: Persona, op: Operation, cfg: ComputeCfg, price: nat) returns (state: bv64)
    requires PersonaOk(p) && SpecOf(op.variant).Some? && p.cuPrice.min <= price <= p.cuPrice.max
    ensures DisguiseFrom(p, op, cfg, state).value.cuPrice == AtLeastOne(price)
  {
    PriceRangeIsOk(p);
    var at := EveryValueIsDrawn(PriceRange(p).min, PriceRange(p).max, AtLeastOne(price));
    var before := RewindBy(at, Uses(p.cuHeadroom));
    RangeRewinds(p.cuHeadroom, at);
    state := RewindBy(before, ChoiceUses(p, op));
    ChoiceRewinds(p, op, before);
  }

  /** The state whose tip is about to be drawn. */
  lemma TipIsDrawnFrom(p: Persona, op: Operation, cfg: ComputeCfg, at: bv64) returns (state: bv64)
    requires PersonaOk(p) && SpecOf(op.variant).Some?
    ensures DisguiseFrom(p, op, cfg, state).value.tip == TipOf(p, op, at).value
  {
    PriceRangeIsOk(p);
    var price := RewindBy(at, Uses(PriceRange(p)));
    RangeRewinds(PriceRange(p), at);
    var headroom := RewindBy(price, Uses(p.cuHeadroom));
    RangeRewinds(p.cuHeadroom, price);
    state := RewindBy(headroom, ChoiceUses(p, op));
    ChoiceRewinds(p, op, headroom);
  }

  /** Each tip of its range, by a snipe. */
  lemma EveryTipIsDrawn(p: Persona, op: Operation, cfg: ComputeCfg, tip: nat) returns (state: bv64)
    requires PersonaOk(p) && SpecOf(op.variant).Some? && p.tip.min <= tip <= p.tip.max
    requires op.kind == Buy && op.intent == Snipe
    ensures DisguiseFrom(p, op, cfg, state).value.tip == Some(tip)
  {
    var at := EveryValueIsDrawn(p.tip.min, p.tip.max, tip);
    state := TipIsDrawnFrom(p, op, cfg, at);
  }

  predicate Tips(p: Persona, op: Operation, cfg: ComputeCfg, state: bv64)
    requires PersonaOk(p) && SpecOf(op.variant).Some?
  {
    DisguiseFrom(p, op, cfg, state).value.tip.Some?
  }

  predicate TipsByOdds(op: Operation) {
    op.kind == Buy && op.intent != Snipe
  }

  lemma CertainOdds(p: Persona, op: Operation, cfg: ComputeCfg, state: bv64)
    requires PersonaOk(p) && SpecOf(op.variant).Some? && TipsByOdds(op)
    ensures p.nonSnipeTipPct == 0 ==> !Tips(p, op, cfg, state)
    ensures p.nonSnipeTipPct >= 100 ==> Tips(p, op, cfg, state)
  {
    var chosen := Choose(p, op, state);
    var headroom := RangeOf(chosen.state, p.cuHeadroom.min, p.cuHeadroom.max);
    var price := RangeOf(headroom.state, AtLeastOne(p.cuPrice.min), AtLeastOne(p.cuPrice.max));
    TipPolicy(p, op, price.state);
  }

  lemma RollDecides(p: Persona, op: Operation, roll: nat) returns (at: bv64)
    requires PersonaOk(p) && TipsByOdds(op) && roll < 100
    ensures TipOf(p, op, at).value.Some? <==> roll < p.nonSnipeTipPct
  {
    at := EveryOutputIsDrawn(roll);
    RemainderIsUnique(0, 100, roll);
    TipPolicy(p, op, at);
  }

  /** A state whose roll of a hundred is the given one. */
  lemma RollIsDrawn(p: Persona, op: Operation, cfg: ComputeCfg, roll: nat) returns (state: bv64)
    requires PersonaOk(p) && SpecOf(op.variant).Some? && TipsByOdds(op) && roll < 100
    ensures Tips(p, op, cfg, state) <==> roll < p.nonSnipeTipPct
  {
    var at := RollDecides(p, op, roll);
    state := TipIsDrawnFrom(p, op, cfg, at);
  }

  /** A buy that is no snipe tips from some state exactly when the persona's odds are not
      zero, and does not from some state exactly when they are no certainty. */
  lemma OtherBuysTipAtTheirOdds(p: Persona, op: Operation, cfg: ComputeCfg)
    requires PersonaOk(p) && SpecOf(op.variant).Some? && TipsByOdds(op)
    ensures (exists state :: Tips(p, op, cfg, state)) <==> p.nonSnipeTipPct > 0
    ensures (exists state :: !Tips(p, op, cfg, state)) <==> p.nonSnipeTipPct < 100
  {
    var low := RollIsDrawn(p, op, cfg, 0);
    var high := RollIsDrawn(p, op, cfg, 99);
    forall state
      ensures p.nonSnipeTipPct == 0 ==> !Tips(p, op, cfg, state)
      ensures p.nonSnipeTipPct >= 100 ==> Tips(p, op, cfg, state)
    {
      CertainOdds(p, op, cfg, state);
    }
  }

  // ---- personas -------------------------------------------------------------

  datatype PersonaSet = PersonaSet(personas: seq<Persona>)

  predicate SetOk(s: PersonaSet) {
    0 < |s.personas| < WORD && forall p | p in s.personas :: PersonaOk(p)
  }

  /** A wallet's persona: its hash, over the size of the set. */
  function Assign(s: PersonaSet, hash: bv64): (p: Persona)
    requires SetOk(s)
    ensures p in s.personas
  {
    s.personas[Widen(hash) % |s.personas|]
  }

  /** How wallets are hashed, and how a wallet and an operation id seed a generator. */
  datatype Seeding = Seeding(hash: string -> bv64, seed: (string, nat) -> bv64)

  function Salt(id: bv32): bv64 {
    id as bv64
  }

  /** The source's seeding, over any wallet hash; `word` is the 32-bit word that holds an id. */
  function WalletSeeding(hash: string -> bv64, word: nat -> bv32): Seeding {
    Seeding(hash, (wallet: string, id: nat) => Seed(hash(wallet), Salt(word(id))))
  }

  function ForOp(s: PersonaSet, op: Operation, cfg: ComputeCfg, how: Seeding): Disguise
    requires SetOk(s) && SpecOf(op.variant).Some?
  {
    DisguiseFrom(Assign(s, how.hash(op.wallet.pubkey)), op, cfg, how.seed(op.wallet.pubkey, op.id)).value
  }

  lemma ForOpKeepsTheOperation(s: PersonaSet, op: Operation, cfg: ComputeCfg, how: Seeding)
    requires SetOk(s) && Encodes(op, op.variant)
    ensures var v := ForOp(s, op, cfg, how).variant;
            Encodes(op, v) && StageOf(v) == StageOf(op.variant)
  {
  }

  lemma ForOpIsStable(s: PersonaSet, op: Operation, cfg: ComputeCfg, how: Seeding)
    requires SetOk(s) && Encodes(op, op.variant)
    ensures var d := ForOp(s, op, cfg, how);
            SpecOf(d.variant).Some? && ForOp(s, op.(variant := d.variant), cfg, how) == d
  {
    DisguiseIsStable(Assign(s, how.hash(op.wallet.pubkey)), op, cfg, how.seed(op.wallet.pubkey, op.id));
  }

  lemma WidenedWordsDiffer(x: bv32, y: bv32)
    requires x != y
    ensures Salt(x) != Salt(y)
  {
  }

  /** Two operations of one wallet never draw from the same stream: at every step their
      generators are about to give different outputs. */
  lemma OperationsOfOneWalletDrawApart(hash: string -> bv64, word: nat -> bv32, wallet: string, i: nat, j: nat, n: nat)
    requires word(i) != word(j)
    ensures var how := WalletSeeding(hash, word);
            Output(how.seed(wallet, i), n) != Output(how.seed(wallet, j), n)
  {
    WidenedWordsDiffer(word(i), word(j));
    DifferentSaltsDiffer(hash(wallet), Salt(word(i)), Salt(word(j)), n);
  }
}
