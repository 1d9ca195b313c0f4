/** What a launch leg's wallet is funded to, and why that pays for the leg whatever its persona
    draws. */
module Funding {
  import opened Metrics
  import opened Plans
  import opened Rng
  import opened Disguises

  const SIGNATURE_FEE: nat := 5_000
  const TOKEN_ACCOUNT_SPACE: nat := 165
  const TOKEN_2022_ACCOUNT_SPACE: nat := 182

  /** Rent exemption of an account holding `space` bytes, at the default rent. */
  function RentExempt(space: nat): nat {
    (128 + space) * 6_960
  }

  /** Division rounding up, by a million. */
  function CeilMillion(n: nat): (m: nat)
    ensures n <= 1_000_000 * m < n + 1_000_000
  {
    (n + 999_999) / 1_000_000
  }

  /** The priority fee of a transaction: its compute limit at its price per compute unit. */
  function PriorityFee(cuLimit: nat, cuPrice: nat): nat {
    CeilMillion(cuLimit * cuPrice)
  }

  // ---- the worst case -------------------------------------------------------

  function TopLimit(p: Persona, cuFloor: nat): nat {
    cuFloor + p.cuHeadroom.max
  }

  /** A persona's highest fee, before it is cast to 64 bits. */
  function TopFee(p: Persona, cuFloor: nat): nat {
    PriorityFee(TopLimit(p, cuFloor), p.cuPrice.max)
  }

  function MaxOf(a: nat, b: nat): nat {
    if a < b then b else a
  }

  /** The highest fee any persona draws; the cast keeps the low 64 bits. */
  function MaxPriorityFee(ps: seq<Persona>, cuFloor: nat): (fee: nat)
    ensures fee < WORD
  {
    if ps == [] then 0 else MaxOf(TopFee(ps[0], cuFloor) % WORD, MaxPriorityFee(ps[1..], cuFloor))
  }

  function MaxTip(ps: seq<Persona>): nat {
    if ps == [] then 0 else MaxOf(ps[0].tip.max, MaxTip(ps[1..]))
  }

  predicate FeesFit(ps: seq<Persona>, cuFloor: nat) {
    forall p | p in ps :: TopFee(p, cuFloor) < WORD
  }

  lemma {:induction false} MaxPriorityFeeCovers(ps: seq<Persona>, cuFloor: nat, p: Persona)
    requires p in ps && TopFee(p, cuFloor) < WORD
    ensures TopFee(p, cuFloor) <= MaxPriorityFee(ps, cuFloor)
  {
    if ps[0] != p {
      MaxPriorityFeeCovers(ps[1..], cuFloor, p);
    }
  }

  /** Neither figure is made up: some persona holds it. */
  lemma {:induction false} TopsAreHeld(ps: seq<Persona>, cuFloor: nat)
    requires ps != []
    ensures exists p | p in ps :: TopFee(p, cuFloor) % WORD == MaxPriorityFee(ps, cuFloor)
    ensures exists p | p in ps :: p.tip.max == MaxTip(ps)
  {
    assert ps[0] in ps && forall p | p in ps[1..] :: p in ps;
    if |ps| > 1 {
      TopsAreHeld(ps[1..], cuFloor);
    } else {
      assert MaxPriorityFee(ps[1..], cuFloor) == MaxTip(ps[1..]) == 0;
    }
  }

  /** The figure is at least every persona's true worst fee exactly when none of them is cut
      short by the cast. */
  lemma MaxFeeIsTheWorstCaseIff(ps: seq<Persona>, cuFloor: nat)
    ensures (forall p | p in ps :: TopFee(p, cuFloor) <= MaxPriorityFee(ps, cuFloor)) <==> FeesFit(ps, cuFloor)
  {
    if FeesFit(ps, cuFloor) {
      forall p | p in ps
        ensures TopFee(p, cuFloor) <= MaxPriorityFee(ps, cuFloor)
      {
        MaxPriorityFeeCovers(ps, cuFloor, p);
      }
    }
  }

  lemma {:induction false} MaxTipCovers(ps: seq<Persona>, p: Persona)
    requires p in ps
    ensures p.tip.max <= MaxTip(ps)
  {
    if ps[0] != p {
      MaxTipCovers(ps[1..], p);
    }
  }

  // ---- what a draw can be ---------------------------------------------------

  predicate Ordered(r: JitterRange) {
    r.min <= r.max
  }

  /** Validation does not ask for this: a persona may carry a reversed range. */
  predicate RangesOrdered(p: Persona) {
    Ordered(p.cuHeadroom) && Ordered(p.cuPrice) && Ordered(p.tip)
  }

  /** A draw stays at or below the range's top exactly when the range is not reversed. */
  lemma DrawIsBoundedIffOrdered(r: JitterRange, state: bv64)
    requires RangeOk(r)
    ensures RangeOf(state, r.min, r.max).value <= r.max <==> Ordered(r)
  {
  }

  lemma FeeGrows(a: nat, b: nat, x: nat, y: nat)
    requires a <= b && x <= y
    ensures PriorityFee(a, x) <= PriorityFee(b, y)
  {
    assert a * x <= b * x;
    assert b * x <= b * y;
  }

  /** The draws behind a disguise stay in their ranges. */
  lemma DrawsStayInRange(p: Persona, op: Operation, cfg: ComputeCfg, state: bv64) returns (headroom: nat)
    requires PersonaOk(p) && RangesOrdered(p) && p.cuPrice.min > 0 && SpecOf(op.variant).Some?
    ensures headroom <= p.cuHeadroom.max
    ensures var d := DisguiseFrom(p, op, cfg, state).value;
            && SpecOf(d.variant).Some? && d.cuLimit == LimitOver(cfg, d.variant, headroom)
            && d.cuPrice <= p.cuPrice.max && (d.tip.Some? ==> d.tip.value <= p.tip.max)
  {
    var chosen := Choose(p, op, state);
    var drawn := RangeOf(chosen.state, p.cuHeadroom.min, p.cuHeadroom.max);
    var price := RangeOf(drawn.state, AtLeastOne(p.cuPrice.min), AtLeastOne(p.cuPrice.max));
    headroom := drawn.value;
  }

  lemma LimitCostIsBounded(p: Persona, cfg: ComputeCfg, variant: VariantName, headroom: nat, cuPrice: nat)
    requires SpecOf(variant).Some? && RealCu(cfg, SpecOf(variant).value) == cfg.curveBuy
    requires headroom <= p.cuHeadroom.max && cuPrice <= p.cuPrice.max
    ensures PriorityFee(LimitOver(cfg, variant, headroom), cuPrice) <= TopFee(p, cfg.curveBuy)
  {
    FeeGrows(LimitOver(cfg, variant, headroom), TopLimit(p, cfg.curveBuy), cuPrice, p.cuPrice.max);
  }

  /** What a persona draws for a curve buy costs no more than its top fee and its top tip. */
  lemma DrawnCostIsBounded(p: Persona, op: Operation, cfg: ComputeCfg, state: bv64)
    requires PersonaOk(p) && RangesOrdered(p) && p.cuPrice.min > 0
    requires op.kind == Buy && Encodes(op, op.variant) && StageOf(op.variant) == Some(Curve)
    ensures var d := DisguiseFrom(p, op, cfg, state).value;
            && PriorityFee(d.cuLimit, d.cuPrice) <= TopFee(p, cfg.curveBuy)
            && (d.tip.Some? ==> d.tip.value <= p.tip.max)
  {
    var headroom := DrawsStayInRange(p, op, cfg, state);
    DisguiseKeepsTheOperation(p, op, cfg, state);
    DrawnFee(p, op, cfg, DisguiseFrom(p, op, cfg, state).value, headroom);
  }

  lemma DrawnFee(p: Persona, op: Operation, cfg: ComputeCfg, d: Disguise, headroom: nat)
    requires op.kind == Buy && Encodes(op, d.variant) && StageOf(d.variant) == Some(Curve)
    requires d.cuLimit == LimitOver(cfg, d.variant, headroom) && headroom <= p.cuHeadroom.max && d.cuPrice <= p.cuPrice.max
    ensures PriorityFee(d.cuLimit, d.cuPrice) <= TopFee(p, cfg.curveBuy)
  {
    LimitCostIsBounded(p, cfg, d.variant, headroom, d.cuPrice);
  }

  // ---- the funding target ---------------------------------------------------

  function BaseAccountSpace(token2022: bool): nat {
    if token2022 then TOKEN_2022_ACCOUNT_SPACE else TOKEN_ACCOUNT_SPACE
  }

  function QuoteOf(quotePerLeg: int): nat {
    if quotePerLeg < 0 then 0 else quotePerLeg
  }

  /** What a leg wallet must hold, as an exact sum. */
  function LegSum(set_: PersonaSet, cfg: ComputeCfg, quotePerLeg: int, token2022: bool): nat {
    QuoteOf(quotePerLeg)
    + RentExempt(BaseAccountSpace(token2022)) + RentExempt(TOKEN_ACCOUNT_SPACE)
    + SIGNATURE_FEE + MaxPriorityFee(set_.personas, cfg.curveBuy) + MaxTip(set_.personas)
    + RentExempt(0)
  }

  /** The target it is funded to: the sum in a 64-bit word. */
  function LegRequired(set_: PersonaSet, cfg: ComputeCfg, quotePerLeg: int, token2022: bool): (n: nat)
    ensures n < WORD
  {
    LegSum(set_, cfg, quotePerLeg, token2022) % WORD
  }

  /** The largest quote a signed 64-bit word holds. */
  const MAX_QUOTE: int := 0x7FFF_FFFF_FFFF_FFFF

  /** Everything a leg pays for besides its buy. */
  function LegOverhead(set_: PersonaSet, cfg: ComputeCfg, token2022: bool): nat {
    LegSum(set_, cfg, 0, token2022)
  }

  /** The target is the exact sum when the word holds it, and no quote is too large for it
      exactly when the personas' worst fee and tip, with the rents, leave that much room. */
  lemma TargetIsExactIffItFits(set_: PersonaSet, cfg: ComputeCfg, token2022: bool)
    ensures forall q: int :: LegRequired(set_, cfg, q, token2022) == LegSum(set_, cfg, q, token2022) <==> LegSum(set_, cfg, q, token2022) < WORD
    ensures (forall q: int | q <= MAX_QUOTE :: LegRequired(set_, cfg, q, token2022) == LegSum(set_, cfg, q, token2022))
            <==> LegOverhead(set_, cfg, token2022) + MAX_QUOTE < WORD
  {
    forall q: int
      ensures LegRequired(set_, cfg, q, token2022) == LegSum(set_, cfg, q, token2022) <==> LegSum(set_, cfg, q, token2022) < WORD
      ensures LegSum(set_, cfg, q, token2022) == LegOverhead(set_, cfg, token2022) + QuoteOf(q)
    {
    }
    assert LegSum(set_, cfg, MAX_QUOTE, token2022) == LegOverhead(set_, cfg, token2022) + MAX_QUOTE;
  }

  /** A co-buy asks for no minimum: the bundle's tip rides the create leg. */
  const COBUY_MIN_TIP: nat := 0

  /** What a leg tips: its draw, raised to its share of the bundle's tip. */
  function LegTip(d: Disguise, minTip: nat): nat {
    MaxOf(if d.tip.Some? then d.tip.value else 0, minTip)
  }

  /** The SOL a buy spends; nothing but a SOL budget is accepted. */
  function BuyLamports(op: Operation): Option<nat> {
    if op.amount.ExactQuote? then Some(op.amount.quote) else None
  }

  /** What the leg really takes out: its buy, the token account, the quote account of a v2
      encoding, and the fees and tip its disguise drew. */
  function LegSpends(buy: nat, variant: VariantSpec, d: Disguise, minTip: nat, token2022: bool): nat {
    buy
    + RentExempt(BaseAccountSpace(token2022)) + (if variant.v2Accounts then RentExempt(TOKEN_ACCOUNT_SPACE) else 0)
    + SIGNATURE_FEE + PriorityFee(d.cuLimit, d.cuPrice) + LegTip(d, minTip)
  }

  lemma SpendIsCovered(set_: PersonaSet, cfg: ComputeCfg, quotePerLeg: int, token2022: bool, variant: VariantSpec,
                       d: Disguise, minTip: nat)
    requires PriorityFee(d.cuLimit, d.cuPrice) <= MaxPriorityFee(set_.personas, cfg.curveBuy)
    requires d.tip.Some? ==> d.tip.value <= MaxTip(set_.personas)
    requires minTip <= MaxTip(set_.personas) && LegSum(set_, cfg, quotePerLeg, token2022) < WORD
    ensures LegRequired(set_, cfg, quotePerLeg, token2022)
            - LegSpends(QuoteOf(quotePerLeg), variant, d, minTip, token2022) >= RentExempt(0)
  {
    assert LegRequired(set_, cfg, quotePerLeg, token2022) == LegSum(set_, cfg, quotePerLeg, token2022);
  }

  /** The disguise a leg sends under draws no more than the set's worst fee and tip. */
  lemma LegDrawIsBounded(set_: PersonaSet, cfg: ComputeCfg, how: Seeding, op: Operation)
    requires SetOk(set_) && FeesFit(set_.personas, cfg.curveBuy)
    requires forall p | p in set_.personas :: RangesOrdered(p) && p.cuPrice.min > 0
    requires op.kind == Buy && Encodes(op, op.variant) && StageOf(op.variant) == Some(Curve)
    ensures var d := ForOp(set_, op, cfg, how);
            && PriorityFee(d.cuLimit, d.cuPrice) <= MaxPriorityFee(set_.personas, cfg.curveBuy)
            && (d.tip.Some? ==> d.tip.value <= MaxTip(set_.personas))
  {
    var p := Assign(set_, how.hash(op.wallet.pubkey));
    DrawnCostIsBounded(p, op, cfg, how.seed(op.wallet.pubkey, op.id));
    MaxPriorityFeeCovers(set_.personas, cfg.curveBuy, p);
    MaxTipCovers(set_.personas, p);
  }

  /** A wallet funded to the target pays for its leg and keeps the rent-exempt minimum: for
      every wallet, operation id, curve buy encoding and draw, whether the leg sends the drawn
      encoding or, locked, its own, as long as no range is reversed, no worst fee is cut short,
      no leg is asked for more tip than a persona can draw and the target fits its word. */
  lemma FundedLegCanPay(set_: PersonaSet, cfg: ComputeCfg, how: Seeding, op: Operation, minTip: nat,
                        quotePerLeg: int, token2022: bool)
    requires SetOk(set_) && FeesFit(set_.personas, cfg.curveBuy)
    requires forall p | p in set_.personas :: RangesOrdered(p) && p.cuPrice.min > 0
    requires op.kind == Buy && Encodes(op, op.variant) && StageOf(op.variant) == Some(Curve)
    requires BuyLamports(op) == Some(QuoteOf(quotePerLeg)) && minTip <= MaxTip(set_.personas)
    requires LegSum(set_, cfg, quotePerLeg, token2022) < WORD
    ensures var d := ForOp(set_, op, cfg, how);
            var sent := if op.lockVariant then op.variant else d.variant;
            && SpecOf(sent).Some?
            && LegRequired(set_, cfg, quotePerLeg, token2022) - LegSpends(QuoteOf(quotePerLeg), SpecOf(sent).value, d, minTip, token2022) >= RentExempt(0)
  {
    var d := ForOp(set_, op, cfg, how);
    LegDrawIsBounded(set_, cfg, how, op);
    ForOpKeepsTheOperation(set_, op, cfg, how);
    var sent := if op.lockVariant then op.variant else d.variant;
    SpendIsCovered(set_, cfg, quotePerLeg, token2022, SpecOf(sent).value, d, minTip);
  }

  // ---- the target is no more than needed ------------------------------------

  /** A disguise the persona may draw for the operation. */
  predicate Permitted(p: Persona, op: Operation, cfg: ComputeCfg, d: Disguise) {
    && (d.variant == op.variant || d.variant in Fitting(op, Pool(p, op.kind))) && SpecOf(d.variant).Some?
    && (exists headroom | p.cuHeadroom.min <= headroom <= p.cuHeadroom.max :: d.cuLimit == LimitOver(cfg, d.variant, headroom))
    && p.cuPrice.min <= d.cuPrice <= p.cuPrice.max
    && (match d.tip
        case None => op.intent != Snipe && p.nonSnipeTipPct < 100
        case Some(tip) => p.tip.min <= tip <= p.tip.max && (op.intent == Snipe || p.nonSnipeTipPct > 0))
  }

  /** What is drawn for a buy is permitted. */
  lemma DrawsArePermitted(p: Persona, op: Operation, cfg: ComputeCfg, state: bv64)
    requires PersonaOk(p) && RangesOrdered(p) && p.cuPrice.min > 0 && SpecOf(op.variant).Some? && op.kind == Buy
    ensures Permitted(p, op, cfg, DisguiseFrom(p, op, cfg, state).value)
  {
    var chosen := Choose(p, op, state);
    var drawn := RangeOf(chosen.state, p.cuHeadroom.min, p.cuHeadroom.max);
    var price := RangeOf(drawn.state, AtLeastOne(p.cuPrice.min), AtLeastOne(p.cuPrice.max));
    TipPolicy(p, op, price.state);
    ChoiceIsFitting(p, op, state);
    var d := DisguiseFrom(p, op, cfg, state).value;
    assert d.cuLimit == LimitOver(cfg, d.variant, drawn.value);
  }

  lemma ChoiceIsFitting(p: Persona, op: Operation, state: bv64)
    requires PersonaOk(p)
    ensures Choose(p, op, state).value == op.variant || Choose(p, op, state).value in Fitting(op, Pool(p, op.kind))
  {
  }

  /** The dearest disguise of a persona in a given encoding. */
  function Worst(p: Persona, cfg: ComputeCfg, variant: VariantName): Disguise
    requires SpecOf(variant).Some?
  {
    Disguise(variant, LimitOver(cfg, variant, p.cuHeadroom.max), p.cuPrice.max, Some(p.tip.max))
  }

  /** The operation is a curve buy in an encoding that opens a quote account. */
  predicate BuysOnTheCurve(op: Operation) {
    && op.kind == Buy && Encodes(op, op.variant) && StageOf(op.variant) == Some(Curve) && SpecOf(op.variant).value.v2Accounts
  }

  predicate MayTip(p: Persona, op: Operation) {
    op.intent == Snipe || p.nonSnipeTipPct > 0
  }

  /** The target pays whatever a persona of the set may draw for the leg. */
  ghost predicate Suffices(set_: PersonaSet, cfg: ComputeCfg, op: Operation, quotePerLeg: int, token2022: bool, target: nat)
    requires SpecOf(op.variant).Some?
  {
    forall p, d | p in set_.personas && Permitted(p, op, cfg, d) ::
      target >= LegSpends(QuoteOf(quotePerLeg), SpecOf(d.variant).value, d, COBUY_MIN_TIP, token2022) + RentExempt(0)
  }

  /** One persona's dearest draw holds both the set's worst fee and its worst tip. */
  predicate ReachesBoth(set_: PersonaSet, cfg: ComputeCfg, p: Persona, variant: VariantName)
    requires SpecOf(variant).Some?
  {
    var d := Worst(p, cfg, variant);
    p in set_.personas && PriorityFee(d.cuLimit, d.cuPrice) == MaxPriorityFee(set_.personas, cfg.curveBuy) && p.tip.max == MaxTip(set_.personas)
  }

  /** What a permitted draw takes, against the dearest one of its persona. */
  lemma PermittedCostsNoMore(p: Persona, op: Operation, cfg: ComputeCfg, d: Disguise)
    requires BuysOnTheCurve(op) && Permitted(p, op, cfg, d)
    ensures var worst := Worst(p, cfg, op.variant);
            PriorityFee(d.cuLimit, d.cuPrice) <= PriorityFee(worst.cuLimit, worst.cuPrice) <= TopFee(p, cfg.curveBuy)
    ensures d.tip.Some? ==> d.tip.value <= p.tip.max
  {
    var headroom :| p.cuHeadroom.min <= headroom <= p.cuHeadroom.max && d.cuLimit == LimitOver(cfg, d.variant, headroom);
    var worst := Worst(p, cfg, op.variant);
    assert RealCu(cfg, SpecOf(d.variant).value) == RealCu(cfg, SpecOf(op.variant).value) == cfg.curveBuy;
    FeeGrows(d.cuLimit, worst.cuLimit, d.cuPrice, worst.cuPrice);
    FeeGrows(worst.cuLimit, TopLimit(p, cfg.curveBuy), worst.cuPrice, p.cuPrice.max);
  }

  lemma WorstIsPermitted(p: Persona, op: Operation, cfg: ComputeCfg)
    requires BuysOnTheCurve(op) && RangesOrdered(p) && MayTip(p, op)
    ensures Permitted(p, op, cfg, Worst(p, cfg, op.variant))
  {
    assert Worst(p, cfg, op.variant).cuLimit == LimitOver(cfg, op.variant, p.cuHeadroom.max);
  }

  lemma DearestLegTakesTheTarget(set_: PersonaSet, cfg: ComputeCfg, op: Operation, quotePerLeg: int, token2022: bool,
                                 p: Persona)
    requires BuysOnTheCurve(op) && ReachesBoth(set_, cfg, p, op.variant)
    ensures LegSpends(QuoteOf(quotePerLeg), SpecOf(op.variant).value, Worst(p, cfg, op.variant), COBUY_MIN_TIP, token2022) + RentExempt(0)
            == LegSum(set_, cfg, quotePerLeg, token2022)
  {
  }

  /** A leg costs no more than the target, and less when its persona does not reach both. */
  lemma PermittedLegIsCovered(set_: PersonaSet, cfg: ComputeCfg, op: Operation, quotePerLeg: int, token2022: bool,
                              p: Persona, d: Disguise)
    requires BuysOnTheCurve(op) && FeesFit(set_.personas, cfg.curveBuy) && p in set_.personas && Permitted(p, op, cfg, d)
    ensures var cost := LegSpends(QuoteOf(quotePerLeg), SpecOf(d.variant).value, d, COBUY_MIN_TIP, token2022) + RentExempt(0);
            && cost <= LegSum(set_, cfg, quotePerLeg, token2022)
            && (!ReachesBoth(set_, cfg, p, op.variant) ==> cost < LegSum(set_, cfg, quotePerLeg, token2022))
  {
    PermittedCostsNoMore(p, op, cfg, d);
    MaxPriorityFeeCovers(set_.personas, cfg.curveBuy, p);
    MaxTipCovers(set_.personas, p);
  }

  /** The target always suffices, and it is the least that does exactly when one persona of
      the set draws both the worst fee and the worst tip: then its dearest leg, in an encoding
      that opens a quote account, leaves the rent-exempt minimum and nothing more. */
  lemma TargetIsLeastIff(set_: PersonaSet, cfg: ComputeCfg, op: Operation, quotePerLeg: int, token2022: bool)
    requires BuysOnTheCurve(op) && FeesFit(set_.personas, cfg.curveBuy)
    requires forall p | p in set_.personas :: RangesOrdered(p) && MayTip(p, op)
    ensures Suffices(set_, cfg, op, quotePerLeg, token2022, LegSum(set_, cfg, quotePerLeg, token2022))
    ensures (forall n: nat | Suffices(set_, cfg, op, quotePerLeg, token2022, n) :: LegSum(set_, cfg, quotePerLeg, token2022) <= n)
            <==> exists p :: ReachesBoth(set_, cfg, p, op.variant)
  {
    var sum := LegSum(set_, cfg, quotePerLeg, token2022);
    forall p, d | p in set_.personas && Permitted(p, op, cfg, d)
      ensures var cost := LegSpends(QuoteOf(quotePerLeg), SpecOf(d.variant).value, d, COBUY_MIN_TIP, token2022) + RentExempt(0);
              cost <= sum && (!ReachesBoth(set_, cfg, p, op.variant) ==> cost < sum)
    {
      PermittedLegIsCovered(set_, cfg, op, quotePerLeg, token2022, p, d);
    }
    if p :| ReachesBoth(set_, cfg, p, op.variant) {
      WorstIsPermitted(p, op, cfg);
      DearestLegTakesTheTarget(set_, cfg, op, quotePerLeg, token2022, p);
    } else {
      assert Suffices(set_, cfg, op, quotePerLeg, token2022, sum - 1);
    }
  }

  /** One persona pays the most per compute unit, the other tips the most. */
  const DEAR_FEE := Persona("dear_fee", [], [], JitterRange(0, 0), JitterRange(1_000_000, 1_000_000), JitterRange(1, 1), 100)

  const DEAR_TIP := Persona("dear_tip", [], [], JitterRange(0, 0), JitterRange(1, 1), JitterRange(10_000, 10_000), 100)

  /** The failing side is reached: with these two, every leg costs less than its target. */
  lemma SplitWorstsOverfund(op: Operation, quotePerLeg: int, token2022: bool)
    requires BuysOnTheCurve(op)
    ensures var pair := PersonaSet([DEAR_FEE, DEAR_TIP]);
            exists n: nat | n < LegSum(pair, DEFAULT_CFG, quotePerLeg, token2022) :: Suffices(pair, DEFAULT_CFG, op, quotePerLeg, token2022, n)
  {
    var pair := PersonaSet([DEAR_FEE, DEAR_TIP]);
    PairFigures();
    forall p
      ensures !ReachesBoth(pair, DEFAULT_CFG, p, op.variant)
    {
      if p == DEAR_TIP {
        assert LimitOver(DEFAULT_CFG, op.variant, 0) == 110_000;
      }
    }
    TargetIsLeastIff(pair, DEFAULT_CFG, op, quotePerLeg, token2022);
  }

  lemma TopsOfTwo(a: Persona, b: Persona, cuFloor: nat)
    requires TopFee(a, cuFloor) < WORD && TopFee(b, cuFloor) < WORD
    ensures MaxPriorityFee([a, b], cuFloor) == MaxOf(TopFee(a, cuFloor), TopFee(b, cuFloor))
    ensures MaxTip([a, b]) == MaxOf(a.tip.max, b.tip.max)
  {
    assert [a, b][1..] == [b] && [b][1..] == [];
    assert MaxPriorityFee([b], cuFloor) == TopFee(b, cuFloor) && MaxTip([b]) == b.tip.max;
  }

  lemma PairFigures()
    ensures TopFee(DEAR_FEE, 110_000) == 110_000 && TopFee(DEAR_TIP, 110_000) == 1
    ensures MaxPriorityFee([DEAR_FEE, DEAR_TIP], 110_000) == 110_000 && MaxTip([DEAR_FEE, DEAR_TIP]) == 10_000
  {
    assert PriorityFee(110_000, 1_000_000) == 110_000 && PriorityFee(110_000, 1) == 1;
    TopsOfTwo(DEAR_FEE, DEAR_TIP, 110_000);
  }

  // ---- the shipped set ------------------------------------------------------

  const DEFAULT_CFG := ComputeCfg(110_000, 250_000, 100_000, 180_000)

  const SNIPER := Persona("aggressive_sniper", [BuyExactSolIn, BuyExactQuoteInV2], [SellPlain],
                          JitterRange(20_000, 60_000), JitterRange(250_000, 450_000), JitterRange(3_000, 10_000), 60)

  const ACCUMULATOR := Persona("patient_accumulator", [BuyPlain, BuyV2], [SellPlain],
                               JitterRange(10_000, 40_000), JitterRange(120_000, 220_000), JitterRange(1_000, 4_000), 20)

  const CHURNER := Persona("balanced_churner", [BuyPlain, BuyExactSolIn, BuyV2, BuyExactQuoteInV2], [SellPlain],
                           JitterRange(15_000, 50_000), JitterRange(150_000, 320_000), JitterRange(2_000, 7_000), 35)

  const BUILTIN := PersonaSet([SNIPER, ACCUMULATOR, CHURNER])

  lemma BuiltinFigures()
    ensures TopFee(SNIPER, 110_000) == 76_500 && TopFee(ACCUMULATOR, 110_000) == 33_000 && TopFee(CHURNER, 110_000) == 51_200
    ensures MaxPriorityFee(BUILTIN.personas, 110_000) == 76_500 && MaxTip(BUILTIN.personas) == 10_000
  {
    assert BUILTIN.personas[1..] == [ACCUMULATOR, CHURNER];
    assert [ACCUMULATOR, CHURNER][1..] == [CHURNER];
    assert [CHURNER][1..] == [];
    assert MaxPriorityFee([CHURNER], 110_000) == 51_200 && MaxTip([CHURNER]) == 7_000;
    assert MaxPriorityFee([ACCUMULATOR, CHURNER], 110_000) == 51_200 && MaxTip([ACCUMULATOR, CHURNER]) == 7_000;
    assert BUILTIN.personas == [SNIPER] + [ACCUMULATOR, CHURNER];
  }

  /** The shipped target, in lamports: the buy, if it is no debt, two token accounts, a
      signature, the worst fee, the worst tip and the rent-exempt minimum. */
  lemma BuiltinTarget(quotePerLeg: int)
    requires quotePerLeg <= MAX_QUOTE
    ensures var overhead := 2_039_280 + 2_039_280 + 5_000 + 76_500 + 10_000 + 890_880;
            && (quotePerLeg <= 0 ==> LegRequired(BUILTIN, DEFAULT_CFG, quotePerLeg, false) == overhead)
            && (quotePerLeg >= 0 ==> LegRequired(BUILTIN, DEFAULT_CFG, quotePerLeg, false) == quotePerLeg + overhead)
    ensures var overhead := 2_157_600 + 2_039_280 + 5_000 + 76_500 + 10_000 + 890_880;
            && (quotePerLeg <= 0 ==> LegRequired(BUILTIN, DEFAULT_CFG, quotePerLeg, true) == overhead)
            && (quotePerLeg >= 0 ==> LegRequired(BUILTIN, DEFAULT_CFG, quotePerLeg, true) == quotePerLeg + overhead)
  {
    BuiltinFigures();
  }

  /** No smaller target pays for every leg the shipped personas may draw. */
  lemma BuiltinTargetIsLeast(op: Operation, quotePerLeg: int, token2022: bool, n: nat)
    requires BuysOnTheCurve(op) && quotePerLeg <= MAX_QUOTE
    requires Suffices(BUILTIN, DEFAULT_CFG, op, quotePerLeg, token2022, n)
    ensures LegRequired(BUILTIN, DEFAULT_CFG, quotePerLeg, token2022) <= n
  {
    BuiltinFigures();
    SniperReachesBoth(op.variant);
    WorstIsPermitted(SNIPER, op, DEFAULT_CFG);
    DearestLegTakesTheTarget(BUILTIN, DEFAULT_CFG, op, quotePerLeg, token2022, SNIPER);
  }

  lemma SniperReachesBoth(variant: VariantName)
    requires StageOf(variant) == Some(Curve) && SpecOf(variant).value.kind == Buy
    ensures ReachesBoth(BUILTIN, DEFAULT_CFG, SNIPER, variant)
  {
    BuiltinFigures();
    assert LimitOver(DEFAULT_CFG, variant, 60_000) == 170_000;
  }

  /** With the shipped personas, and the minimum tip a co-buy is built with, nothing needs
      assuming. */
  lemma BuiltinLegCanPay(how: Seeding, op: Operation, quotePerLeg: int, token2022: bool)
    requires op.kind == Buy && Encodes(op, op.variant) && StageOf(op.variant) == Some(Curve)
    requires BuyLamports(op) == Some(QuoteOf(quotePerLeg)) && quotePerLeg <= MAX_QUOTE
    ensures SetOk(BUILTIN)
    ensures var d := ForOp(BUILTIN, op, DEFAULT_CFG, how);
            var sent := if op.lockVariant then op.variant else d.variant;
            && SpecOf(sent).Some?
            && LegRequired(BUILTIN, DEFAULT_CFG, quotePerLeg, token2022)
               - LegSpends(QuoteOf(quotePerLeg), SpecOf(sent).value, d, COBUY_MIN_TIP, token2022) >= RentExempt(0)
  {
    BuiltinFigures();
    FundedLegCanPay(BUILTIN, DEFAULT_CFG, how, op, COBUY_MIN_TIP, quotePerLeg, token2022);
  }
}
