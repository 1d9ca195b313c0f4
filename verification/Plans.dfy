/** Operations, the variant catalog, and the check that makes a plan buildable. */
module Plans {
  import opened Metrics

  datatype Result<+T, +E> = Ok(value: T) | Err(error: E)

  // ---- operations -----------------------------------------------------------

  datatype Kind = Create | Buy | Sell | TransferSol | TransferToken

  datatype Role = Dev | Bundler | Volume | Treasury | External

  datatype Intent = Snipe | Accumulate | MakeVolume | Exit | Fund | Consolidate | Creation

  datatype Amount =
    | ExactQuote(quote: nat) | ExactBase(base: nat) | ExactBaseIn(base: nat) | Sol(lamports: nat) | Token(base: nat) | NoAmount

  /** `managed` is our pool's row when the wallet is ours. */
  datatype WalletRef = WalletRef(managed: Option<nat>, pubkey: string)

  /** An authored instruction order; what makes one valid is not part of this model. */
  type Layout = seq<nat>

  datatype Operation = Operation(id: nat, kind: Kind, variant: VariantName, role: Role, intent: Intent, amount: Amount, slippageBps: Option<nat>,
                                 wallet: WalletRef, target: Option<string>, deps: seq<nat>, layout: Option<Layout>, lockVariant: bool)

  // ---- the catalog ----------------------------------------------------------

  datatype VenueStage = Curve | Amm | NA

  datatype Denom = QuoteIn | BaseOut | BaseIn | NoDenom | SolDenom | TokenDenom

  datatype VariantSpec = VariantSpec(stage: VenueStage, kind: Kind, denom: Denom, v2Accounts: bool)

  /** The names the catalog lists, and any other. */
  datatype VariantName =
    | BuyPlain | BuyExactSolIn | BuyV2 | BuyExactQuoteInV2 | SellPlain | AmmBuy | AmmSell
    | CreatePlain | CreateV2 | SystemTransfer | SplTransfer | SplTransferChecked | OffCatalog(text: string)

  function SpecOf(name: VariantName): Option<VariantSpec> {
    match name
    case BuyPlain => Some(VariantSpec(Curve, Buy, BaseOut, false))
    case BuyExactSolIn => Some(VariantSpec(Curve, Buy, QuoteIn, false))
    case BuyV2 => Some(VariantSpec(Curve, Buy, BaseOut, true))
    case BuyExactQuoteInV2 => Some(VariantSpec(Curve, Buy, QuoteIn, true))
    case SellPlain => Some(VariantSpec(Curve, Sell, BaseIn, false))
    case AmmBuy => Some(VariantSpec(Amm, Buy, BaseOut, false))
    case AmmSell => Some(VariantSpec(Amm, Sell, BaseIn, false))
    case CreatePlain => Some(VariantSpec(NA, Create, NoDenom, false))
    case CreateV2 => Some(VariantSpec(NA, Create, NoDenom, true))
    case SystemTransfer => Some(VariantSpec(NA, TransferSol, SolDenom, false))
    case SplTransfer => Some(VariantSpec(NA, TransferToken, TokenDenom, false))
    case SplTransferChecked => Some(VariantSpec(NA, TransferToken, TokenDenom, false))
    case OffCatalog(_) => None
  }

  /** A SOL budget fits either way of buying; everything else fits its own side only. */
  predicate DenomAccepts(denom: Denom, amount: Amount) {
    match denom
    case QuoteIn => amount.ExactQuote?
    case BaseOut => amount.ExactBase? || amount.ExactQuote?
    case BaseIn => amount.ExactBaseIn?
    case NoDenom => amount.NoAmount?
    case SolDenom => amount.Sol?
    case TokenDenom => amount.Token?
  }

  // ---- preparing ------------------------------------------------------------

  datatype PlanError =
    | UnknownVariant(op: nat, variant: VariantName)
    | KindMismatch(op: nat, variant: VariantName)
    | DenomMismatch(op: nat, variant: VariantName)
    | BadAddress(op: nat, field: string, value: string)
    | MissingTarget(op: nat)
    | DanglingDep(op: nat, dep: nat)
    | DuplicateId(id: nat)

  datatype MinOut = Late(bps: nat) | Unprotected | NotApplicable

  datatype Prepared = Prepared(op: Operation, spec: VariantSpec, minOut: MinOut)

  function MinOutPolicy(op: Operation): MinOut {
    if op.kind.Buy? || op.kind.Sell? then
      if op.slippageBps.Some? then Late(op.slippageBps.value) else Unprotected
    else NotApplicable
  }

  predicate HasOp(ops: seq<Operation>, id: nat) {
    exists o | o in ops :: o.id == id
  }

  function FirstDangling(ops: seq<Operation>, deps: seq<nat>): (d: Option<nat>)
    ensures d.None? <==> forall dep | dep in deps :: HasOp(ops, dep)
    ensures d.Some? ==> d.value in deps && !HasOp(ops, d.value)
  {
    if deps == [] then None else if !HasOp(ops, deps[0]) then Some(deps[0]) else FirstDangling(ops, deps[1..])
  }

  predicate IsFirstDangling(ops: seq<Operation>, deps: seq<nat>, dep: nat) {
    exists i | 0 <= i < |deps| :: deps[i] == dep && !HasOp(ops, dep) && forall j | 0 <= j < i :: HasOp(ops, deps[j])
  }

  lemma {:induction false} DanglingIsTheFirst(ops: seq<Operation>, deps: seq<nat>)
    requires FirstDangling(ops, deps).Some?
    ensures IsFirstDangling(ops, deps, FirstDangling(ops, deps).value)
  {
    if HasOp(ops, deps[0]) {
      DanglingIsTheFirst(ops, deps[1..]);
      var dep := FirstDangling(ops, deps[1..]).value;
      var i :| 0 <= i < |deps[1..]| && deps[1..][i] == dep && !HasOp(ops, dep) && forall j | 0 <= j < i :: HasOp(ops, deps[1..][j]);
      assert deps[i + 1] == dep;
      assert forall j | 0 < j < i + 1 :: deps[j] == deps[1..][j - 1];
    } else {
      assert deps[0] == FirstDangling(ops, deps).value;
    }
  }

  /** One operation checked in order; `parses` is the address parser. */
  function PrepareOp(ops: seq<Operation>, op: Operation, parses: string -> bool): Result<Prepared, PlanError> {
    match SpecOf(op.variant)
    case None => Err(UnknownVariant(op.id, op.variant))
    case Some(s) =>
      if s.kind != op.kind then Err(KindMismatch(op.id, op.variant))
      else if !DenomAccepts(s.denom, op.amount) then Err(DenomMismatch(op.id, op.variant))
      else if !parses(op.wallet.pubkey) then Err(BadAddress(op.id, "wallet", op.wallet.pubkey))
      else if op.target.Some? && !parses(op.target.value) then Err(BadAddress(op.id, "target", op.target.value))
      else if op.target.None? then Err(MissingTarget(op.id))
      else
        match FirstDangling(ops, op.deps)
        case Some(dep) => Err(DanglingDep(op.id, dep))
        case None => Ok(Prepared(op, s, MinOutPolicy(op)))
  }

  /** The variant is a catalog row of the operation's kind that can encode its amount. */
  predicate Encodes(op: Operation, variant: VariantName) {
    var s := SpecOf(variant);
    s.Some? && s.value.kind == op.kind && DenomAccepts(s.value.denom, op.amount)
  }

  predicate OpLegal(ops: seq<Operation>, op: Operation, parses: string -> bool) {
    && Encodes(op, op.variant)
    && parses(op.wallet.pubkey) && op.target.Some? && parses(op.target.value)
    && forall dep | dep in op.deps :: HasOp(ops, dep)
  }

  /** What each encoding is for: the buys take SOL, and those that buy out a fixed number of
      tokens take tokens too; sells take tokens, transfers what they move, creates nothing. */
  lemma CatalogSays(op: Operation, v: VariantName)
    ensures Encodes(op, v)
            <==> match op.kind
                 case Create => v in {CreatePlain, CreateV2} && op.amount.NoAmount?
                 case Buy => || (v in {BuyPlain, BuyV2, AmmBuy} && (op.amount.ExactBase? || op.amount.ExactQuote?))
                             || (v in {BuyExactSolIn, BuyExactQuoteInV2} && op.amount.ExactQuote?)
                 case Sell => v in {SellPlain, AmmSell} && op.amount.ExactBaseIn?
                 case TransferSol => v == SystemTransfer && op.amount.Sol?
                 case TransferToken => v in {SplTransfer, SplTransferChecked} && op.amount.Token?
    ensures SpecOf(v).Some? ==>
              && (SpecOf(v).value.stage == Amm <==> v in {AmmBuy, AmmSell})
              && (SpecOf(v).value.stage == Curve <==> v in {BuyPlain, BuyExactSolIn, BuyV2, BuyExactQuoteInV2, SellPlain})
              && (SpecOf(v).value.v2Accounts <==> v in {BuyV2, BuyExactQuoteInV2, CreateV2})
  {
  }

  /** An operation prepares exactly when it is legal, and then carries its catalog row and the
      slippage of a swap: late when one was asked for, none for anything else. */
  lemma PreparedIffLegal(ops: seq<Operation>, op: Operation, parses: string -> bool)
    ensures PrepareOp(ops, op, parses).Ok? <==> OpLegal(ops, op, parses)
    ensures PrepareOp(ops, op, parses).Ok? ==>
              var p := PrepareOp(ops, op, parses).value;
              && p.op == op && SpecOf(op.variant) == Some(p.spec)
              && (p.minOut == NotApplicable <==> op.kind != Buy && op.kind != Sell)
              && (p.minOut.Late? ==> op.slippageBps == Some(p.minOut.bps))
              && (p.minOut == Unprotected ==> op.slippageBps == None)
  {
  }

  /** What is reported is the first thing wrong: the variant, its kind, its amount, the
      wallet, the target, and last the dependencies. */
  lemma FirstThingWrongIsReported(ops: seq<Operation>, op: Operation, parses: string -> bool)
    requires PrepareOp(ops, op, parses).Err?
    ensures var e := PrepareOp(ops, op, parses).error;
            && (e == UnknownVariant(op.id, op.variant) <==> SpecOf(op.variant).None?)
            && (e == KindMismatch(op.id, op.variant) <==> SpecOf(op.variant).Some? && SpecOf(op.variant).value.kind != op.kind)
            && (e == DenomMismatch(op.id, op.variant)
                <==> SpecOf(op.variant).Some? && SpecOf(op.variant).value.kind == op.kind && !Encodes(op, op.variant))
            && (e == BadAddress(op.id, "wallet", op.wallet.pubkey) <==> Encodes(op, op.variant) && !parses(op.wallet.pubkey))
            && (op.target.Some? ==>
                  (e == BadAddress(op.id, "target", op.target.value)
                   <==> Encodes(op, op.variant) && parses(op.wallet.pubkey) && !parses(op.target.value)))
            && (e == MissingTarget(op.id) <==> Encodes(op, op.variant) && parses(op.wallet.pubkey) && op.target.None?)
            && (e.DanglingDep? ==> e.op == op.id && IsFirstDangling(ops, op.deps, e.dep))
            && (e.DanglingDep?
                <==> Encodes(op, op.variant) && parses(op.wallet.pubkey) && op.target.Some? && parses(op.target.value))
  {
    assert "wallet"[0] != "target"[0];
    if FirstDangling(ops, op.deps).Some? {
      DanglingIsTheFirst(ops, op.deps);
    }
  }

  predicate IdsUnique(ops: seq<Operation>) {
    forall i, j | 0 <= i < j < |ops| :: ops[i].id != ops[j].id
  }

  predicate PlanLegal(ops: seq<Operation>, parses: string -> bool) {
    IdsUnique(ops) && forall op | op in ops :: OpLegal(ops, op, parses)
  }

  /** The first operation whose id comes again. */
  predicate FirstRepeat(ops: seq<Operation>, id: nat) {
    exists i | 0 <= i < |ops| ::
      && ops[i].id == id
      && (exists j | i < j < |ops| :: ops[j].id == id)
      && forall a, b | 0 <= a < i && a < b < |ops| :: ops[a].id != ops[b].id
  }

  method FindDuplicate(ops: seq<Operation>) returns (id: Option<nat>)
    ensures id.None? <==> IdsUnique(ops)
    ensures id.Some? ==> FirstRepeat(ops, id.value)
  {
    for i := 0 to |ops|
      invariant forall a, b | 0 <= a < i && a < b < |ops| :: ops[a].id != ops[b].id
    {
      for j := i + 1 to |ops|
        invariant forall b | i < b < j :: ops[i].id != ops[b].id
      {
        if ops[j].id == ops[i].id {
          return Some(ops[i].id);
        }
      }
    }
    return None;
  }

  /** Each operation prepared, in order. */
  predicate PreparedUpTo(ops: seq<Operation>, prepared: seq<Prepared>, parses: string -> bool) {
    |prepared| <= |ops| && forall i | 0 <= i < |prepared| :: PrepareOp(ops, ops[i], parses) == Ok(prepared[i])
  }

  /** The first operation that does not prepare fails the plan, with its own error. */
  predicate FirstDefect(ops: seq<Operation>, error: PlanError, parses: string -> bool) {
    exists i | 0 <= i < |ops| ::
      PrepareOp(ops, ops[i], parses) == Err(error) && forall j | 0 <= j < i :: PrepareOp(ops, ops[j], parses).Ok?
  }

  method PrepareEach(ops: seq<Operation>, parses: string -> bool) returns (r: Result<seq<Prepared>, PlanError>)
    ensures r.Ok? ==> |r.value| == |ops| && PreparedUpTo(ops, r.value, parses)
    ensures r.Err? ==> FirstDefect(ops, r.error, parses)
  {
    var prepared := [];
    for i := 0 to |ops|
      invariant |prepared| == i && PreparedUpTo(ops, prepared, parses)
    {
      var p := PrepareOp(ops, ops[i], parses);
      if p.Err? {
        return Err(p.error);
      }
      prepared := prepared + [p.value];
    }
    return Ok(prepared);
  }

  lemma AllPreparedIffLegal(ops: seq<Operation>, parses: string -> bool)
    ensures (forall i | 0 <= i < |ops| :: PrepareOp(ops, ops[i], parses).Ok?) <==> forall op | op in ops :: OpLegal(ops, op, parses)
  {
    forall i | 0 <= i < |ops|
      ensures PrepareOp(ops, ops[i], parses).Ok? <==> OpLegal(ops, ops[i], parses)
    {
      PreparedIffLegal(ops, ops[i], parses);
    }
    if forall op | op in ops :: OpLegal(ops, op, parses) {
      forall i | 0 <= i < |ops|
        ensures PrepareOp(ops, ops[i], parses).Ok?
      {
        assert ops[i] in ops;
      }
    }
  }

  lemma OpErrorsAreNotDuplicates(ops: seq<Operation>, op: Operation, parses: string -> bool)
    ensures PrepareOp(ops, op, parses).Err? ==> !PrepareOp(ops, op, parses).error.DuplicateId?
  {
  }

  /** The whole plan, or its first defect: a repeated id before anything else, then the
      operations in order. Accepted exactly when the plan is legal. */
  method Prepare(ops: seq<Operation>, parses: string -> bool) returns (r: Result<seq<Prepared>, PlanError>)
    ensures r.Ok? <==> PlanLegal(ops, parses)
    ensures r.Ok? ==> |r.value| == |ops| && PreparedUpTo(ops, r.value, parses)
    ensures r.Err? ==> (r.error.DuplicateId? <==> !IdsUnique(ops))
    ensures r.Err? && r.error.DuplicateId? ==> FirstRepeat(ops, r.error.id)
    ensures r.Err? && IdsUnique(ops) ==> FirstDefect(ops, r.error, parses)
  {
    var twice := FindDuplicate(ops);
    if twice.Some? {
      return Err(DuplicateId(twice.value));
    }
    r := PrepareEach(ops, parses);
    AllPreparedIffLegal(ops, parses);
    if r.Err? {
      var i :| 0 <= i < |ops| && PrepareOp(ops, ops[i], parses) == Err(r.error);
      OpErrorsAreNotDuplicates(ops, ops[i], parses);
    }
  }
}
