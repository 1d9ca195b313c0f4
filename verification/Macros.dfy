/** The plan macros over one id sequence: any composition gives unique ids and dependencies
    that point backwards, as long as the 32-bit ids do not run out. */
module Macros {
  import opened Metrics
  import opened Plans

  const ID_SPACE: nat := 0x1_0000_0000

  /** The n-th id of a sequence: the counter wraps at 32 bits. */
  function NthId(start: nat, n: nat): nat {
    (start + n) % ID_SPACE
  }

  class IdSeq {
    var next: nat

    constructor (start: nat)
      requires start < ID_SPACE
      ensures next == start
    {
      next := start;
    }

    method Next() returns (id: nat)
      requires next < ID_SPACE
      modifies this
      ensures id == old(next) && next == NthId(old(next), 1)
    {
      id := next;
      next := (next + 1) % ID_SPACE;
    }
  }

  // ---- what each macro is given ---------------------------------------------

  datatype BundlerLeg = BundlerLeg(wallet: WalletRef, sol: nat, slippageBps: Option<nat>, variant: Option<VariantName>, layout: Option<Layout>)

  datatype BundleLaunch = BundleLaunch(dev: WalletRef, mint: string, createVariant: VariantName, buyVariant: VariantName, devBuyVariant: VariantName,
                                       devBuySol: nat, devSlippageBps: Option<nat>, bundlers: seq<BundlerLeg>)

  datatype VolumeLeg =
    | VolumeBuy(wallet: WalletRef, variant: VariantName, sol: nat, slippageBps: Option<nat>)
    | VolumeSell(wallet: WalletRef, variant: VariantName, tokens: nat, slippageBps: Option<nat>)

  datatype ExitLeg = ExitLeg(wallet: WalletRef, role: Role, variant: VariantName, tokens: nat, slippageBps: Option<nat>)

  datatype SweepLeg = SweepLeg(wallet: WalletRef, role: Role, lamports: nat)

  datatype FundTarget = FundTarget(wallet: WalletRef, lamports: nat)

  // ---- one operation each ---------------------------------------------------

  function CreateOp(id: nat, p: BundleLaunch): Operation {
    Operation(id, Create, p.createVariant, Dev, Creation, NoAmount, None, p.dev, Some(p.mint), [], None, false)
  }

  /** The dev buy keeps the encoding its author picked. */
  function DevBuyOp(id: nat, p: BundleLaunch, create: nat): Operation {
    Operation(id, Buy, p.devBuyVariant, Dev, Snipe, ExactQuote(p.devBuySol), p.devSlippageBps, p.dev, Some(p.mint), [create], None, true)
  }

  /** A leg with an authored variant is locked; its layout rides along either way. */
  function BundlerOp(id: nat, p: BundleLaunch, b: BundlerLeg, create: nat): Operation {
    Operation(id, Buy, if b.variant.Some? then b.variant.value else p.buyVariant, Bundler, Snipe, ExactQuote(b.sol), b.slippageBps,
              b.wallet, Some(p.mint), [create], b.layout, b.variant.Some?)
  }

  function VolumeOp(id: nat, mint: string, leg: VolumeLeg): Operation {
    match leg
    case VolumeBuy(wallet, variant, sol, slippage) =>
      Operation(id, Buy, variant, Volume, MakeVolume, ExactQuote(sol), slippage, wallet, Some(mint), [], None, false)
    case VolumeSell(wallet, variant, tokens, slippage) =>
      Operation(id, Sell, variant, Volume, MakeVolume, ExactBaseIn(tokens), slippage, wallet, Some(mint), [], None, false)
  }

  function ExitOp(id: nat, mint: string, leg: ExitLeg): Operation {
    Operation(id, Sell, leg.variant, leg.role, Exit, ExactBaseIn(leg.tokens), leg.slippageBps, leg.wallet, Some(mint), [], None, false)
  }

  function ConsolidateOp(id: nat, treasury: string, s: SweepLeg, after: seq<nat>): Operation {
    Operation(id, TransferSol, SystemTransfer, s.role, Consolidate, Sol(s.lamports), None, s.wallet, Some(treasury), after, None, false)
  }

  function FundOp(id: nat, source: WalletRef, t: FundTarget): Operation {
    Operation(id, TransferSol, SystemTransfer, Treasury, Fund, Sol(t.lamports), None, source, Some(t.wallet.pubkey), [], None, false)
  }

  // ---- the macros -----------------------------------------------------------

  datatype Call =
    | Launch(p: BundleLaunch)
    | MakeVolumeOf(mint: string, legs: seq<VolumeLeg>)
    | ExitOf(mint: string, exits: seq<ExitLeg>)
    | ConsolidateTo(treasury: string, sweeps: seq<SweepLeg>, after: seq<nat>)
    | FundFrom(source: WalletRef, targets: seq<FundTarget>)

  function Size(c: Call): nat {
    match c
    case Launch(p) => 1 + (if p.devBuySol > 0 then 1 else 0) + |p.bundlers|
    case MakeVolumeOf(_, legs) => |legs|
    case ExitOf(_, exits) => |exits|
    case ConsolidateTo(_, sweeps, _) => |sweeps|
    case FundFrom(_, targets) => |targets|
  }

  /** The i-th operation of a call whose first id is `start`. */
  function NthOp(c: Call, start: nat, i: nat): Operation
    requires i < Size(c)
  {
    match c
    case Launch(p) =>
      var create := NthId(start, 0);
      if i == 0 then CreateOp(create, p)
      else if p.devBuySol > 0 then
        if i == 1 then DevBuyOp(NthId(start, 1), p, create) else BundlerOp(NthId(start, i), p, p.bundlers[i - 2], create)
      else BundlerOp(NthId(start, i), p, p.bundlers[i - 1], create)
    case MakeVolumeOf(mint, legs) => VolumeOp(NthId(start, i), mint, legs[i])
    case ExitOf(mint, exits) => ExitOp(NthId(start, i), mint, exits[i])
    case ConsolidateTo(treasury, sweeps, after) => ConsolidateOp(NthId(start, i), treasury, sweeps[i], after)
    case FundFrom(source, targets) => FundOp(NthId(start, i), source, targets[i])
  }

  function Expand(c: Call, start: nat): (ops: seq<Operation>)
    ensures |ops| == Size(c) && forall i | 0 <= i < |ops| :: ops[i] == NthOp(c, start, i)
  {
    seq(Size(c), i requires 0 <= i < Size(c) => NthOp(c, start, i))
  }

  lemma NextIdIs(start: nat, n: nat)
    requires start < ID_SPACE
    ensures NthId(NthId(start, n), 1) == NthId(start, n + 1)
    ensures NthId(start, 0) == start && NthId(start, n) < ID_SPACE
  {
  }

  method BundleLaunchOps(ids: IdSeq, p: BundleLaunch) returns (ops: seq<Operation>)
    requires ids.next < ID_SPACE
    modifies ids
    ensures ops == Expand(Launch(p), old(ids.next)) && ids.next == NthId(old(ids.next), |ops|)
  {
    ghost var start := ids.next;
    ghost var call := Launch(p);
    NextIdIs(start, 0);
    var create := ids.Next();
    ops := [CreateOp(create, p)];
    if p.devBuySol > 0 {
      NextIdIs(start, 1);
      var id := ids.Next();
      ops := ops + [DevBuyOp(id, p, create)];
    }
    for i := 0 to |p.bundlers|
      invariant |ops| == 1 + (if p.devBuySol > 0 then 1 else 0) + i
      invariant forall k | 0 <= k < |ops| :: ops[k] == NthOp(call, start, k)
      invariant ids.next == NthId(start, |ops|)
    {
      NextIdIs(start, |ops|);
      var id := ids.Next();
      ops := ops + [BundlerOp(id, p, p.bundlers[i], create)];
    }
  }

  method VolumeOps(ids: IdSeq, mint: string, legs: seq<VolumeLeg>) returns (ops: seq<Operation>)
    requires ids.next < ID_SPACE
    modifies ids
    ensures ops == Expand(MakeVolumeOf(mint, legs), old(ids.next)) && ids.next == NthId(old(ids.next), |ops|)
  {
    ghost var start := ids.next;
    ops := [];
    NextIdIs(start, 0);
    for i := 0 to |legs|
      invariant |ops| == i && forall k | 0 <= k < i :: ops[k] == VolumeOp(NthId(start, k), mint, legs[k])
      invariant ids.next == NthId(start, i)
    {
      NextIdIs(start, i);
      var id := ids.Next();
      ops := ops + [VolumeOp(id, mint, legs[i])];
    }
  }

  method ExitOps(ids: IdSeq, mint: string, exits: seq<ExitLeg>) returns (ops: seq<Operation>)
    requires ids.next < ID_SPACE
    modifies ids
    ensures ops == Expand(ExitOf(mint, exits), old(ids.next)) && ids.next == NthId(old(ids.next), |ops|)
  {
    ghost var start := ids.next;
    ops := [];
    for i := 0 to |exits|
      invariant |ops| == i && forall k | 0 <= k < i :: ops[k] == ExitOp(NthId(start, k), mint, exits[k])
      invariant ids.next == NthId(start, i)
    {
      var id := ids.Next();
      ops := ops + [ExitOp(id, mint, exits[i])];
    }
  }

  method ConsolidateOps(ids: IdSeq, treasury: string, sweeps: seq<SweepLeg>,
                        after: seq<nat>) returns (ops: seq<Operation>)
    requires ids.next < ID_SPACE
    modifies ids
    ensures ops == Expand(ConsolidateTo(treasury, sweeps, after), old(ids.next)) && ids.next == NthId(old(ids.next), |ops|)
  {
    ghost var start := ids.next;
    ops := [];
    for i := 0 to |sweeps|
      invariant |ops| == i && forall k | 0 <= k < i :: ops[k] == ConsolidateOp(NthId(start, k), treasury, sweeps[k], after)
      invariant ids.next == NthId(start, i)
    {
      var id := ids.Next();
      ops := ops + [ConsolidateOp(id, treasury, sweeps[i], after)];
    }
  }

  method FundOps(ids: IdSeq, source: WalletRef, targets: seq<FundTarget>) returns (ops: seq<Operation>)
    requires ids.next < ID_SPACE
    modifies ids
    ensures ops == Expand(FundFrom(source, targets), old(ids.next)) && ids.next == NthId(old(ids.next), |ops|)
  {
    ghost var start := ids.next;
    ops := [];
    NextIdIs(start, 0);
    for i := 0 to |targets|
      invariant |ops| == i && forall k | 0 <= k < i :: ops[k] == FundOp(NthId(start, k), source, targets[k])
      invariant ids.next == NthId(start, i)
    {
      NextIdIs(start, i);
      var id := ids.Next();
      ops := ops + [FundOp(id, source, targets[i])];
    }
  }

  // ---- composing ------------------------------------------------------------

  /** The calls one after another, drawing from one sequence. */
  function Compose(calls: seq<Call>, start: nat): seq<Operation> {
    if calls == [] then []
    else
      var n := |calls| - 1;
      var before := Compose(calls[..n], start);
      before + Expand(calls[n], NthId(start, |before|))
  }

  /** Each consolidation waits only for ids handed out before it. */
  predicate AfterEarlierIds(calls: seq<Call>, start: nat) {
    calls == []
    || (var n := |calls| - 1;
        && AfterEarlierIds(calls[..n], start)
        && (calls[n].ConsolidateTo? ==> forall a | a in calls[n].after :: HasOp(Compose(calls[..n], start), a)))
  }

  predicate IdsInOrder(ops: seq<Operation>, start: nat) {
    forall i | 0 <= i < |ops| :: ops[i].id == NthId(start, i)
  }

  /** Every dependency is the id of an earlier operation. */
  predicate DepsPointBack(ops: seq<Operation>) {
    forall i, dep | 0 <= i < |ops| && dep in ops[i].deps :: HasOp(ops[..i], dep)
  }

  lemma ShiftedId(start: nat, m: nat, i: nat)
    ensures NthId(NthId(start, m), i) == NthId(start, m + i)
  {
  }

  lemma {:induction false} ComposedIdsInOrder(calls: seq<Call>, start: nat)
    ensures IdsInOrder(Compose(calls, start), start)
  {
    if calls != [] {
      var n := |calls| - 1;
      var before := Compose(calls[..n], start);
      var more := Expand(calls[n], NthId(start, |before|));
      ComposedIdsInOrder(calls[..n], start);
      forall i | 0 <= i < |more|
        ensures more[i].id == NthId(start, |before| + i)
      {
        ShiftedId(start, |before|, i);
      }
      forall i | 0 <= i < |before + more|
        ensures (before + more)[i].id == NthId(start, i)
      {
        if i >= |before| {
          assert more[i - |before|].id == NthId(start, |before| + (i - |before|));
        }
      }
    }
  }

  lemma CallDepsPointBack(c: Call, start: nat, before: seq<Operation>, i: nat, dep: nat)
    requires i < Size(c) && dep in Expand(c, start)[i].deps
    requires c.ConsolidateTo? ==> forall a | a in c.after :: HasOp(before, a)
    ensures HasOp(before + Expand(c, start)[..i], dep)
  {
    var ops := Expand(c, start);
    var shown := before + ops[..i];
    if c.ConsolidateTo? {
      var o :| o in before && o.id == dep;
      assert o in shown;
    } else {
      assert c.Launch? && i > 0 && dep == NthId(start, 0);
      assert ops[..i][0] == ops[0];
      assert ops[0].id == dep && ops[0] in shown;
    }
  }

  lemma {:induction false} ComposedDepsPointBack(calls: seq<Call>, start: nat)
    requires AfterEarlierIds(calls, start)
    ensures DepsPointBack(Compose(calls, start))
  {
    if calls != [] {
      var n := |calls| - 1;
      var before := Compose(calls[..n], start);
      var first := NthId(start, |before|);
      var more := Expand(calls[n], first);
      var all := before + more;
      ComposedDepsPointBack(calls[..n], start);
      forall i, dep | 0 <= i < |all| && dep in all[i].deps
        ensures HasOp(all[..i], dep)
      {
        if i < |before| {
          assert all[..i] == before[..i];
        } else {
          CallDepsPointBack(calls[n], first, before, i - |before|, dep);
          assert all[..i] == before + more[..i - |before|];
        }
      }
    }
  }

  lemma IdsUniqueIffTheyFit(ops: seq<Operation>, start: nat)
    requires IdsInOrder(ops, start)
    ensures IdsUnique(ops) <==> |ops| <= ID_SPACE
  {
    if |ops| <= ID_SPACE {
      forall i, j | 0 <= i < j < |ops|
        ensures ops[i].id != ops[j].id
      {
      }
    } else {
      assert ops[0].id == ops[ID_SPACE].id;
    }
  }

  /** Any composition of the macros, with every consolidation waiting for earlier ids, has
      dependencies that only point back, so its graph has no cycle and none dangles; and its
      ids are unique exactly when they fit in 32 bits. */
  lemma MacrosComposeToAValidGraph(calls: seq<Call>, start: nat)
    requires AfterEarlierIds(calls, start)
    ensures var ops := Compose(calls, start);
            && DepsPointBack(ops)
            && (forall op, dep | op in ops && dep in op.deps :: HasOp(ops, dep))
            && (IdsUnique(ops) <==> |ops| <= ID_SPACE)
  {
    var ops := Compose(calls, start);
    ComposedIdsInOrder(calls, start);
    ComposedDepsPointBack(calls, start);
    IdsUniqueIffTheyFit(ops, start);
    forall i, dep | 0 <= i < |ops| && dep in ops[i].deps
      ensures HasOp(ops, dep)
    {
      var o :| o in ops[..i] && o.id == dep;
      assert o in ops;
    }
  }

  /** So preparing it never reports a dangling dependency, nor, while they fit, a repeated id. */
  lemma MacrosNeverDangle(calls: seq<Call>, start: nat, parses: string -> bool, op: Operation)
    requires AfterEarlierIds(calls, start) && op in Compose(calls, start)
    ensures var r := PrepareOp(Compose(calls, start), op, parses);
            r.Err? ==> !r.error.DanglingDep? && !r.error.DuplicateId?
  {
    MacrosComposeToAValidGraph(calls, start);
  }

  // ---- what the macros ask for ----------------------------------------------

  /** Every encoding a call names is one for what it does. */
  predicate VariantsFit(c: Call) {
    match c
    case Launch(p) =>
      && SpecKind(p.createVariant) == Some(Create) && SpecKind(p.buyVariant) == Some(Buy) && SpecKind(p.devBuyVariant) == Some(Buy)
      && forall b | b in p.bundlers && b.variant.Some? :: SpecKind(b.variant.value) == Some(Buy)
    case MakeVolumeOf(_, legs) => forall l | l in legs :: SpecKind(l.variant) == Some(if l.VolumeBuy? then Buy else Sell)
    case ExitOf(_, exits) => forall e | e in exits :: SpecKind(e.variant) == Some(Sell)
    case _ => true
  }

  function SpecKind(v: VariantName): Option<Kind> {
    match SpecOf(v)
    case None => None
    case Some(s) => Some(s.kind)
  }

  /** The keys a call signs with and sends to. */
  predicate Parse(c: Call, parses: string -> bool) {
    match c
    case Launch(p) => parses(p.dev.pubkey) && parses(p.mint) && forall b | b in p.bundlers :: parses(b.wallet.pubkey)
    case MakeVolumeOf(mint, legs) => parses(mint) && forall l | l in legs :: parses(l.wallet.pubkey)
    case ExitOf(mint, exits) => parses(mint) && forall e | e in exits :: parses(e.wallet.pubkey)
    case ConsolidateTo(treasury, sweeps, _) => parses(treasury) && forall s | s in sweeps :: parses(s.wallet.pubkey)
    case FundFrom(source, targets) => parses(source.pubkey) && forall t | t in targets :: parses(t.wallet.pubkey)
  }

  lemma NthOpIsSound(c: Call, start: nat, i: nat, parses: string -> bool)
    requires i < Size(c) && VariantsFit(c) && Parse(c, parses)
    ensures var op := NthOp(c, start, i);
            Encodes(op, op.variant) && parses(op.wallet.pubkey) && op.target.Some? && parses(op.target.value)
  {
  }

  lemma {:induction false} ComposedOpsAreSound(calls: seq<Call>, start: nat, parses: string -> bool, op: Operation)
    requires (forall c | c in calls :: VariantsFit(c) && Parse(c, parses)) && op in Compose(calls, start)
    ensures Encodes(op, op.variant) && parses(op.wallet.pubkey) && op.target.Some? && parses(op.target.value)
  {
    var n := |calls| - 1;
    var before := Compose(calls[..n], start);
    var more := Expand(calls[n], NthId(start, |before|));
    if op in before {
      ComposedOpsAreSound(calls[..n], start, parses, op);
    } else {
      var i :| 0 <= i < |more| && more[i] == op;
      assert calls[n] in calls;
      NthOpIsSound(calls[n], NthId(start, |before|), i, parses);
    }
  }

  /** Macros given fitting encodings and keys that parse write a legal plan, as long as the
      ids fit. */
  lemma MacrosAreLegal(calls: seq<Call>, start: nat, parses: string -> bool)
    requires AfterEarlierIds(calls, start) && forall c | c in calls :: VariantsFit(c) && Parse(c, parses)
    requires |Compose(calls, start)| <= ID_SPACE
    ensures PlanLegal(Compose(calls, start), parses)
  {
    MacrosComposeToAValidGraph(calls, start);
    forall op | op in Compose(calls, start)
      ensures OpLegal(Compose(calls, start), op, parses)
    {
      ComposedOpsAreSound(calls, start, parses, op);
    }
  }

  /** A launch: the dev creates, snipes if asked to, and each bundler snipes in its turn, for
      the SOL and within the slippage authored, after the create. Only hand-picked encodings
      are locked. */
  lemma LaunchSays(p: BundleLaunch, start: nat)
    ensures var ops := Expand(Launch(p), start);
            var first := if p.devBuySol > 0 then 2 else 1;
            && |ops| == first + |p.bundlers|
            && ops[0].kind == Create && ops[0].wallet == p.dev && ops[0].role == Dev && ops[0].intent == Creation && ops[0].deps == []
            && (forall i | 0 < i < |ops| ::
                  && ops[i].kind == Buy && ops[i].intent == Snipe && ops[i].deps == [ops[0].id])
            && (forall i | 0 <= i < |ops| :: ops[i].target == Some(p.mint))
            && (p.devBuySol > 0 ==>
                  && ops[1].wallet == p.dev && ops[1].role == Dev && ops[1].amount == ExactQuote(p.devBuySol)
                  && ops[1].slippageBps == p.devSlippageBps && ops[1].variant == p.devBuyVariant && ops[1].lockVariant && ops[1].layout == None)
            && (forall i | 0 <= i < |p.bundlers| ::
                  var b, op := p.bundlers[i], ops[first + i];
                  && op.wallet == b.wallet && op.role == Bundler && op.amount == ExactQuote(b.sol) && op.slippageBps == b.slippageBps
                  && op.layout == b.layout && (op.lockVariant <==> b.variant.Some?)
                  && op.variant == if b.variant.Some? then b.variant.value else p.buyVariant)
            && !ops[0].lockVariant && ops[0].variant == p.createVariant
  {
  }

  /** The other macros: who pays or sells what, to or of whom. Nothing is locked, and only a
      consolidation waits. */
  lemma OtherMacrosSay(c: Call, start: nat, i: nat)
    requires i < Size(c) && !c.Launch?
    ensures var op := Expand(c, start)[i];
            && !op.lockVariant && op.layout == None && (op.deps == [] || c.ConsolidateTo?)
            && match c
               case MakeVolumeOf(mint, legs) =>
                 && op.wallet == legs[i].wallet && op.target == Some(mint) && op.role == Volume && op.intent == MakeVolume
                 && op.variant == legs[i].variant && op.slippageBps == legs[i].slippageBps
                 && (if legs[i].VolumeBuy? then op.kind == Buy && op.amount == ExactQuote(legs[i].sol)
                     else op.kind == Sell && op.amount == ExactBaseIn(legs[i].tokens))
               case ExitOf(mint, exits) =>
                 && op.wallet == exits[i].wallet && op.target == Some(mint) && op.role == exits[i].role && op.intent == Exit
                 && op.variant == exits[i].variant && op.slippageBps == exits[i].slippageBps
                 && op.kind == Sell && op.amount == ExactBaseIn(exits[i].tokens)
               case ConsolidateTo(treasury, sweeps, after) =>
                 && op.wallet == sweeps[i].wallet && op.target == Some(treasury) && op.role == sweeps[i].role && op.intent == Consolidate
                 && op.kind == TransferSol && op.amount == Sol(sweeps[i].lamports) && op.deps == after && op.slippageBps == None
               case FundFrom(source, targets) =>
                 && op.wallet == source && op.target == Some(targets[i].wallet.pubkey) && op.role == Treasury && op.intent == Fund
                 && op.kind == TransferSol && op.amount == Sol(targets[i].lamports) && op.slippageBps == None
               case Launch(_) => false
  {
  }
}
