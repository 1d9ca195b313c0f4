/** The gate every plan passes: validate, disguise, validate again, check layouts, audit. */
module PlanGate {
  import opened Metrics
  import opened Plans
  import opened Rng
  import opened Disguises

  /** What the gate takes from outside: the address parser, the seeding, the layout rails,
      and the audit as a pure verdict on a plan and its disguises. */
  datatype Setup = Setup(personas: PersonaSet, cfg: ComputeCfg, parses: string -> bool, how: Seeding,
                         layoutOk: (Layout, Kind, bool) -> bool, audit: (seq<Operation>, seq<Disguise>) -> nat, passes: (nat, bool) -> bool)

  datatype GateError = NotBuildable(e: PlanError) | DisguisedNotBuildable(e: PlanError) | BadLayout(op: nat) | Rejected(report: nat)

  datatype Gated = Gated(ops: seq<Operation>, disguises: seq<Disguise>, report: nat)

  // ---- the transformation ---------------------------------------------------

  function DisguiseOfOp(s: Setup, op: Operation): Disguise
    requires SetOk(s.personas) && SpecOf(op.variant).Some?
  {
    ForOp(s.personas, op, s.cfg, s.how)
  }

  /** A locked operation keeps the variant its author picked. */
  function Applied(op: Operation, d: Disguise): Operation {
    if op.lockVariant then op else op.(variant := d.variant)
  }

  predicate Disguisable(s: Setup, ops: seq<Operation>) {
    SetOk(s.personas) && forall op | op in ops :: Encodes(op, op.variant)
  }

  function DisguiseAll(s: Setup, ops: seq<Operation>): (ds: seq<Disguise>)
    requires Disguisable(s, ops)
    ensures |ds| == |ops| && forall i | 0 <= i < |ops| :: ds[i] == DisguiseOfOp(s, ops[i])
  {
    seq(|ops|, i requires 0 <= i < |ops| => assert ops[i] in ops; DisguiseOfOp(s, ops[i]))
  }

  function ApplyAll(ops: seq<Operation>, ds: seq<Disguise>): (out: seq<Operation>)
    requires |ds| == |ops|
    ensures |out| == |ops| && forall i | 0 <= i < |ops| :: out[i] == Applied(ops[i], ds[i])
  {
    seq(|ops|, i requires 0 <= i < |ops| => Applied(ops[i], ds[i]))
  }

  predicate LayoutsOk(s: Setup, ops: seq<Operation>) {
    forall op | op in ops && op.layout.Some? :: s.layoutOk(op.layout.value, LayoutKind(op.kind), op.intent == Snipe)
  }

  function LayoutKind(k: Kind): Kind {
    if k == Create then Create else Buy
  }

  /** Everything about an operation but its encoding. */
  predicate SameButVariant(a: Operation, b: Operation) {
    b == a.(variant := b.variant)
  }

  // ---- it preserves the plan ------------------------------------------------

  lemma AppliedKeepsTheOperation(s: Setup, op: Operation)
    requires SetOk(s.personas) && Encodes(op, op.variant)
    ensures var d := DisguiseOfOp(s, op);
            var out := Applied(op, d);
            && SameButVariant(op, out) && Encodes(out, out.variant) && StageOf(out.variant) == StageOf(op.variant)
            && DisguiseOfOp(s, out) == d
            && (op.lockVariant ==> out == op)
  {
    ForOpIsStable(s.personas, op, s.cfg, s.how);
  }

  lemma LegalOpStaysLegal(s: Setup, a: seq<Operation>, b: seq<Operation>, i: nat)
    requires |a| == |b| && i < |a| && forall k | 0 <= k < |a| :: SameButVariant(a[k], b[k])
    requires OpLegal(a, a[i], s.parses) && Encodes(b[i], b[i].variant)
    ensures OpLegal(b, b[i], s.parses)
  {
  }

  /** A legal plan stays legal after it is disguised, and keeps every kind, stage, amount,
      wallet, id and dependency; a locked operation is untouched, and every other takes the
      encoding drawn for it. */
  lemma DisguisePreservesThePlan(s: Setup, ops: seq<Operation>)
    requires SetOk(s.personas) && PlanLegal(ops, s.parses)
    ensures var out := ApplyAll(ops, DisguiseAll(s, ops));
            && PlanLegal(out, s.parses)
            && (LayoutsOk(s, ops) <==> LayoutsOk(s, out))
            && forall i | 0 <= i < |ops| ::
                 && SameButVariant(ops[i], out[i]) && StageOf(out[i].variant) == StageOf(ops[i].variant)
                 && ops[i] in ops && Encodes(ops[i], ops[i].variant)
                 && out[i].variant == if ops[i].lockVariant then ops[i].variant else DisguiseOfOp(s, ops[i]).variant
  {
    var ds := DisguiseAll(s, ops);
    var out := ApplyAll(ops, ds);
    forall i | 0 <= i < |ops|
      ensures SameButVariant(ops[i], out[i]) && Encodes(out[i], out[i].variant) && StageOf(out[i].variant) == StageOf(ops[i].variant)
    {
      assert ops[i] in ops;
      AppliedKeepsTheOperation(s, ops[i]);
    }
    forall i | 0 <= i < |ops|
      ensures OpLegal(out, out[i], s.parses)
    {
      assert ops[i] in ops;
      LegalOpStaysLegal(s, ops, out, i);
    }
    LayoutsUnchanged(s, ops, out);
  }

  lemma LayoutsUnchanged(s: Setup, a: seq<Operation>, b: seq<Operation>)
    requires |a| == |b| && forall i | 0 <= i < |a| :: SameButVariant(a[i], b[i])
    ensures LayoutsOk(s, a) <==> LayoutsOk(s, b)
  {
  }

  /** Disguising the disguised plan draws the same disguises and changes nothing. */
  lemma DisguiseIsIdempotent(s: Setup, ops: seq<Operation>)
    requires SetOk(s.personas) && PlanLegal(ops, s.parses)
    ensures var ds := DisguiseAll(s, ops);
            var out := ApplyAll(ops, ds);
            && Disguisable(s, out) && DisguiseAll(s, out) == ds && ApplyAll(out, ds) == out
  {
    var ds := DisguiseAll(s, ops);
    var out := ApplyAll(ops, ds);
    forall i | 0 <= i < |ops|
      ensures Encodes(out[i], out[i].variant)
      ensures DisguiseOfOp(s, out[i]) == ds[i] && Applied(out[i], ds[i]) == out[i]
    {
      assert ops[i] in ops;
      AppliedKeepsTheOperation(s, ops[i]);
    }
  }

  // ---- the gate -------------------------------------------------------------

  /** What the gate answers on a plan. */
  function GateAnswer(s: Setup, ops: seq<Operation>, allow: bool): Option<Gated>
    requires SetOk(s.personas)
  {
    if !PlanLegal(ops, s.parses) || !LayoutsOk(s, ops) then None
    else
      var ds := DisguiseAll(s, ops);
      var out := ApplyAll(ops, ds);
      var report := s.audit(out, ds);
      if s.passes(report, allow) then Some(Gated(out, ds, report)) else None
  }

  method ApplyDisguises(ops: seq<Operation>, ds: seq<Disguise>) returns (out: seq<Operation>)
    requires |ds| == |ops|
    ensures out == ApplyAll(ops, ds)
  {
    out := [];
    for i := 0 to |ops|
      invariant |out| == i && forall k | 0 <= k < i :: out[k] == Applied(ops[k], ds[k])
    {
      out := out + [Applied(ops[i], ds[i])];
    }
  }

  /** An authored layout its rails refuse: a create has its own, everything else a buy's. */
  predicate BreaksRails(s: Setup, op: Operation) {
    op.layout.Some? && !s.layoutOk(op.layout.value, if op.kind.Create? then Create else Buy, op.intent.Snipe?)
  }

  /** The first operation with a bad layout. */
  predicate FirstBadLayout(s: Setup, ops: seq<Operation>, id: nat) {
    exists i | 0 <= i < |ops| :: ops[i].id == id && BreaksRails(s, ops[i]) && forall k | 0 <= k < i :: !BreaksRails(s, ops[k])
  }

  method FindBadLayout(s: Setup, ops: seq<Operation>) returns (bad: Option<nat>)
    ensures bad.None? <==> LayoutsOk(s, ops)
    ensures bad.Some? ==> FirstBadLayout(s, ops, bad.value)
  {
    for i := 0 to |ops|
      invariant forall k | 0 <= k < i :: !BreaksRails(s, ops[k])
    {
      if ops[i].layout.Some? && !s.layoutOk(ops[i].layout.value, LayoutKind(ops[i].kind), ops[i].intent == Snipe) {
        assert ops[i] in ops;
        return Some(ops[i].id);
      }
    }
    return None;
  }

  lemma SameFirstBadLayout(s: Setup, a: seq<Operation>, b: seq<Operation>, id: nat)
    requires |a| == |b| && forall i | 0 <= i < |a| :: SameButVariant(a[i], b[i])
    requires FirstBadLayout(s, b, id)
    ensures FirstBadLayout(s, a, id)
  {
    var i :| 0 <= i < |b| && b[i].id == id && BreaksRails(s, b[i]) && forall k | 0 <= k < i :: !BreaksRails(s, b[k]);
    forall k | 0 <= k < |a|
      ensures BreaksRails(s, a[k]) == BreaksRails(s, b[k])
    {
      assert SameButVariant(a[k], b[k]);
    }
  }

  /** The steps in order, each failure with what it found. The second validation can never
      fail. */
  method Gate(s: Setup, ops: seq<Operation>, allow: bool) returns (r: Result<Gated, GateError>)
    requires SetOk(s.personas)
    ensures r.Ok? <==> GateAnswer(s, ops, allow).Some?
    ensures r.Ok? ==> Some(r.value) == GateAnswer(s, ops, allow)
    ensures r.Err? ==> !r.error.DisguisedNotBuildable?
    ensures r.Err? ==> (r.error.NotBuildable? <==> !PlanLegal(ops, s.parses))
    ensures r.Err? && PlanLegal(ops, s.parses) ==> (r.error.BadLayout? <==> !LayoutsOk(s, ops))
    ensures r.Err? && r.error.NotBuildable? ==>
              if IdsUnique(ops) then FirstDefect(ops, r.error.e, s.parses) else r.error.e.DuplicateId? && FirstRepeat(ops, r.error.e.id)
    ensures r.Err? && r.error.BadLayout? ==> FirstBadLayout(s, ops, r.error.op)
    ensures r.Err? && r.error.Rejected? ==>
              && Disguisable(s, ops) && r.error.report == s.audit(ApplyAll(ops, DisguiseAll(s, ops)), DisguiseAll(s, ops))
              && !s.passes(r.error.report, allow)
  {
    var prepared := Prepare(ops, s.parses);
    if prepared.Err? {
      return Err(NotBuildable(prepared.error));
    }
    var ds := DisguiseAll(s, ops);
    var out := ApplyDisguises(ops, ds);
    DisguisePreservesThePlan(s, ops);
    var again := Prepare(out, s.parses);
    if again.Err? {
      assert false;
    }
    var bad := FindBadLayout(s, out);
    if bad.Some? {
      SameFirstBadLayout(s, ops, out, bad.value);
      return Err(BadLayout(bad.value));
    }
    var report := s.audit(out, ds);
    if !s.passes(report, allow) {
      return Err(Rejected(report));
    }
    return Ok(Gated(out, ds, report));
  }

  /** A gated plan passes the gate again, unchanged: the same operations, the same disguises
      and the same report, so a persisted plan replays exactly what was audited. */
  lemma GatingAgainChangesNothing(s: Setup, ops: seq<Operation>, allow: bool)
    requires SetOk(s.personas) && GateAnswer(s, ops, allow).Some?
    ensures var g := GateAnswer(s, ops, allow);
            GateAnswer(s, g.value.ops, allow) == g
  {
    DisguisePreservesThePlan(s, ops);
    DisguiseIsIdempotent(s, ops);
  }

  /** The disguise at the place of the first operation with this id. */
  function DisguiseOf(ops: seq<Operation>, ds: seq<Disguise>, id: nat): Option<Disguise> {
    if ops == [] || ds == [] then None
    else if ops[0].id == id then Some(ds[0])
    else DisguiseOf(ops[1..], ds[1..], id)
  }

  lemma {:induction false} UniqueIdsFindTheirOwn(ops: seq<Operation>, ds: seq<Disguise>, i: nat)
    requires |ops| == |ds| && IdsUnique(ops) && i < |ops|
    ensures DisguiseOf(ops, ds, ops[i].id) == Some(ds[i])
  {
    if i > 0 {
      UniqueIdsFindTheirOwn(ops[1..], ds[1..], i - 1);
    }
  }

  /** In a gated plan, looking a disguise up by an operation's id finds the one that was
      drawn for that operation. */
  lemma LookupFindsTheDrawnDisguise(s: Setup, ops: seq<Operation>, i: nat)
    requires SetOk(s.personas) && PlanLegal(ops, s.parses) && i < |ops|
    ensures var ds := DisguiseAll(s, ops);
            DisguiseOf(ApplyAll(ops, ds), ds, ops[i].id) == Some(DisguiseOfOp(s, ops[i]))
  {
    var ds := DisguiseAll(s, ops);
    var out := ApplyAll(ops, ds);
    UniqueIdsFindTheirOwn(out, ds, i);
  }

}
