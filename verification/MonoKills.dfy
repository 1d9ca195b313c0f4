/** The derived disarm: upper bounds that monotonic entry readings cross for good, and the
    proof that giving up on a crossed bound never loses an entry. */
module MonoKills {
  import opened Metrics
  import opened Rules

  // ---- one arm --------------------------------------------------------------

  /** A threshold and whether reaching it (rather than passing it) crosses it. */
  datatype Upper = Upper(threshold: real, atGe: bool)

  function UpperOf(c: Condition, halfTol: real): Option<Upper> {
    match c.op
    case Lt => Some(Upper(c.value, true))
    case Lte => Some(Upper(c.value, false))
    case Eq => Some(Upper(c.value + halfTol, false))
    case _ => None
  }

  function Tighten(best: Option<Upper>, other: Option<Upper>): Option<Upper> {
    match (best, other)
    case (_, None) => best
    case (None, _) => other
    case (Some(b), Some(u)) =>
      if u.threshold < b.threshold || (u.threshold == b.threshold && u.atGe && !b.atGe) then other else best
  }

  function TightestUpper(arm: AndArm, halfTol: real): Option<Upper> {
    if arm == [] then None
    else Tighten(TightestUpper(arm[..|arm| - 1], halfTol), UpperOf(arm[|arm| - 1], halfTol))
  }

  function ArmUpper(arm: AndArm, halfTol: real, r: MetricRef): Option<MonoBound> {
    match TightestUpper(arm, halfTol)
    case None => None
    case Some(u) => Some(MonoBound(r, u.threshold, u.atGe))
  }

  /** The scan that keeps the tightest bound seen so far. */
  method ArmMonoUpper(arm: AndArm, halfTol: real, r: MetricRef) returns (bound: Option<MonoBound>)
    ensures bound == ArmUpper(arm, halfTol, r)
  {
    var best: Option<Upper> := None;
    for i := 0 to |arm|
      invariant best == TightestUpper(arm[..i], halfTol)
    {
      assert arm[..i + 1][..i] == arm[..i];
      var upper := UpperOf(arm[i], halfTol);
      if upper.Some? {
        if best.None? {
          best := upper;
        } else if upper.value.threshold < best.value.threshold
                  || (upper.value.threshold == best.value.threshold && upper.value.atGe && !best.value.atGe) {
          best := upper;
        }
      }
    }
    assert arm[..|arm|] == arm;
    bound := if best.None? then None else Some(MonoBound(r, best.value.threshold, best.value.atGe));
  }

  predicate Past(u: Upper, v: real) {
    if u.atGe then v >= u.threshold else v > u.threshold
  }

  predicate Crossed(b: MonoBound, value: Reading) {
    value.Value? && Past(Upper(b.threshold, b.crossAtGe), value.v)
  }

  /** No value from `v` up satisfies the condition. */
  ghost predicate DeadFrom(c: Condition, v: real, tol: real) {
    forall w: real :: v <= w ==> !EvalFinite(c, w, tol)
  }

  lemma ConditionDiesAtItsUpper(c: Condition, v: real, tol: real)
    requires tol >= 0.0
    ensures DeadFrom(c, v, tol) <==> UpperOf(c, tol / 2.0).Some? && Past(UpperOf(c, tol / 2.0).value, v)
  {
    var high := MaxReal(v, c.value) + tol + 1.0;
    match c.op {
      case Gt => assert EvalFinite(c, high, tol);
      case Gte => assert EvalFinite(c, high, tol);
      case Ne => assert EvalFinite(c, high, tol);
      case Lt => assert EvalFinite(c, v, tol) <==> v < c.value;
      case Lte => assert EvalFinite(c, v, tol) <==> v <= c.value;
      case Eq =>
        var w := MaxReal(v, c.value);
        assert v <= c.value + tol / 2.0 ==> EvalFinite(c, w, tol);
    }
  }

  lemma {:induction false} TightestIsPastWhenAnyIs(arm: AndArm, halfTol: real, v: real)
    ensures var t := TightestUpper(arm, halfTol);
            (t.Some? && Past(t.value, v))
            <==> exists c | c in arm :: UpperOf(c, halfTol).Some? && Past(UpperOf(c, halfTol).value, v)
  {
    if arm != [] {
      var n := |arm| - 1;
      TightestIsPastWhenAnyIs(arm[..n], halfTol, v);
      assert arm == arm[..n] + [arm[n]];
    }
  }

  /** The bound of an arm is the tightest one: it is crossed at exactly the values from
      which some condition of the arm can never hold again. */
  lemma ArmBoundIsTightest(arm: AndArm, tol: real, r: MetricRef, v: real)
    requires tol >= 0.0
    ensures var b := ArmUpper(arm, tol / 2.0, r);
            (b.Some? && Crossed(b.value, Value(v))) <==> exists c | c in arm :: DeadFrom(c, v, tol)
  {
    TightestIsPastWhenAnyIs(arm, tol / 2.0, v);
    forall c | c in arm
      ensures DeadFrom(c, v, tol) <==> UpperOf(c, tol / 2.0).Some? && Past(UpperOf(c, tol / 2.0).value, v)
    {
      ConditionDiesAtItsUpper(c, v, tol);
    }
  }

  // ---- one condition expression ---------------------------------------------

  function KillOf(m: MetricReq): MonoKill {
    MonoKill(m, seq(|m.conds|, i requires 0 <= i < |m.conds| => ArmUpper(m.conds[i], m.tolerance / 2.0, m.r)))
  }

  predicate PermanentlyFalse(k: MonoKill, value: Reading) {
    k.arms != [] && forall a | a in k.arms :: a.Some? && Crossed(a.value, value)
  }

  /** Every arm of the expression holds a condition that is dead from `v` on. */
  ghost predicate EveryArmDead(conds: ConditionExpr, v: real, tol: real) {
    conds != [] && forall arm | arm in conds :: exists c | c in arm :: DeadFrom(c, v, tol)
  }

  lemma KillIsExact(m: MetricReq, v: real)
    requires m.tolerance >= 0.0
    ensures PermanentlyFalse(KillOf(m), Value(v)) <==> EveryArmDead(m.conds, v, m.tolerance)
  {
    var k := KillOf(m);
    forall i | 0 <= i < |m.conds|
      ensures (k.arms[i].Some? && Crossed(k.arms[i].value, Value(v))) <==> exists c | c in m.conds[i] :: DeadFrom(c, v, m.tolerance)
    {
      ArmBoundIsTightest(m.conds[i], m.tolerance, m.r, v);
    }
    if PermanentlyFalse(k, Value(v)) {
      forall arm | arm in m.conds
        ensures exists c | c in arm :: DeadFrom(c, v, m.tolerance)
      {
        var i :| 0 <= i < |m.conds| && m.conds[i] == arm;
        assert k.arms[i] in k.arms;
      }
    }
    if EveryArmDead(m.conds, v, m.tolerance) {
      assert k.arms[0] in k.arms;
      forall a | a in k.arms
        ensures a.Some? && Crossed(a.value, Value(v))
      {
        var i :| 0 <= i < |k.arms| && k.arms[i] == a;
        assert m.conds[i] in m.conds;
      }
    }
  }

  /** The later of two bounds: the one whose crossing ends the wait for both. */
  function Later(a: MonoBound, b: MonoBound): MonoBound {
    if b.threshold > a.threshold || (b.threshold == a.threshold && a.crossAtGe && !b.crossAtGe) then b else a
  }

  function LatestOf(arms: seq<Option<MonoBound>>): Option<MonoBound> {
    if arms == [] then None
    else
      var before := LatestOf(arms[..|arms| - 1]);
      match (before, arms[|arms| - 1])
      case (_, None) => before
      case (None, Some(b)) => Some(b)
      case (Some(a), Some(b)) => Some(Later(a, b))
  }

  function BindingBound(k: MonoKill, value: Reading): Option<MonoBound> {
    if !PermanentlyFalse(k, value) then None else LatestOf(k.arms)
  }

  lemma {:induction false} LatestIsCrossedWhenAllAre(arms: seq<Option<MonoBound>>, value: Reading)
    requires forall a | a in arms :: a.Some?
    ensures arms != [] <==> LatestOf(arms).Some?
    ensures arms != [] ==> (Crossed(LatestOf(arms).value, value) <==> forall a | a in arms :: Crossed(a.value, value))
  {
    if arms != [] {
      var n := |arms| - 1;
      assert arms == arms[..n] + [arms[n]];
      assert arms[n] in arms;
      LatestIsCrossedWhenAllAre(arms[..n], value);
    }
  }

  /** `BindingBound` names the one bound whose crossing ended the wait: it exists exactly
      when every arm is dead, and any value crosses it exactly when it crosses all of them. */
  lemma BindingBoundCrossesLast(k: MonoKill, v: real, w: real)
    ensures BindingBound(k, Value(v)).Some? <==> PermanentlyFalse(k, Value(v))
    ensures BindingBound(k, Value(v)).Some? ==>
              (Crossed(BindingBound(k, Value(v)).value, Value(w)) <==> PermanentlyFalse(k, Value(w)))
  {
    if PermanentlyFalse(k, Value(v)) {
      LatestIsCrossedWhenAllAre(k.arms, Value(v));
      LatestIsCrossedWhenAllAre(k.arms, Value(w));
    }
  }

  // ---- the rule -------------------------------------------------------------

  function EntryConds(rule: Rule): seq<CondReq> {
    rule.event + rule.filters + rule.finalFilters
  }

  predicate Kills(c: CondReq) {
    c.OnMetric? && IsMonotonic(c.m.r) && exists a | a in KillOf(c.m).arms :: a.Some?
  }

  function DeriveKills(conds: seq<CondReq>): seq<MonoKill> {
    if conds == [] then []
    else DeriveKills(conds[..|conds| - 1]) + if Kills(conds[|conds| - 1]) then [KillOf(conds[|conds| - 1].m)] else []
  }

  /** The kills of a compiled rule are the ones its own entry conditions imply. */
  predicate KillsDerived(rule: Rule) {
    rule.monoKills == DeriveKills(EntryConds(rule))
  }

  lemma {:induction false} DerivedKillsAre(conds: seq<CondReq>, k: MonoKill)
    ensures k in DeriveKills(conds) <==> exists c | c in conds :: Kills(c) && k == KillOf(c.m)
  {
    if conds != [] {
      var n := |conds| - 1;
      DerivedKillsAre(conds[..n], k);
      assert conds == conds[..n] + [conds[n]];
    }
  }

  /** The arm bounds, one `ArmMonoUpper` per arm, then the metric conditions that carry one. */
  method DeriveMonoKills(conds: seq<CondReq>) returns (kills: seq<MonoKill>)
    ensures kills == DeriveKills(conds)
  {
    kills := [];
    for i := 0 to |conds|
      invariant kills == DeriveKills(conds[..i])
    {
      assert conds[..i + 1][..i] == conds[..i];
      if conds[i].OnMetric? && IsMonotonic(conds[i].m.r) {
        var m := conds[i].m;
        var arms: seq<Option<MonoBound>> := [];
        var any := false;
        for j := 0 to |m.conds|
          invariant arms == KillOf(m).arms[..j]
          invariant any <==> exists a | a in arms :: a.Some?
        {
          var bound := ArmMonoUpper(m.conds[j], m.tolerance / 2.0, m.r);
          arms := arms + [bound];
          any := any || bound.Some?;
          assert KillOf(m).arms[..j + 1] == KillOf(m).arms[..j] + [KillOf(m).arms[j]];
        }
        assert KillOf(m).arms[..|m.conds|] == KillOf(m).arms;
        if any {
          kills := kills + [MonoKill(m, arms)];
        }
      }
    }
    assert conds[..|conds|] == conds;
  }

  function FirstBinding(kills: seq<MonoKill>, coin: Reads, now: Ts): Option<MonoBound> {
    if kills == [] then None
    else
      var b := BindingBound(kills[0], ReadReq(kills[0].req, coin, None, now));
      if b.Some? then b else FirstBinding(kills[1..], coin, now)
  }

  function EntryUnsatisfiable(rule: Rule, coin: Reads, now: Ts): Option<MonoBound> {
    FirstBinding(rule.monoKills, coin, now)
  }

  /** The condition this reading has killed for good. */
  ghost predicate DeadNow(c: CondReq, coin: Reads, now: Ts) {
    && c.OnMetric? && IsMonotonic(c.m.r)
    && ReadReq(c.m, coin, None, now).Value?
    && EveryArmDead(c.m.conds, ReadReq(c.m, coin, None, now).v, c.m.tolerance)
  }

  predicate TolerancesOk(rule: Rule) {
    forall c | c in EntryConds(rule) && c.OnMetric? :: c.m.tolerance >= 0.0
  }

  lemma {:induction false} FirstBindingFinds(kills: seq<MonoKill>, coin: Reads, now: Ts)
    ensures FirstBinding(kills, coin, now).Some?
            <==> exists k | k in kills :: PermanentlyFalse(k, ReadReq(k.req, coin, None, now))
  {
    if kills != [] {
      FirstBindingFinds(kills[1..], coin, now);
      assert kills == [kills[0]] + kills[1..];
      var value := ReadReq(kills[0].req, coin, None, now);
      match value {
        case Undefined =>
          if kills[0].arms != [] {
            assert kills[0].arms[0] in kills[0].arms;
          }
        case Value(v) => BindingBoundCrossesLast(kills[0], v, v);
      }
    }
  }

  lemma PermanentlyFalseNeedsAValue(k: MonoKill, value: Reading)
    requires PermanentlyFalse(k, value)
    ensures value.Value?
  {
    assert k.arms[0] in k.arms;
  }

  /** The rule disarms exactly when some monotonic entry condition, as now read, has a
      condition in each of its arms that no later value can satisfy. */
  lemma DisarmsExactlyWhenAConditionIsDead(rule: Rule, coin: Reads, now: Ts)
    requires KillsDerived(rule) && TolerancesOk(rule)
    ensures EntryUnsatisfiable(rule, coin, now).Some? <==> exists c | c in EntryConds(rule) :: DeadNow(c, coin, now)
  {
    FirstBindingFinds(rule.monoKills, coin, now);
    if EntryUnsatisfiable(rule, coin, now).Some? {
      var k :| k in rule.monoKills && PermanentlyFalse(k, ReadReq(k.req, coin, None, now));
      DerivedKillsAre(EntryConds(rule), k);
      var c :| c in EntryConds(rule) && Kills(c) && k == KillOf(c.m);
      PermanentlyFalseNeedsAValue(k, ReadReq(k.req, coin, None, now));
      KillIsExact(c.m, ReadReq(c.m, coin, None, now).v);
      assert DeadNow(c, coin, now);
    }
    if exists c | c in EntryConds(rule) :: DeadNow(c, coin, now) {
      var c :| c in EntryConds(rule) && DeadNow(c, coin, now);
      var k := KillOf(c.m);
      KillIsExact(c.m, ReadReq(c.m, coin, None, now).v);
      assert k.arms[0] in k.arms;
      DerivedKillsAre(EntryConds(rule), k);
    }
  }

  // ---- runs -----------------------------------------------------------------

  /** One moment of a coin's life, as a rule reads it. */
  datatype Instant = Instant(coin: Reads, now: Ts)

  /** A reading that, once defined, stays defined and never falls. */
  predicate Advances(a: Reading, b: Reading) {
    a.Undefined? || (b.Value? && b.v >= a.v)
  }

  predicate MonotonicReadsAdvance(conds: seq<CondReq>, a: Instant, b: Instant) {
    forall c | c in conds && c.OnMetric? && IsMonotonic(c.m.r) ::
      Advances(ReadReq(c.m, a.coin, None, a.now), ReadReq(c.m, b.coin, None, b.now))
  }

  /** A run along which the monotonic readings among `conds` never decrease. */
  predicate Ratchets(conds: seq<CondReq>, run: seq<Instant>) {
    forall i | 0 <= i < |run| - 1 :: MonotonicReadsAdvance(conds, run[i], run[i + 1])
  }

  lemma {:induction false} RunAdvances(conds: seq<CondReq>, run: seq<Instant>, i: nat, j: nat)
    requires Ratchets(conds, run) && i <= j < |run|
    ensures MonotonicReadsAdvance(conds, run[i], run[j])
    decreases j - i
  {
    if i < j {
      RunAdvances(conds, run, i, j - 1);
      assert MonotonicReadsAdvance(conds, run[j - 1], run[j - 1 + 1]);
    }
  }

  lemma DeadConditionStaysDead(c: CondReq, a: Instant, b: Instant)
    requires DeadNow(c, a.coin, a.now)
    requires Advances(ReadReq(c.m, a.coin, None, a.now), ReadReq(c.m, b.coin, None, b.now))
    ensures !ReqHolds(c.m, b.coin, None, b.now)
  {
  }

  /** The derived disarm loses no entry: once it fires, no later instant of the run buys,
      whatever the lock and whether a print or a tick decides, and the retry gate stays shut. */
  lemma DisarmLosesNoEntry(rule: Rule, run: seq<Instant>, i: nat, j: nat, lockedSlot: Option<nat>, onPrint: bool)
    requires Wf(rule) && KillsDerived(rule) && TolerancesOk(rule)
    requires Ratchets(EntryConds(rule), run) && i <= j < |run|
    requires EntryUnsatisfiable(rule, run[i].coin, run[i].now).Some?
    ensures TryEnter(rule, run[j].coin, run[j].now, lockedSlot, onPrint) != Enter
    ensures !CanEnter(rule, run[j].coin, run[j].now)
  {
    DisarmsExactlyWhenAConditionIsDead(rule, run[i].coin, run[i].now);
    var c :| c in EntryConds(rule) && DeadNow(c, run[i].coin, run[i].now);
    RunAdvances(EntryConds(rule), run, i, j);
    DeadConditionStaysDead(c, run[i], run[j]);
    assert !CondHolds(rule, c, run[j].coin, None, run[j].now);
    assert c in rule.event || c in rule.filters || c in rule.finalFilters;
    VerdictMeaning(rule, run[j].coin, run[j].now, lockedSlot, onPrint);
  }

  // ---- phases ---------------------------------------------------------------

  /** What validation allows in an `until`: monotonic coin metrics, lower bounds only. */
  predicate OnlyRises(conds: seq<CondReq>) {
    forall c | c in conds ::
      && c.OnMetric? && IsMonotonic(c.m.r) && !IsPosition(c.m.r)
      && forall arm | arm in c.m.conds :: forall d | d in arm :: d.op.Gt? || d.op.Gte?
  }

  predicate OneWayPhases(t: Tree) {
    forall u | u in t.untils :: OnlyRises(u)
  }

  lemma LowerBoundsStayMet(rule: Rule, conds: seq<CondReq>, a: Instant, b: Instant)
    requires CondsOk(rule, conds) && OnlyRises(conds)
    requires MonotonicReadsAdvance(conds, a, b)
    requires AllHold(rule, conds, a.coin, None, a.now)
    ensures AllHold(rule, conds, b.coin, None, b.now)
  {
  }

  function UntilConds(untils: seq<seq<CondReq>>): seq<CondReq> {
    if untils == [] then [] else untils[0] + UntilConds(untils[1..])
  }

  lemma {:induction false} PhaseStep(rule: Rule, untils: seq<seq<CondReq>>, a: Instant, b: Instant)
    requires forall u | u in untils :: CondsOk(rule, u) && OnlyRises(u)
    requires MonotonicReadsAdvance(UntilConds(untils), a, b)
    ensures Phase(rule, untils, a.coin, a.now) <= Phase(rule, untils, b.coin, b.now)
  {
    if untils != [] {
      PhaseStep(rule, untils[1..], a, b);
      if AllHold(rule, untils[0], a.coin, None, a.now) {
        LowerBoundsStayMet(rule, untils[0], a, b);
      }
    }
  }

  /** A stage tree's phase only moves forward, though nothing about it is stored. */
  lemma PhaseOnlyMovesForward(rule: Rule, t: Tree, run: seq<Instant>, i: nat, j: nat)
    requires TreeOk(rule, t) && OneWayPhases(t)
    requires Ratchets(UntilConds(t.untils), run) && i <= j < |run|
    ensures Phase(rule, t.untils, run[i].coin, run[i].now) <= Phase(rule, t.untils, run[j].coin, run[j].now)
  {
    RunAdvances(UntilConds(t.untils), run, i, j);
    PhaseStep(rule, t.untils, run[i], run[j]);
  }
}
