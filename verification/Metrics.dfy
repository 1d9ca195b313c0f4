/** The readings a rule is judged on: instants, metric references and spans, readings that
    may be undefined, and the condition grammar (an OR of AND arms). */
module Metrics {

  datatype Option<+T> = None | Some(value: T)

  /** One past the largest 64-bit word, and the largest 32-bit one. */
  const WORD: nat := 0x1_0000_0000_0000_0000
  const U32_MAX: nat := 0xFFFF_FFFF

  function MinNat(a: nat, b: nat): nat {
    if a < b then a else b
  }

  lemma MulMono(a: nat, b: nat, c: nat)
    requires a <= b
    ensures a * c <= b * c
  {
  }

  lemma Reassociate<T>(a: seq<T>, b: seq<T>, c: seq<T>)
    ensures a + (b + c) == (a + b) + c
  {
  }

  /** An instant in milliseconds. */
  type Ts = int

  /** Seconds elapsed, to the millisecond. */
  function SecsBetween(from: Ts, to: Ts): real {
    (to - from) as real / 1000.0
  }

  type NonNegReal = r: real | 0.0 <= r

  /** Nearest integer, for a non-negative argument. */
  function Round(x: real): int {
    (x + 0.5).Floor
  }

  function Ceil(x: real): int {
    -((-x).Floor)
  }

  function MaxReal(a: real, b: real): real {
    if a < b then b else a
  }

  function MaxInt(a: int, b: int): int {
    if a < b then b else a
  }

  /** A metric's value; a NaN or an infinity is `Undefined`. */
  datatype Reading = Undefined | Value(v: real)

  datatype Operator = Gt | Gte | Lt | Lte | Eq | Ne

  datatype Condition = Condition(op: Operator, value: real)

  type AndArm = seq<Condition>

  type ConditionExpr = seq<AndArm>

  /** One finite value against one condition; `=` holds inside a band of width `tol`. */
  predicate EvalFinite(c: Condition, v: real, tol: real) {
    match c.op
    case Gt => v > c.value
    case Gte => v >= c.value
    case Lt => v < c.value
    case Lte => v <= c.value
    case Eq => -tol / 2.0 <= v - c.value <= tol / 2.0
    case Ne => v - c.value < -tol / 2.0 || v - c.value > tol / 2.0
  }

  /** Of each pair of opposite operators exactly one holds; at its own value a condition holds
      when equality is part of it. */
  lemma OperatorsAreOpposites(value: real, v: real, tol: real)
    requires tol >= 0.0
    ensures EvalFinite(Condition(Gt, value), v, tol) <==> !EvalFinite(Condition(Lte, value), v, tol)
    ensures EvalFinite(Condition(Lt, value), v, tol) <==> !EvalFinite(Condition(Gte, value), v, tol)
    ensures EvalFinite(Condition(Ne, value), v, tol) <==> !EvalFinite(Condition(Eq, value), v, tol)
    ensures forall op :: EvalFinite(Condition(op, value), value, tol) <==> op == Gte || op == Lte || op == Eq
  {
  }

  /** A non-empty arm holds when each of its conditions does. */
  predicate ArmHolds(arm: AndArm, v: real, tol: real) {
    arm != [] && forall c | c in arm :: EvalFinite(c, v, tol)
  }

  /** An empty expression always holds; otherwise an undefined reading satisfies nothing. */
  predicate Eval(arms: ConditionExpr, value: Reading, tol: real) {
    arms == [] || (value.Value? && exists arm | arm in arms :: ArmHolds(arm, value.v, tol))
  }

  datatype Family = State | Price | Flow | Holdings | Crowd | Print | Position

  /** The metrics the engine treats specially by name. Every other registry row is
      `Listed`, with the row's own family, monotonic flag and `=` band. */
  datatype Metric =
    | AgeSec
    | StallSec
    | TradeCount
    | SoldBagPct
    | PnlPct
    | HeldSec
    | StageSec
    | BuyerIsNew
    | Listed(family: Family, row: nat, rises: bool, band: NonNegReal)

  function FamilyOf(m: Metric): Family {
    match m
    case AgeSec => State
    case StallSec => Price
    case TradeCount => Flow
    case SoldBagPct => Print
    case PnlPct => Position
    case HeldSec => Position
    case StageSec => Position
    case BuyerIsNew => Crowd
    case Listed(f, _, _, _) => f
  }

  /** Told by the print being read and cleared on a tick: the print family, and whether the
      print just added a buyer, which the crowd family lists. */
  predicate FactOfThePrint(m: Metric) {
    FamilyOf(m) == Print || m.BuyerIsNew?
  }

  predicate NeverFalls(m: Metric) {
    m.AgeSec? || m.TradeCount? || (m.Listed? && m.rises)
  }

  function EqTolerance(m: Metric): (tol: real)
    ensures tol >= 0.0
  {
    match m
    case PnlPct => 1.0
    case Listed(_, _, _, b) => b
    case _ => 0.5
  }

  datatype WindowUnit = Sec | Slot | Prints

  datatype WindowSpec = WindowSpec(size: NonNegReal, lag: NonNegReal, unit: WindowUnit)

  /** What stretch of the tape a read covers. All absent: the coin's whole life. */
  datatype Span = Span(window: Option<WindowSpec>, slice: Option<WindowSpec>, sinceAge: Option<nat>, sinceAmm: bool)

  const LIFE := Span(None, None, None, false)

  predicate IsWindowed(s: Span) {
    s.window.Some? || s.slice.Some?
  }

  /** Whose trades: a fingerprint tag, or a built-in wallet class. */
  datatype Tag = Tag(name: string, negated: bool, builtin: bool)

  datatype MetricRef = MetricRef(metric: Metric, tag: Option<Tag>, span: Span)

  predicate IsPosition(r: MetricRef) {
    FamilyOf(r.metric) == Position
  }

  predicate IsFingerprintScoped(r: MetricRef) {
    r.tag.Some? && !r.tag.value.builtin
  }

  /** Never decreases over the coin's life, read without a trailing window. */
  predicate IsMonotonic(r: MetricRef) {
    NeverFalls(r.metric) && !IsWindowed(r.span)
  }

  /** A read of this one print: the print family, or a `[1p]` span. */
  predicate WatchesThisPrint(r: MetricRef) {
    FamilyOf(r.metric) == Print
    || (r.span.window.Some? && r.span.window.value.unit == Prints && r.span.window.value.size == 1.0)
  }
}
