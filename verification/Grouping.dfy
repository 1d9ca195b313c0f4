/** Partitions of a numeric axis, and group keys as predicates. */
module Grouping {
  import opened Metrics

  /** An inclusive window; an absent bound is open. */
  datatype Window = Window(min: Option<nat>, max: Option<nat>)

  predicate In(w: Window, v: nat) {
    (w.min.Some? ==> w.min.value <= v) && (w.max.Some? ==> v <= w.max.value)
  }

  datatype Partition = Distinct | Ranges(edges: seq<nat>)

  predicate Ascending(edges: seq<nat>) {
    forall i, j | 0 <= i < j < |edges| :: edges[i] < edges[j]
  }

  // ---- windows --------------------------------------------------------------

  /** How many edges are at or below the value, by bisection. */
  method PartitionPoint(edges: seq<nat>, v: nat) returns (n: nat)
    requires Ascending(edges)
    ensures n == EdgesUpTo(edges, v)
  {
    var lo, hi := 0, |edges|;
    while lo < hi
      invariant 0 <= lo <= hi <= |edges|
      invariant forall i | 0 <= i < lo :: edges[i] <= v
      invariant forall i | hi <= i < |edges| :: v < edges[i]
    {
      var mid := (lo + hi) / 2;
      if edges[mid] <= v {
        lo := mid + 1;
      } else {
        hi := mid;
      }
    }
    CountIs(edges, v, lo);
    n := lo;
  }

  lemma CountIs(edges: seq<nat>, v: nat, n: nat)
    requires Ascending(edges) && n <= |edges|
    requires forall i | 0 <= i < |edges| :: edges[i] <= v <==> i < n
    ensures n == EdgesUpTo(edges, v)
  {
    EdgesUpToSplits(edges, v);
    var e := EdgesUpTo(edges, v);
    assert n < |edges| ==> edges[n] > v;
    assert e < |edges| ==> edges[e] > v;
  }

  function EdgesUpTo(edges: seq<nat>, v: nat): (n: nat)
    ensures n <= |edges|
  {
    if edges == [] then 0 else EdgesUpTo(edges[..|edges| - 1], v) + if edges[|edges| - 1] <= v then 1 else 0
  }

  /** The edges at or below the value come first, the others after. */
  lemma {:induction false} EdgesUpToSplits(edges: seq<nat>, v: nat)
    requires Ascending(edges)
    ensures forall i | 0 <= i < |edges| :: edges[i] <= v <==> i < EdgesUpTo(edges, v)
  {
    if edges != [] {
      var n := |edges| - 1;
      EdgesUpToSplits(edges[..n], v);
      if n > 0 {
        assert edges[..n][n - 1] == edges[n - 1];
      }
    }
  }

  function WindowFor(p: Partition, v: nat): Window {
    match p
    case Distinct => Window(Some(v), Some(v))
    case Ranges(edges) => WindowAt(edges, EdgesUpTo(edges, v))
  }

  /** Window `i` opens at edge `i - 1` and ends one below edge `i`. */
  function WindowAt(edges: seq<nat>, i: nat): Window
    requires i <= |edges|
  {
    Window(if i == 0 then None else Some(edges[i - 1]),
           if i == |edges| then None else Some(if edges[i] == 0 then 0 else edges[i] - 1))
  }

  predicate PartitionOk(p: Partition) {
    p.Ranges? ==> Ascending(p.edges)
  }

  lemma BelowEveryLaterEdge(edges: seq<nat>, v: nat)
    requires Ascending(edges)
    ensures EdgesUpTo(edges, v) < |edges| ==> edges[EdgesUpTo(edges, v)] > 0
    ensures In(WindowAt(edges, EdgesUpTo(edges, v)), v)
  {
  }

  lemma WindowDecidesThePoint(edges: seq<nat>, u: nat, v: nat)
    requires Ascending(edges)
    ensures In(WindowAt(edges, EdgesUpTo(edges, u)), v) <==> EdgesUpTo(edges, v) == EdgesUpTo(edges, u)
  {
    EdgesUpToSplits(edges, u);
    EdgesUpToSplits(edges, v);
    var i, j := EdgesUpTo(edges, u), EdgesUpTo(edges, v);
    if i < j {
      assert edges[i] <= v;
    } else if j < i {
      assert edges[i - 1] > v;
    }
  }

  lemma LaterWindowOpensHigher(edges: seq<nat>, i: nat, j: nat)
    requires Ascending(edges) && i < j <= |edges|
    ensures WindowAt(edges, i) != WindowAt(edges, j)
  {
  }

  /** The windows tile the domain: a value is in its own window, and in another value's exactly
      when the two windows are the same one. No window bound is ever taken below zero. */
  lemma WindowsTile(p: Partition, u: nat, v: nat)
    requires PartitionOk(p)
    ensures In(WindowFor(p, v), v)
    ensures In(WindowFor(p, u), v) <==> WindowFor(p, u) == WindowFor(p, v)
    ensures p.Ranges? && EdgesUpTo(p.edges, v) < |p.edges| ==> p.edges[EdgesUpTo(p.edges, v)] > 0
  {
    if p.Ranges? {
      BelowEveryLaterEdge(p.edges, v);
      WindowDecidesThePoint(p.edges, u, v);
      var i, j := EdgesUpTo(p.edges, u), EdgesUpTo(p.edges, v);
      if i < j {
        LaterWindowOpensHigher(p.edges, i, j);
      } else if j < i {
        LaterWindowOpensHigher(p.edges, j, i);
      }
    }
  }

  // ---- quantiles ------------------------------------------------------------

  function Insert(x: nat, xs: seq<nat>): (out: seq<nat>)
    ensures multiset(out) == multiset(xs) + multiset{x}
  {
    if xs == [] || x <= xs[0] then [x] + xs
    else
      assert xs == [xs[0]] + xs[1..];
      [xs[0]] + Insert(x, xs[1..])
  }

  function Sort(xs: seq<nat>): (out: seq<nat>)
    ensures multiset(out) == multiset(xs)
  {
    if xs == [] then []
    else
      assert xs == [xs[0]] + xs[1..];
      Insert(xs[0], Sort(xs[1..]))
  }

  predicate Sorted(xs: seq<nat>) {
    forall i, j | 0 <= i < j < |xs| :: xs[i] <= xs[j]
  }

  lemma {:induction false} InsertKeepsSorted(x: nat, xs: seq<nat>)
    requires Sorted(xs)
    ensures Sorted(Insert(x, xs))
  {
    if xs != [] && x > xs[0] {
      var rest := Insert(x, xs[1..]);
      InsertKeepsSorted(x, xs[1..]);
      forall k | 0 <= k < |rest|
        ensures xs[0] <= rest[k]
      {
        assert rest[k] in multiset(rest);
        assert rest[k] == x || rest[k] in xs[1..];
      }
    }
  }

  lemma {:induction false} SortSorts(xs: seq<nat>)
    ensures Sorted(Sort(xs)) && |Sort(xs)| == |xs|
  {
    assert |multiset(Sort(xs))| == |multiset(xs)|;
    if xs != [] {
      SortSorts(xs[1..]);
      InsertKeepsSorted(xs[0], Sort(xs[1..]));
    }
  }

  predicate Observed(values: seq<nat>, w: Window) {
    exists v | v in values :: In(w, v)
  }

  /** Quantile edges: strictly ascending, each an observed value above the smallest. */
  predicate GoodEdges(sorted: seq<nat>, edges: seq<nat>)
    requires sorted != []
  {
    Ascending(edges) && forall e | e in edges :: e in sorted && e > sorted[0]
  }

  lemma MulKeepsOrder(a: nat, b: nat, n: nat)
    ensures a <= b ==> a * n <= b * n
    ensures a * n < b * n ==> a < b
  {
  }

  lemma QuantileIndex(i: nat, n: nat, len: nat)
    requires i < n && len > 0
    ensures QuantileAt(i, n, len) < len
  {
    var q := QuantileAt(i, n, len);
    assert i * len == q * n + i * len % n;
    assert i * len < n * len;
  }

  /** Where the i-th of n quantiles sits among `len` sorted values. */
  function QuantileAt(i: nat, n: nat, len: nat): nat
    requires n > 0
  {
    i * len / n
  }

  lemma QuantileIndexGrows(i: nat, j: nat, n: nat, len: nat)
    requires i <= j && n > 0
    ensures QuantileAt(i, n, len) <= QuantileAt(j, n, len)
  {
    assert i * len <= j * len;
    DivMono(i * len, j * len, n);
  }

  lemma DivMono(a: nat, b: nat, n: nat)
    requires a <= b && n > 0
    ensures a / n <= b / n
  {
    var p, q := a / n, b / n;
    assert a == p * n + a % n && b == q * n + b % n;
    MulKeepsOrder(p, q + 1, n);
  }

  lemma AppendedEdgeIsGood(sorted: seq<nat>, edges: seq<nat>, edge: nat)
    requires sorted != [] && GoodEdges(sorted, edges) && edge in sorted && edge > sorted[0]
    requires edges != [] ==> edges[|edges| - 1] < edge
    ensures GoodEdges(sorted, edges + [edge])
  {
  }

  function QuantileOf(sorted: seq<nat>, i: nat, n: nat): nat
    requires i < n && sorted != []
  {
    QuantileIndex(i, n, |sorted|);
    sorted[QuantileAt(i, n, |sorted|)]
  }

  lemma QuantilesGrow(sorted: seq<nat>, i: nat, j: nat, n: nat)
    requires Sorted(sorted) && sorted != [] && i <= j < n
    ensures QuantileOf(sorted, i, n) <= QuantileOf(sorted, j, n)
    ensures QuantileOf(sorted, j, n) in sorted
  {
    QuantileIndex(i, n, |sorted|);
    QuantileIndex(j, n, |sorted|);
    QuantileIndexGrows(i, j, n, |sorted|);
  }

  /** The edges are exactly the first quantiles above the smallest value, up to the i-th. */
  predicate AtQuantilesUpTo(sorted: seq<nat>, edges: seq<nat>, i: nat, n: nat)
    requires sorted != [] && i <= n
  {
    && (forall k | 1 <= k < i && QuantileOf(sorted, k, n) > sorted[0] :: QuantileOf(sorted, k, n) in edges)
    && (forall e | e in edges :: exists k | 1 <= k < i :: e == QuantileOf(sorted, k, n))
  }

  predicate AtQuantiles(sorted: seq<nat>, edges: seq<nat>, n: nat)
    requires sorted != []
  {
    AtQuantilesUpTo(sorted, edges, n, n)
  }

  lemma QuantileIsThere(sorted: seq<nat>, edges: seq<nat>, i: nat, n: nat)
    requires sorted != [] && 1 <= i < n && AtQuantilesUpTo(sorted, edges, i, n)
    requires QuantileOf(sorted, i, n) > sorted[0] ==> QuantileOf(sorted, i, n) in edges
    ensures AtQuantilesUpTo(sorted, edges, i + 1, n)
  {
    forall e | e in edges
      ensures exists k | 1 <= k < i + 1 :: e == QuantileOf(sorted, k, n)
    {
      var k :| 1 <= k < i && e == QuantileOf(sorted, k, n);
      assert 1 <= k < i + 1;
    }
  }

  lemma QuantileIsAppended(sorted: seq<nat>, edges: seq<nat>, i: nat, n: nat)
    requires sorted != [] && 1 <= i < n && AtQuantilesUpTo(sorted, edges, i, n)
    ensures AtQuantilesUpTo(sorted, edges + [QuantileOf(sorted, i, n)], i + 1, n)
  {
    forall e | e in edges + [QuantileOf(sorted, i, n)]
      ensures exists k | 1 <= k < i + 1 :: e == QuantileOf(sorted, k, n)
    {
      if e in edges {
        var k :| 1 <= k < i && e == QuantileOf(sorted, k, n);
        assert 1 <= k < i + 1;
      }
    }
  }

  /** What the edges are before the i-th quantile is looked at. */
  predicate EdgesBefore(sorted: seq<nat>, edges: seq<nat>, i: nat, n: nat)
    requires sorted != [] && 1 <= i <= n
  {
    && |edges| < i && GoodEdges(sorted, edges) && AtQuantilesUpTo(sorted, edges, i, n)
    && (edges != [] ==> edges[|edges| - 1] <= QuantileOf(sorted, i - 1, n))
  }

  predicate AddsAnEdge(sorted: seq<nat>, edges: seq<nat>, edge: nat)
    requires sorted != []
  {
    edge > sorted[0] && (edges == [] || edges[|edges| - 1] != edge)
  }

  lemma EdgeAdded(sorted: seq<nat>, edges: seq<nat>, i: nat, n: nat)
    requires Sorted(sorted) && sorted != [] && 1 <= i < n && EdgesBefore(sorted, edges, i, n)
    requires AddsAnEdge(sorted, edges, QuantileOf(sorted, i, n))
    ensures EdgesBefore(sorted, edges + [QuantileOf(sorted, i, n)], i + 1, n)
  {
    QuantilesGrow(sorted, i - 1, i, n);
    AppendedEdgeIsGood(sorted, edges, QuantileOf(sorted, i, n));
    QuantileIsAppended(sorted, edges, i, n);
  }

  lemma EdgeSkipped(sorted: seq<nat>, edges: seq<nat>, i: nat, n: nat)
    requires Sorted(sorted) && sorted != [] && 1 <= i < n && EdgesBefore(sorted, edges, i, n)
    requires !AddsAnEdge(sorted, edges, QuantileOf(sorted, i, n))
    ensures EdgesBefore(sorted, edges, i + 1, n)
  {
    QuantilesGrow(sorted, i - 1, i, n);
    QuantileIsThere(sorted, edges, i, n);
  }

  method QuantileEdges(sorted: seq<nat>, n: nat) returns (edges: seq<nat>)
    requires Sorted(sorted) && sorted != [] && n >= 2
    ensures GoodEdges(sorted, edges) && |edges| < n && AtQuantiles(sorted, edges, n)
  {
    edges := [];
    for i := 1 to n
      invariant EdgesBefore(sorted, edges, i, n)
    {
      var edge := QuantileOf(sorted, i, n);
      if edge > sorted[0] && (edges == [] || edges[|edges| - 1] != edge) {
        EdgeAdded(sorted, edges, i, n);
        edges := edges + [edge];
      } else {
        EdgeSkipped(sorted, edges, i, n);
      }
    }
  }

  /** Windows at roughly equal-count quantiles, or no partition when nothing splits. */
  method Quantiles(values: seq<nat>, n: nat) returns (p: Partition)
    ensures PartitionOk(p)
    ensures p.Ranges? ==> p.edges != [] && n >= 2 && |p.edges| < n && Sort(values) != [] && GoodEdges(Sort(values), p.edges)
    ensures p.Ranges? ==> AtQuantiles(Sort(values), p.edges, n)
    ensures p.Ranges? ==> forall i | 0 <= i <= |p.edges| :: Observed(values, WindowAt(p.edges, i))
    ensures n < 2 || |values| < n ==> p == Distinct
    ensures n >= 2 && |values| >= n && p == Distinct ==> Sort(values) != [] && AtQuantiles(Sort(values), [], n)
  {
    if n < 2 || |values| < n {
      return Distinct;
    }
    var sorted := Sort(values);
    SortSorts(values);
    var edges := QuantileEdges(sorted, n);
    if edges == [] {
      return Distinct;
    }
    EveryWindowIsObserved(values, sorted, edges);
    return Ranges(edges);
  }

  lemma EveryWindowIsObserved(values: seq<nat>, sorted: seq<nat>, edges: seq<nat>)
    requires multiset(sorted) == multiset(values) && sorted != [] && GoodEdges(sorted, edges) && edges != []
    ensures forall i | 0 <= i <= |edges| :: Observed(values, WindowAt(edges, i))
  {
    forall x | x in sorted
      ensures x in values
    {
      assert x in multiset(sorted);
    }
    forall i | 0 <= i <= |edges|
      ensures Observed(values, WindowAt(edges, i))
    {
      if i == 0 {
        assert edges[0] in edges;
        assert In(WindowAt(edges, 0), sorted[0]);
      } else {
        assert edges[i - 1] in edges;
        assert In(WindowAt(edges, i), edges[i - 1]);
      }
    }
  }

  // ---- keys and predicates --------------------------------------------------

  /** What a token carries in one field. An empty label list is the same as none. */
  datatype Carried = Absent | Number(n: nat) | Labels(labels: seq<string>) | Text(text: string) | Flag(flag: bool)

  datatype KeyPart = Missing | InWindow(w: Window) | ExactLabels(labels: seq<string>) | ExactText(text: string) | ExactFlag(flag: bool)

  datatype Predicate = Range(w: Window) | Sequence(labels: seq<string>)

  type Field = nat

  type Token = Field -> Carried

  function PartOf(c: Carried, p: Partition): KeyPart {
    match c
    case Absent => Missing
    case Number(n) => InWindow(WindowFor(p, n))
    case Labels(labels) => if labels == [] then Missing else ExactLabels(labels)
    case Text(text) => ExactText(text)
    case Flag(flag) => ExactFlag(flag)
  }

  function GroupKey(t: Token, plan: seq<(Field, Partition)>): (key: seq<KeyPart>)
    ensures |key| == |plan| && forall i | 0 <= i < |plan| :: key[i] == PartOf(t(plan[i].0), plan[i].1)
  {
    seq(|plan|, i requires 0 <= i < |plan| => PartOf(t(plan[i].0), plan[i].1))
  }

  function ToPredicate(part: KeyPart): Option<Predicate> {
    match part
    case InWindow(w) => Some(Range(w))
    case ExactLabels(labels) => Some(Sequence(labels))
    case _ => None
  }

  predicate Matches(p: Predicate, c: Carried) {
    match p
    case Range(w) => c.Number? && In(w, c.n)
    case Sequence(labels) => c.Labels? && c.labels == labels
  }

  /** The token matches every predicate the key carries. */
  predicate Satisfies(t: Token, plan: seq<(Field, Partition)>, key: seq<KeyPart>)
    requires |key| == |plan|
  {
    forall i | 0 <= i < |plan| && ToPredicate(key[i]).Some? :: Matches(ToPredicate(key[i]).value, t(plan[i].0))
  }

  lemma PartDecides(p: Partition, c: Carried, other: Carried)
    requires PartitionOk(p) && ToPredicate(PartOf(other, p)).Some?
    ensures Matches(ToPredicate(PartOf(other, p)).value, c) <==> PartOf(c, p) == PartOf(other, p)
  {
    if c.Number? && other.Number? {
      WindowsTile(p, other.n, c.n);
    }
  }

  /** Matching another token's key predicates is agreeing with its key on every field that
      carries one. */
  lemma KeyPredicatesSelectTheGroup(t: Token, other: Token, plan: seq<(Field, Partition)>)
    requires forall i | 0 <= i < |plan| :: PartitionOk(plan[i].1)
    ensures Satisfies(t, plan, GroupKey(other, plan))
            <==> forall i | 0 <= i < |plan| && ToPredicate(GroupKey(other, plan)[i]).Some? :: GroupKey(t, plan)[i] == GroupKey(other, plan)[i]
  {
    forall i | 0 <= i < |plan| && ToPredicate(GroupKey(other, plan)[i]).Some?
      ensures Matches(ToPredicate(GroupKey(other, plan)[i]).value, t(plan[i].0)) <==> GroupKey(t, plan)[i] == GroupKey(other, plan)[i]
    {
      PartDecides(plan[i].1, t(plan[i].0), other(plan[i].0));
    }
  }

  predicate Empty(c: Carried) {
    c.Absent? || c == Labels([])
  }

  /** Two values no group tells apart: numbers of one window, nothing and nothing, or the same
      labels, text or flag. */
  predicate Alike(p: Partition, a: Carried, b: Carried) {
    || (a.Number? && b.Number? && In(WindowFor(p, a.n), b.n))
    || (Empty(a) && Empty(b))
    || (!a.Number? && a == b)
  }

  lemma SamePartIff(p: Partition, a: Carried, b: Carried)
    requires PartitionOk(p)
    ensures PartOf(a, p) == PartOf(b, p) <==> Alike(p, a, b)
    ensures ToPredicate(PartOf(a, p)).Some? <==> a.Number? || (a.Labels? && a.labels != [])
  {
    if a.Number? && b.Number? {
      WindowsTile(p, a.n, b.n);
    }
  }

  /** Two tokens are of one group exactly when no planned field tells them apart. */
  lemma SameGroupIff(t: Token, u: Token, plan: seq<(Field, Partition)>)
    requires forall i | 0 <= i < |plan| :: PartitionOk(plan[i].1)
    ensures GroupKey(t, plan) == GroupKey(u, plan) <==> forall i | 0 <= i < |plan| :: Alike(plan[i].1, t(plan[i].0), u(plan[i].0))
  {
    forall i | 0 <= i < |plan|
      ensures GroupKey(t, plan)[i] == GroupKey(u, plan)[i] <==> Alike(plan[i].1, t(plan[i].0), u(plan[i].0))
    {
      SamePartIff(plan[i].1, t(plan[i].0), u(plan[i].0));
    }
  }

  /** Every field of the key carries a predicate: nothing missing, no text, no flag. */
  predicate AllPredicates(key: seq<KeyPart>) {
    forall part | part in key :: ToPredicate(part).Some?
  }

  ghost predicate SelectsItsGroup(other: Token, plan: seq<(Field, Partition)>) {
    forall t: Token :: Satisfies(t, plan, GroupKey(other, plan)) <==> GroupKey(t, plan) == GroupKey(other, plan)
  }

  /** A token that answers any of the fields with something else where no predicate looks. */
  function Elsewhere(other: Token, f: Field): Token {
    (g: Field) => if g == f then (if other(g).Text? then Text(other(g).text + ['!']) else if other(g).Flag? then Flag(!other(g).flag) else Text("")) else other(g)
  }

  /** A token whose every planned field is a number or some labels. */
  predicate AllSelectable(t: Token, plan: seq<(Field, Partition)>) {
    forall i | 0 <= i < |plan| :: var c := t(plan[i].0); c.Number? || (c.Labels? && c.labels != [])
  }

  lemma SelectableIffPredicates(t: Token, plan: seq<(Field, Partition)>)
    requires forall i | 0 <= i < |plan| :: PartitionOk(plan[i].1)
    ensures AllSelectable(t, plan) <==> AllPredicates(GroupKey(t, plan))
  {
    var key := GroupKey(t, plan);
    forall i | 0 <= i < |plan|
      ensures key[i] in key
      ensures ToPredicate(key[i]).Some? <==> var c := t(plan[i].0); c.Number? || (c.Labels? && c.labels != [])
    {
      SamePartIff(plan[i].1, t(plan[i].0), t(plan[i].0));
    }
    if AllPredicates(key) {
      assert forall i | 0 <= i < |plan| :: ToPredicate(key[i]).Some?;
    }
  }

  /** The predicates of a key select exactly its group when the token has a number or some
      labels in every one of its fields, and only then: a missing, text or flag field is not
      looked at. */
  lemma PredicatesSelectTheGroupIff(other: Token, plan: seq<(Field, Partition)>)
    requires forall i | 0 <= i < |plan| :: PartitionOk(plan[i].1)
    ensures SelectsItsGroup(other, plan) <==> AllSelectable(other, plan)
  {
    SelectableIffPredicates(other, plan);
    var key := GroupKey(other, plan);
    if AllPredicates(key) {
      forall t: Token
        ensures Satisfies(t, plan, key) <==> GroupKey(t, plan) == key
      {
        KeyPredicatesSelectTheGroup(t, other, plan);
        assert forall i | 0 <= i < |plan| :: key[i] in key;
      }
    } else {
      var k :| 0 <= k < |key| && ToPredicate(key[k]).None?;
      var t := Elsewhere(other, plan[k].0);
      forall i | 0 <= i < |plan| && ToPredicate(key[i]).Some?
        ensures GroupKey(t, plan)[i] == key[i]
      {
      }
      KeyPredicatesSelectTheGroup(t, other, plan);
    }
  }
}
