/** More of what compiling guarantees: the shape every decision relies on, line numbers that
    are positions, and an entry side that does not depend on the held side. */
module CompiledRules {
  import opened Metrics
  import opened Rules
  import opened RuleReqs
  import opened MonoKills
  import opened ClockHorizons
  import opened Compile
  import opened Interning

  // ---- line numbers ---------------------------------------------------------

  /** Line `i` carries the number `first + i`. */
  predicate Numbered(ls: seq<Line>, first: nat) {
    forall i | 0 <= i < |ls| :: ls[i].index == first + i
  }

  lemma NumberedJoins(a: seq<Line>, b: seq<Line>, first: nat, second: nat)
    requires Numbered(a, first) && Numbered(b, second) && second == first + |a|
    ensures Numbered(a + b, first)
  {
  }

  lemma LinesAreNumbered(env: Env, cols: seq<SeriesColumn>, first: nat, ls: seq<AuthoredLine>)
    ensures Numbered(LinesAt(env, cols, first, ls), first) && |LinesAt(env, cols, first, ls)| == |LiveLines(ls)|
  {
  }

  lemma StageIsNumbered(env: Env, cols: seq<SeriesColumn>, first: nat, n: nat, s: Stage)
    ensures var own := StageOwn(StageAt(env, cols, first, n, s));
            Numbered(own, first) && |own| == CountIn(s)
  {
    LinesAreNumbered(env, cols, first, s.on);
    LinesAreNumbered(env, cols, LineStart(first, s.on), s.atEnd);
  }

  lemma {:induction false} StagesAreNumbered(env: Env, cols: seq<SeriesColumn>, first: nat, stages: seq<Stage>)
    ensures var ls := StageLines(StagesAt(env, cols, first, stages));
            Numbered(ls, first) && |ls| == CountInStages(stages)
  {
    if stages != [] {
      var n := |stages| - 1;
      var start := StageStart(first, stages[..n]);
      var before := StagesAt(env, cols, first, stages[..n]);
      var plan := StageAt(env, cols, start, n, stages[n]);
      StagesAreNumbered(env, cols, first, stages[..n]);
      StageLinesSplit(before, [plan]);
      assert [plan][1..] == [];
      assert StageLines([plan]) == StageOwn(plan);
      StageIsNumbered(env, cols, start, n, stages[n]);
    }
  }

  lemma {:induction false} EntriesAreNumbered(env: Env, cols: seq<SeriesColumn>, first: nat, cells: seq<Cell>)
    ensures Numbered(Flatten(EntriesAt(env, cols, first, cells)), first)
    ensures |Flatten(EntriesAt(env, cols, first, cells))| == CountInCells(cells)
  {
    if cells != [] {
      var n := |cells| - 1;
      var start := CellStart(first, cells[..n]);
      var before := EntriesAt(env, cols, first, cells[..n]);
      var lines := LinesAt(env, cols, start, cells[n].on);
      EntriesAreNumbered(env, cols, first, cells[..n]);
      FlattenSplits(before, [lines]);
      FlattenOne(lines);
      LinesAreNumbered(env, cols, start, cells[n].on);
      NumberedJoins(Flatten(before), lines, first, start);
    }
  }

  /** The i-th held line has number i, across shortcuts, `always`, every stage's two lists
      and every cell entry. */
  lemma HeldLinesAreNumbered(env: Env, p: Params)
    ensures Numbered(HeldLines(Compiled(env, p)), 0)
  {
    var cols := FinalColumns(env, p);
    var shortcuts := Shortcuts(env, p);
    var always, plans, tree := AlwaysAt(env, cols, p), PlansAt(env, cols, p), MaybeTreeAt(env, cols, p);
    LinesAreNumbered(env, cols, |shortcuts|, p.always);
    NumberedJoins(shortcuts, LinesAt(env, cols, |shortcuts|, p.always), 0, |shortcuts|);
    if p.stages == [] {
      StageLinesOfMain();
    } else {
      StagesAreNumbered(env, cols, FirstStageLine(env, p), p.stages);
    }
    NumberedJoins(always, StageLines(plans), 0, FirstStageLine(env, p));
    if p.tree.Some? {
      EntriesAreNumbered(env, cols, FirstCellLine(env, p), p.tree.value.cells);
    }
    NumberedJoins(always + StageLines(plans), TreeLines(tree), 0, FirstCellLine(env, p));
  }

  // ---- the entry side alone -------------------------------------------------

  lemma {:induction false} ReqsOfSplits(a: seq<CondReq>, b: seq<CondReq>)
    ensures ReqsOf(a + b) == ReqsOf(a) + ReqsOf(b)
  {
    if a == [] {
      assert a + b == b;
    } else {
      ReqsOfSplits(a[1..], b);
      assert (a + b)[1..] == a[1..] + b;
      var own := if a[0].OnMetric? then [a[0].m] else [];
      var x, y := ReqsOf(a[1..]), ReqsOf(b);
      assert ReqsOf(a + b) == own + (x + y);
      assert own + (x + y) == (own + x) + y;
    }
  }

  lemma LastReq(env: Env, cols: seq<SeriesColumn>, cs: seq<Cond>, n: nat)
    requires |cs| == n + 1
    ensures ReqsOf(CondsAt(env, cols, cs))
            == ReqsOf(CondsAt(env, cols, cs[..n]))
               + if cs[n].MetricCond? && !cs[n].off then [ReqAt(env, cols, cs[n].r, cs[n].expr)] else []
  {
    if !cs[n].off {
      var one := CondAt(env, cols, cs[n]);
      ReqsOfSplits(CondsAt(env, cols, cs[..n]), [one]);
    } else {
      assert CondsAt(env, cols, cs) == CondsAt(env, cols, cs[..n]);
    }
  }

  /** Columns that extend a list holding every read of the conditions give the same reads. */
  lemma {:induction false} SharedColumnsShareReads(a: Env, b: Env, shared: seq<SeriesColumn>, x: seq<SeriesColumn>,
                                                   y: seq<SeriesColumn>, cs: seq<Cond>)
    requires a.fp == b.fp && shared <= x && shared <= y
    requires forall c | c in cs && !c.off && c.MetricCond? && !IsPosition(c.r) :: ColumnOf(a.fp, c.r) in shared
    ensures ReqsOf(CondsAt(a, x, cs)) == ReqsOf(CondsAt(b, y, cs))
  {
    if cs != [] {
      var n := |cs| - 1;
      SharedColumnsShareReads(a, b, shared, x, y, cs[..n]);
      LastReq(a, x, cs, n);
      LastReq(b, y, cs, n);
      var c := cs[n];
      assert c in cs;
      if c.MetricCond? && !c.off && !IsPosition(c.r) {
        FirstIndexIsStable(shared, x, ColumnOf(a.fp, c.r));
        FirstIndexIsStable(shared, y, ColumnOf(a.fp, c.r));
      }
    }
  }

  lemma EntryColumnsComeFirst(env: Env, p: Params)
    ensures InternLists([], env.fp, EntryLists(p.enter)) <= FinalColumns(env, p)
  {
    var entry, all := EntryLists(p.enter), ListsOf(p);
    assert entry <= all;
    InternListsSplits([], env.fp, entry, all[|entry|..]);
    assert entry + all[|entry|..] == all;
  }

  lemma EntryReadsAreShared(env: Env, e: EnterDef, cs: seq<Cond>, c: Cond)
    requires cs in EntryLists(e) && c in cs && !c.off && c.MetricCond? && !IsPosition(c.r)
    ensures ColumnOf(env.fp, c.r) in InternLists([], env.fp, EntryLists(e))
  {
    InternListsCollects([], env.fp, EntryLists(e));
    RefsAre(cs, c.r);
    assert ReadBy(env.fp, EntryLists(e), ColumnOf(env.fp, c.r));
  }

  lemma SameListSameReads(a: Env, p: Params, b: Env, q: Params, cs: seq<Cond>)
    requires a.fp == b.fp && EntryLists(p.enter) == EntryLists(q.enter) && cs in EntryLists(p.enter)
    ensures ReqsOf(CondsAt(a, FinalColumns(a, p), cs)) == ReqsOf(CondsAt(b, FinalColumns(b, q), cs))
  {
    var shared := InternLists([], a.fp, EntryLists(p.enter));
    EntryColumnsComeFirst(a, p);
    EntryColumnsComeFirst(b, q);
    forall c | c in cs && !c.off && c.MetricCond? && !IsPosition(c.r)
      ensures ColumnOf(a.fp, c.r) in shared
    {
      EntryReadsAreShared(a, p.enter, cs, c);
    }
    SharedColumnsShareReads(a, b, shared, FinalColumns(a, p), FinalColumns(b, q), cs);
  }

  /** Two rules with one fingerprint and one entry block read their entry conditions through
      the same ids, and carry the same kills, whatever their held sides and signals are. */
  lemma SameEntrySameReads(a: Env, p: Params, b: Env, q: Params)
    requires a.fp == b.fp && EntryLists(p.enter) == EntryLists(q.enter)
    ensures ReqsOf(EntryConds(Compiled(a, p))) == ReqsOf(EntryConds(Compiled(b, q)))
    ensures Compiled(a, p).monoKills == Compiled(b, q).monoKills
  {
    var e, f := p.enter, q.enter;
    assert e.event == EntryLists(e)[0] == EntryLists(f)[0] == f.event;
    assert e.filters == EntryLists(e)[1] == EntryLists(f)[1] == f.filters;
    assert e.finalFilters == EntryLists(e)[2] == EntryLists(f)[2] == f.finalFilters;
    var x, y := FinalColumns(a, p), FinalColumns(b, q);
    SameListSameReads(a, p, b, q, e.event);
    SameListSameReads(a, p, b, q, e.filters);
    SameListSameReads(a, p, b, q, e.finalFilters);
    ReqsOfSplits(CondsAt(a, x, e.event), CondsAt(a, x, e.filters));
    ReqsOfSplits(CondsAt(b, y, e.event), CondsAt(b, y, e.filters));
    ReqsOfSplits(CondsAt(a, x, e.event) + CondsAt(a, x, e.filters), CondsAt(a, x, e.finalFilters));
    ReqsOfSplits(CondsAt(b, y, e.event) + CondsAt(b, y, e.filters), CondsAt(b, y, e.finalFilters));
    KillsReadTheReqs(EntryConds(Compiled(a, p)));
    KillsReadTheReqs(EntryConds(Compiled(b, q)));
  }

  function KillsOfReqs(ms: seq<MetricReq>): seq<MonoKill> {
    if ms == [] then []
    else
      var m := ms[|ms| - 1];
      KillsOfReqs(ms[..|ms| - 1]) + if Kills(OnMetric(m)) then [KillOf(m)] else []
  }

  lemma {:induction false} KillsReadTheReqs(cs: seq<CondReq>)
    ensures DeriveKills(cs) == KillsOfReqs(ReqsOf(cs))
  {
    if cs != [] {
      var n := |cs| - 1;
      KillsReadTheReqs(cs[..n]);
      assert cs == cs[..n] + [cs[n]];
      ReqsOfSplits(cs[..n], [cs[n]]);
      assert [cs[n]][1..] == [];
      if cs[n].OnMetric? {
        assert ReqsOf(cs) == ReqsOf(cs[..n]) + [cs[n].m];
        assert ReqsOf(cs)[..|ReqsOf(cs)| - 1] == ReqsOf(cs[..n]);
      } else {
        assert ReqsOf(cs) == ReqsOf(cs[..n]);
      }
    }
  }
}
