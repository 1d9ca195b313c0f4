/** The read-only mirror of the held side: every line with its place, and the proof that the
    list decides what the engine decides. */
module Readout {
  import opened Metrics
  import opened Rules

  /** Where in the rule a line sits. */
  datatype Part = AlwaysPart(line: nat) | StagePart(stage: nat, atEnd: bool, line: nat)

  datatype LineRead = LineRead(part: Part, holds: bool, sells: Option<ExitReason>, sellBps: Option<nat>, ofBag: bool, goesTo: Option<nat>)

  /** A list of lines as it sits in the rule. */
  datatype Place = InAlways | InStage(stage: nat, atEnd: bool)

  function PartOf(place: Place, line: nat): Part {
    match place
    case InAlways => AlwaysPart(line)
    case InStage(stage, atEnd) => StagePart(stage, atEnd, line)
  }

  function Placed(place: Place, ls: seq<Line>): (out: seq<(Part, Line)>)
    ensures |out| == |ls| && forall i | 0 <= i < |ls| :: out[i] == (PartOf(place, i), ls[i])
  {
    seq(|ls|, i requires 0 <= i < |ls| => (PartOf(place, i), ls[i]))
  }

  function StageParts(stages: seq<StagePlan>, n: nat): seq<(Part, Line)>
    requires n <= |stages|
  {
    if n == 0 then []
    else StageParts(stages, n - 1) + Placed(InStage(n - 1, false), stages[n - 1].on) + Placed(InStage(n - 1, true), stages[n - 1].atEnd)
  }

  function LinesOf(rule: Rule): seq<(Part, Line)> {
    Placed(InAlways, rule.always) + StageParts(rule.stages, |rule.stages|)
  }

  /** One list of lines, each pushed with its part. */
  method PushLines(before: seq<(Part, Line)>, place: Place, ls: seq<Line>) returns (out: seq<(Part, Line)>)
    ensures out == before + Placed(place, ls)
  {
    out := before;
    for i := 0 to |ls|
      invariant out == before + Placed(place, ls)[..i]
    {
      out := out + [(PartOf(place, i), ls[i])];
    }
  }

  /** Every line with its part. */
  method ListLines(rule: Rule) returns (out: seq<(Part, Line)>)
    ensures out == LinesOf(rule)
  {
    out := PushLines([], InAlways, rule.always);
    for si := 0 to |rule.stages|
      invariant out == Placed(InAlways, rule.always) + StageParts(rule.stages, si)
    {
      var s := rule.stages[si];
      ghost var done := StageParts(rule.stages, si);
      out := PushLines(out, InStage(si, false), s.on);
      out := PushLines(out, InStage(si, true), s.atEnd);
      assert out == Placed(InAlways, rule.always) + (done + Placed(InStage(si, false), s.on) + Placed(InStage(si, true), s.atEnd));
    }
  }

  predicate PartsOk(rule: Rule, parts: seq<(Part, Line)>) {
    forall p | p in parts :: CondsOk(rule, p.1.conds)
  }

  function ReadLine(rule: Rule, p: (Part, Line), coin: Reads, pos: Option<PositionCtx>, now: Ts): LineRead
    requires CondsOk(rule, p.1.conds)
  {
    var l := p.1;
    LineRead(p.0,
             LineHolds(rule, l, coin, pos, now),
             if l.sell.Some? then Some(l.sell.value.reason) else None,
             if l.sell.Some? then l.sell.value.bps else None,
             l.sell.Some? && l.sell.value.ofBag,
             l.go)
  }

  function ReadLines(rule: Rule, parts: seq<(Part, Line)>, coin: Reads, pos: Option<PositionCtx>,
                     now: Ts): seq<LineRead>
    requires PartsOk(rule, parts)
  {
    if parts == [] then []
    else [ReadLine(rule, parts[0], coin, pos, now)] + ReadLines(rule, parts[1..], coin, pos, now)
  }

  lemma LinesOfAreOk(rule: Rule, n: nat)
    requires Wf(rule) && n <= |rule.stages|
    ensures PartsOk(rule, StageParts(rule.stages, n))
    ensures PartsOk(rule, Placed(InAlways, rule.always))
  {
  }

  function ReadRule(rule: Rule, coin: Reads, pos: Option<PositionCtx>, now: Ts): seq<LineRead>
    requires Wf(rule)
  {
    LinesOfAreOk(rule, |rule.stages|);
    ReadLines(rule, LinesOf(rule), coin, pos, now)
  }

  // ---- deciding from the list alone -----------------------------------------

  predicate IdleRead(r: LineRead, stage: nat) {
    r.goesTo == Some(stage) && !(r.sells.Some? && r.sellBps.None? && !r.ofBag)
  }

  /** Whether a reader would consider the line: `always`, or the list of the current stage
      that its deadline selects. */
  predicate InPlay(part: Part, stage: nat, deadline: bool) {
    match part
    case AlwaysPart(_) => true
    case StagePart(s, atEnd, _) => s == stage && atEnd == deadline
  }

  predicate Picks(r: LineRead, stage: nat, deadline: bool) {
    InPlay(r.part, stage, deadline) && r.holds && !IdleRead(r, stage)
  }

  /** The first line of the list that is in play, holds, and is not idle. */
  function Pick(list: seq<LineRead>, stage: nat, deadline: bool): Option<Part> {
    if list == [] then None
    else if Picks(list[0], stage, deadline) then Some(list[0].part)
    else Pick(list[1..], stage, deadline)
  }

  function LineAt(rule: Rule, part: Part): Option<Line> {
    match part
    case AlwaysPart(i) => if i < |rule.always| then Some(rule.always[i]) else None
    case StagePart(s, atEnd, i) =>
      if s >= |rule.stages| then None
      else
        var ls := if atEnd then rule.stages[s].atEnd else rule.stages[s].on;
        if i < |ls| then Some(ls[i]) else None
  }

  lemma ReadLinesStep(rule: Rule, p: (Part, Line), rest: seq<(Part, Line)>, coin: Reads, pos: Option<PositionCtx>,
                      now: Ts)
    requires CondsOk(rule, p.1.conds) && PartsOk(rule, rest)
    ensures PartsOk(rule, [p] + rest)
    ensures ReadLines(rule, [p] + rest, coin, pos, now) == [ReadLine(rule, p, coin, pos, now)] + ReadLines(rule, rest, coin, pos, now)
  {
    assert ([p] + rest)[1..] == rest;
  }

  lemma {:induction false} ReadLinesSplit(rule: Rule, a: seq<(Part, Line)>, b: seq<(Part, Line)>, coin: Reads,
                                          pos: Option<PositionCtx>, now: Ts)
    requires PartsOk(rule, a) && PartsOk(rule, b)
    ensures PartsOk(rule, a + b)
    ensures ReadLines(rule, a + b, coin, pos, now) == ReadLines(rule, a, coin, pos, now) + ReadLines(rule, b, coin, pos, now)
  {
    if a == [] {
      assert a + b == b;
    } else {
      var rest := a[1..];
      ReadLinesSplit(rule, rest, b, coin, pos, now);
      ReadLinesStep(rule, a[0], rest + b, coin, pos, now);
      ReadLinesStep(rule, a[0], rest, coin, pos, now);
      assert a + b == [a[0]] + (rest + b) && a == [a[0]] + rest;
      Reassociate([ReadLine(rule, a[0], coin, pos, now)], ReadLines(rule, rest, coin, pos, now), ReadLines(rule, b, coin, pos, now));
    }
  }

  lemma {:induction false} PickSplit(a: seq<LineRead>, b: seq<LineRead>, stage: nat, deadline: bool)
    ensures Pick(a + b, stage, deadline) == if Pick(a, stage, deadline).Some? then Pick(a, stage, deadline) else Pick(b, stage, deadline)
  {
    if a == [] {
      assert a + b == b;
    } else {
      PickSplit(a[1..], b, stage, deadline);
      assert (a + b)[1..] == a[1..] + b;
    }
  }

  /** A reader picks a line in play exactly when it acts. */
  lemma ReadLinePicks(rule: Rule, place: Place, i: nat, l: Line, coin: Reads, pos: PositionCtx, stage: nat,
                      deadline: bool, now: Ts)
    requires CondsOk(rule, l.conds)
    ensures Picks(ReadLine(rule, (PartOf(place, i), l), coin, Some(pos), now), stage, deadline)
            <==> InPlay(PartOf(place, 0), stage, deadline) && Acts(rule, l, coin, pos, stage, now, None)
  {
  }

  /** The part picked is that of the line, among the lines of one place. */
  predicate PartOfLine(picked: Option<Part>, line: Option<Line>, place: Place, ls: seq<Line>) {
    match line
    case None => picked == None
    case Some(l) => exists i | 0 <= i < |ls| :: picked == Some(PartOf(place, i)) && ls[i] == l
  }

  /** What a reader picks from a run of lines of one place, starting at line `from`. */
  lemma {:induction false} PickFromPlace(rule: Rule, place: Place, ls: seq<Line>, from: nat, coin: Reads,
                                         pos: PositionCtx, stage: nat, deadline: bool, now: Ts)
    requires LinesOk(rule, ls) && from <= |ls|
    ensures PartsOk(rule, Placed(place, ls)[from..])
    ensures var first := FirstActing(rule, ls[from..], coin, pos, stage, now, None);
            PartOfLine(Pick(ReadLines(rule, Placed(place, ls)[from..], coin, Some(pos), now), stage, deadline),
                       if InPlay(PartOf(place, 0), stage, deadline) then first else None, place, ls)
    decreases |ls| - from
  {
    var parts := Placed(place, ls)[from..];
    if from < |ls| {
      PickFromPlace(rule, place, ls, from + 1, coin, pos, stage, deadline, now);
      assert parts[0] == (PartOf(place, from), ls[from]);
      assert parts[1..] == Placed(place, ls)[from + 1..];
      assert ls[from..][0] == ls[from] && ls[from..][1..] == ls[from + 1..];
      ReadLinePicks(rule, place, from, ls[from], coin, pos, stage, deadline, now);
      PickHead(rule, parts, coin, pos, stage, deadline, now);
    }
  }

  lemma PickHead(rule: Rule, parts: seq<(Part, Line)>, coin: Reads, pos: PositionCtx, stage: nat, deadline: bool,
                 now: Ts)
    requires PartsOk(rule, parts) && parts != []
    ensures PartsOk(rule, parts[1..])
    ensures Pick(ReadLines(rule, parts, coin, Some(pos), now), stage, deadline)
            == if Picks(ReadLine(rule, parts[0], coin, Some(pos), now), stage, deadline) then Some(parts[0].0)
               else Pick(ReadLines(rule, parts[1..], coin, Some(pos), now), stage, deadline)
  {
  }

  /** All lines of one place. */
  lemma PickFromWholePlace(rule: Rule, place: Place, ls: seq<Line>, coin: Reads, pos: PositionCtx, stage: nat,
                           deadline: bool, now: Ts)
    requires LinesOk(rule, ls)
    ensures PartsOk(rule, Placed(place, ls))
    ensures var first := FirstActing(rule, ls, coin, pos, stage, now, None);
            PartOfLine(Pick(ReadLines(rule, Placed(place, ls), coin, Some(pos), now), stage, deadline),
                       if InPlay(PartOf(place, 0), stage, deadline) then first else None, place, ls)
  {
    PickFromPlace(rule, place, ls, 0, coin, pos, stage, deadline, now);
    assert Placed(place, ls)[0..] == Placed(place, ls) && ls[0..] == ls;
  }

  function StagePick(rule: Rule, n: nat, coin: Reads, pos: PositionCtx, stage: nat, deadline: bool,
                     now: Ts): Option<Part>
    requires Wf(rule) && n <= |rule.stages|
  {
    LinesOfAreOk(rule, n);
    Pick(ReadLines(rule, StageParts(rule.stages, n), coin, Some(pos), now), stage, deadline)
  }

  lemma StagePickStep(rule: Rule, n: nat, coin: Reads, pos: PositionCtx, stage: nat, deadline: bool, now: Ts)
    requires Wf(rule) && 0 < n <= |rule.stages|
    ensures var s := rule.stages[n - 1];
            var on := Placed(InStage(n - 1, false), s.on);
            var atEnd := Placed(InStage(n - 1, true), s.atEnd);
            && PartsOk(rule, on) && PartsOk(rule, atEnd)
            && var before := StagePick(rule, n - 1, coin, pos, stage, deadline, now);
               var fromOn := Pick(ReadLines(rule, on, coin, Some(pos), now), stage, deadline);
               StagePick(rule, n, coin, pos, stage, deadline, now)
               == if before.Some? then before else if fromOn.Some? then fromOn
                  else Pick(ReadLines(rule, atEnd, coin, Some(pos), now), stage, deadline)
  {
    var s := rule.stages[n - 1];
    assert s in rule.stages;
    var before := StageParts(rule.stages, n - 1);
    var on := Placed(InStage(n - 1, false), s.on);
    var atEnd := Placed(InStage(n - 1, true), s.atEnd);
    LinesOfAreOk(rule, n - 1);
    ReadLinesSplit(rule, before, on, coin, Some(pos), now);
    ReadLinesSplit(rule, before + on, atEnd, coin, Some(pos), now);
    var x, y, z := ReadLines(rule, before, coin, Some(pos), now), ReadLines(rule, on, coin, Some(pos), now), ReadLines(rule, atEnd, coin, Some(pos), now);
    PickSplit(x, y, stage, deadline);
    PickSplit(x + y, z, stage, deadline);
  }

  function SelectedLines(s: StagePlan, deadline: bool): seq<Line> {
    if deadline then s.atEnd else s.on
  }

  /** The stage lines of the list yield a pick only from the current stage's selected list. */
  lemma {:induction false} PickFromStages(rule: Rule, n: nat, coin: Reads, pos: PositionCtx, stage: nat,
                                          deadline: bool, now: Ts)
    requires Wf(rule) && n <= |rule.stages|
    ensures stage >= n ==> StagePick(rule, n, coin, pos, stage, deadline, now) == None
    ensures stage < n ==>
              var ls := SelectedLines(rule.stages[stage], deadline);
              && LinesOk(rule, ls)
              && PartOfLine(StagePick(rule, n, coin, pos, stage, deadline, now),
                            FirstActing(rule, ls, coin, pos, stage, now, None), InStage(stage, deadline), ls)
  {
    if n > 0 {
      PickFromStages(rule, n - 1, coin, pos, stage, deadline, now);
      StagePickStep(rule, n, coin, pos, stage, deadline, now);
      var s := rule.stages[n - 1];
      assert s in rule.stages;
      PickFromWholePlace(rule, InStage(n - 1, false), s.on, coin, pos, stage, deadline, now);
      PickFromWholePlace(rule, InStage(n - 1, true), s.atEnd, coin, pos, stage, deadline, now);
    }
  }

  /** The part picked leads back to the line. */
  lemma PickedPartIsTheLine(rule: Rule, place: Place, picked: Option<Part>, line: Option<Line>)
    requires place.InStage? ==> place.stage < |rule.stages|
    requires PartOfLine(picked, line, place, if place.InAlways? then rule.always else SelectedLines(rule.stages[place.stage], place.atEnd))
    ensures picked.Some? <==> line.Some?
    ensures picked.Some? ==> LineAt(rule, picked.value) == line
  {
  }

  lemma ReadoutPicks(rule: Rule, coin: Reads, pos: PositionCtx, stage: nat, deadline: bool, now: Ts)
    requires Wf(rule)
    ensures PartsOk(rule, Placed(InAlways, rule.always))
    ensures var always := Pick(ReadLines(rule, Placed(InAlways, rule.always), coin, Some(pos), now), stage, deadline);
            Pick(ReadRule(rule, coin, Some(pos), now), stage, deadline)
            == if always.Some? then always else StagePick(rule, |rule.stages|, coin, pos, stage, deadline, now)
  {
    var always := Placed(InAlways, rule.always);
    LinesOfAreOk(rule, |rule.stages|);
    ReadLinesSplit(rule, always, StageParts(rule.stages, |rule.stages|), coin, Some(pos), now);
    PickSplit(ReadLines(rule, always, coin, Some(pos), now),
              ReadLines(rule, StageParts(rule.stages, |rule.stages|), coin, Some(pos), now), stage, deadline);
  }

  /** The readout determines the decision: for a rule without a tree, the line `HeldLine`
      picks is the one at the part a reader picks from the list, knowing only the stage and
      whether its deadline has passed; with no pick the deadline's move is all that is left. */
  lemma ReadoutDeterminesTheHeldLine(rule: Rule, coin: Reads, pos: PositionCtx, stage: nat, now: Ts)
    requires Wf(rule) && rule.tree.None?
    ensures var deadline := stage < |rule.stages| && DeadlineReached(rule.stages[stage], coin, pos, now);
            match Pick(ReadRule(rule, coin, Some(pos), now), stage, deadline)
            case Some(part) => LineAt(rule, part).Some? && HeldLine(rule, coin, pos, stage, now) == ActLine(LineAt(rule, part).value)
            case None =>
              HeldLine(rule, coin, pos, stage, now)
              == if deadline && rule.stages[stage].next.Some? then MoveOn(rule.stages[stage].next.value) else NoStep
  {
    var deadline := stage < |rule.stages| && DeadlineReached(rule.stages[stage], coin, pos, now);
    ReadoutPicks(rule, coin, pos, stage, deadline, now);
    PickFromWholePlace(rule, InAlways, rule.always, coin, pos, stage, deadline, now);
    var always := Pick(ReadLines(rule, Placed(InAlways, rule.always), coin, Some(pos), now), stage, deadline);
    PickedPartIsTheLine(rule, InAlways, always, FirstActing(rule, rule.always, coin, pos, stage, now, None));
    PickFromStages(rule, |rule.stages|, coin, pos, stage, deadline, now);
    if stage < |rule.stages| {
      PickedPartIsTheLine(rule, InStage(stage, deadline), StagePick(rule, |rule.stages|, coin, pos, stage, deadline, now),
                          FirstActing(rule, SelectedLines(rule.stages[stage], deadline), coin, pos, stage, now, None));
    }
  }
}
