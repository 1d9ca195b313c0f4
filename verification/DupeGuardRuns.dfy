/** The guard against an unbounded log of every attempt it was told about. */
module DupeGuardRuns {
  import opened Metrics
  import opened DupeGuards

  /** One recorded attempt. */
  datatype Attempt = Attempt(mode: Mode, id: Identity, mint: string, at: Ts)

  /** Check an entry and, when it is not blocked, record it; record without a check, as a
      manual buy does; sweep; or change the policy. */
  datatype Op =
    | Checked(mode: Mode, identity: Option<Identity>, mint: string, at: Ts)
    | Unchecked(mode: Mode, identity: Option<Identity>, mint: string, at: Ts)
    | Sweep(at: Ts)
    | Policy(enabled: bool, hours: nat)

  /** The guard, and the log of everything it recorded. */
  datatype Ledger = Ledger(guard: Guard, log: seq<Attempt>)

  function Attempted(s: Ledger, mode: Mode, identity: Option<Identity>, mint: string, at: Ts): Ledger {
    Ledger(Recorded(s.guard, mode, identity, mint, at),
          if s.guard.enabled && identity.Some? then s.log + [Attempt(mode, identity.value, mint, at)] else s.log)
  }

  function Step(s: Ledger, op: Op): Ledger {
    match op
    case Checked(mode, identity, mint, at) => if Blocks(s.guard, mode, identity, mint, at) then s else Attempted(s, mode, identity, mint, at)
    case Unchecked(mode, identity, mint, at) => Attempted(s, mode, identity, mint, at)
    case Sweep(at) => s.(guard := Pruned(s.guard, at))
    case Policy(enabled, hours) => s.(guard := WithPolicy(s.guard, enabled, hours))
  }

  function Run(ops: seq<Op>): Ledger {
    if ops == [] then Ledger(FRESH, []) else Step(Run(ops[..|ops| - 1]), ops[|ops| - 1])
  }

  /** What an unbounded log answers. */
  predicate LogBlocks(g: Guard, log: seq<Attempt>, mode: Mode, identity: Option<Identity>, mint: string, now: Ts) {
    g.enabled && identity.Some?
    && exists a | a in log :: a.mode == mode && a.id == identity.value && a.mint != mint && a.at > Cutoff(g, now)
  }

  // ---- the memory never invents an attempt ----------------------------------

  predicate Logged(log: seq<Attempt>, mode: Mode, id: Identity, e: Seen) {
    Attempt(mode, id, e.mint, e.at) in log
  }

  ghost predicate Sound(s: Ledger) {
    forall mode, id, e | e in EntriesOf(s.guard, mode, id) :: Logged(s.log, mode, id, e)
  }

  lemma EntriesAfterRecord(g: Guard, mode: Mode, identity: Option<Identity>, mint: string, at: Ts, m: Mode,
                           id: Identity)
    ensures EntriesOf(Recorded(g, mode, identity, mint, at), m, id)
            == if g.enabled && identity == Some(id) && m == mode then Put(EntriesOf(g, mode, id), mint, at) else EntriesOf(g, m, id)
  {
  }

  lemma EntriesAfterPrune(g: Guard, now: Ts, m: Mode, id: Identity)
    ensures EntriesOf(Pruned(g, now), m, id)
            == if PruneDue(g, now) then KeepAfter(EntriesOf(g, m, id), Cutoff(g, now)) else EntriesOf(g, m, id)
  {
  }

  lemma AttemptKeepsSound(s: Ledger, mode: Mode, identity: Option<Identity>, mint: string, at: Ts)
    requires Sound(s)
    ensures Sound(Attempted(s, mode, identity, mint, at))
  {
    var after := Attempted(s, mode, identity, mint, at);
    forall m, id, e | e in EntriesOf(after.guard, m, id)
      ensures Logged(after.log, m, id, e)
    {
      if e in EntriesOf(s.guard, m, id) {
        assert Logged(s.log, m, id, e);
      }
    }
  }

  lemma StepKeepsSound(s: Ledger, op: Op)
    requires Sound(s)
    ensures Sound(Step(s, op))
  {
    var after := Step(s, op);
    match op {
      case Checked(m, identity, mint, at) => AttemptKeepsSound(s, m, identity, mint, at);
      case Unchecked(m, identity, mint, at) => AttemptKeepsSound(s, m, identity, mint, at);
      case Sweep(at) =>
        forall mode, id, e | e in EntriesOf(after.guard, mode, id)
          ensures Logged(after.log, mode, id, e)
        {
        }
      case Policy(_, _) =>
        forall mode, id, e | e in EntriesOf(after.guard, mode, id)
          ensures Logged(after.log, mode, id, e)
        {
          assert e in EntriesOf(s.guard, mode, id);
        }
    }
  }

  lemma SoundNeverOverblocks(s: Ledger, mode: Mode, identity: Option<Identity>, mint: string, now: Ts)
    requires Sound(s)
    ensures Blocks(s.guard, mode, identity, mint, now) ==> LogBlocks(s.guard, s.log, mode, identity, mint, now)
  {
  }

  /** Whatever is done to it, in whatever order, the guard blocks only what the log of all
      attempts blocks. */
  lemma {:induction false} GuardNeverOverblocks(ops: seq<Op>, mode: Mode, identity: Option<Identity>, mint: string,
                                                now: Ts)
    ensures Sound(Run(ops))
    ensures Blocks(Run(ops).guard, mode, identity, mint, now) ==> LogBlocks(Run(ops).guard, Run(ops).log, mode, identity, mint, now)
  {
    if ops != [] {
      GuardNeverOverblocks(ops[..|ops| - 1], mode, identity, mint, now);
      StepKeepsSound(Run(ops[..|ops| - 1]), ops[|ops| - 1]);
    }
    SoundNeverOverblocks(Run(ops), mode, identity, mint, now);
  }

  // ---- sweeping is unobservable ---------------------------------------------

  /** Whatever the guard remembers, a sweep that runs at `at` changes no answer it gives at
      `now` under the window it has then. */
  ghost predicate SweepUnobservable(window: int, at: Ts, windowThen: int, now: Ts) {
    forall g: Guard, mode, identity, mint | g.window == window && PruneDue(g, at) ::
      Blocks(Pruned(g, at).(window := windowThen), mode, identity, mint, now) == Blocks(g.(window := windowThen), mode, identity, mint, now)
  }

  lemma LaterCutoffHidesTheSweep(g: Guard, at: Ts, windowThen: int, mode: Mode, identity: Option<Identity>,
                                 mint: string, now: Ts)
    requires now - windowThen >= Cutoff(g, at)
    ensures Blocks(Pruned(g, at).(window := windowThen), mode, identity, mint, now) == Blocks(g.(window := windowThen), mode, identity, mint, now)
  {
    if identity.Some? {
      EntriesAfterPrune(g, at, mode, identity.value);
      assert EntriesOf(Pruned(g, at).(window := windowThen), mode, identity.value) == EntriesOf(Pruned(g, at), mode, identity.value);
    }
  }

  /** An attempt exactly as old as the window is swept, and a cutoff that moved back since
      counts it again. */
  lemma EarlierCutoffShowsTheSweep(window: int, at: Ts, windowThen: int, now: Ts) returns (g: Guard)
    requires now - windowThen < at - window
    ensures g.window == window && PruneDue(g, at)
    ensures Blocks(g.(window := windowThen), Real, Some(0), "b", now)
    ensures !Blocks(Pruned(g, at).(window := windowThen), Real, Some(0), "b", now)
  {
    var swept := Seen("a", at - window);
    g := Guard(true, window, map[], map[0 := [swept]], None);
    assert EntriesOf(g.(window := windowThen), Real, 0) == [swept];
    assert swept.mint != "b" by {
      assert "a"[0] != "b"[0];
    }
    assert [swept][0] in [swept];
    EntriesAfterPrune(g, at, Real, 0);
    assert EntriesOf(Pruned(g, at).(window := windowThen), Real, 0) == EntriesOf(Pruned(g, at), Real, 0);
  }

  /** A sweep is unobservable at a later question exactly when the cutoff asked about is no
      earlier than the one swept at: under one window always, and while the window grows only
      once time has caught up with its growth. */
  lemma SweepIsUnobservableIff(window: int, at: Ts, windowThen: int, now: Ts)
    ensures SweepUnobservable(window, at, windowThen, now) <==> now - windowThen >= at - window
  {
    if now - windowThen >= at - window {
      forall g: Guard, mode, identity, mint | g.window == window && PruneDue(g, at)
        ensures Blocks(Pruned(g, at).(window := windowThen), mode, identity, mint, now) == Blocks(g.(window := windowThen), mode, identity, mint, now)
      {
        LaterCutoffHidesTheSweep(g, at, windowThen, mode, identity, mint, now);
      }
    } else {
      var g := EarlierCutoffShowsTheSweep(window, at, windowThen, now);
    }
  }

  /** Runs come to it: sweep under one window, ask under a longer one, and until time has
      caught up the guard has forgotten an attempt the log still counts. */
  lemma WideningRevealsASweep(hours: nat, more: nat, id: Identity, a: string, b: string, now: Ts)
    requires WindowMs(hours) <= now < WindowMs(more) && a != b
    ensures var ops := [Policy(true, hours), Unchecked(Real, Some(id), a, 0), Sweep(WindowMs(hours)), Policy(true, more)];
            && LogBlocks(Run(ops).guard, Run(ops).log, Real, Some(id), b, now)
            && !Blocks(Run(ops).guard, Real, Some(id), b, now)
  {
    var o1, o2, o3, o4 := Policy(true, hours), Unchecked(Real, Some(id), a, 0), Sweep(WindowMs(hours)), Policy(true, more);
    RunOf4(o1, o2, o3, o4);
    var s2 := Step(Step(Ledger(FRESH, []), o1), o2);
    assert EntriesOf(s2.guard, Real, id) == [Seen(a, 0)];
    EntriesAfterPrune(s2.guard, WindowMs(hours), Real, id);
    assert [Seen(a, 0)][..0] == [];
    assert s2.log == [Attempt(Real, id, a, 0)];
    assert Attempt(Real, id, a, 0) in s2.log;
  }

  lemma RunOf4(o1: Op, o2: Op, o3: Op, o4: Op)
    ensures Run([o1, o2, o3, o4]) == Step(Step(Step(Step(Ledger(FRESH, []), o1), o2), o3), o4)
  {
    assert [o1, o2, o3, o4][..3] == [o1, o2, o3];
    assert [o1, o2, o3][..2] == [o1, o2];
    assert [o1, o2][..1] == [o1];
    assert [o1][..0] == [];
    assert Run([o1]) == Step(Ledger(FRESH, []), o1);
    assert Run([o1, o2]) == Step(Run([o1]), o2);
    assert Run([o1, o2, o3]) == Step(Run([o1, o2]), o3);
  }

  // ---- check, then record ---------------------------------------------------

  function TimeOf(op: Op, last: Ts): Ts {
    match op
    case Checked(_, _, _, at) => at
    case Unchecked(_, _, _, at) => at
    case Sweep(at) => at
    case Policy(_, _) => last
  }

  /** Every attempt is checked, time never runs backwards from `start`, and the window is
      never made longer once set; the guard may be switched on and off at will. */
  predicate Disciplined(ops: seq<Op>, start: Ts) {
    ops == []
    || (var n := |ops| - 1;
        && Disciplined(ops[..n], start)
        && !ops[n].Unchecked?
        && (ops[n].Policy? ==> WindowMs(ops[n].hours) <= Run(ops[..n]).guard.window)
        && Clock(ops[..n], start) <= TimeOf(ops[n], Clock(ops[..n], start)))
  }

  function Clock(ops: seq<Op>, start: Ts): Ts {
    if ops == [] then start else TimeOf(ops[|ops| - 1], Clock(ops[..|ops| - 1], start))
  }

  predicate Live(g: Guard, a: Attempt, now: Ts) {
    a.at > Cutoff(g, now)
  }

  predicate Remembers(g: Guard, a: Attempt) {
    exists e | e in EntriesOf(g, a.mode, a.id) :: e.mint == a.mint && e.at >= a.at
  }

  predicate ForgetsNothingLive(s: Ledger, now: Ts) {
    forall a | a in s.log && Live(s.guard, a, now) :: Remembers(s.guard, a)
  }

  /** One identity has one live mint in one mode. */
  predicate OneLiveMint(s: Ledger, now: Ts) {
    forall a, b | a in s.log && b in s.log && Live(s.guard, a, now) && Live(s.guard, b, now) && a.mode == b.mode && a.id == b.id :: a.mint == b.mint
  }

  ghost predicate Faithful(s: Ledger, now: Ts) {
    && s.guard.window > 0
    && Sound(s)
    && (forall a | a in s.log :: a.at <= now)
    && ForgetsNothingLive(s, now)
    && OneLiveMint(s, now)
  }

  lemma PutRemembers(entries: seq<Seen>, mint: string, at: Ts, e: Seen)
    requires e in entries
    requires |entries| >= MAX_MINTS_PER_IDENTITY && e == entries[0] ==> exists k | k in entries :: k.mint == mint
    ensures exists k | k in Put(entries, mint, at) :: k.mint == e.mint && k.at >= e.at
  {
  }

  lemma PutAdds(entries: seq<Seen>, mint: string, at: Ts)
    ensures exists k | k in Put(entries, mint, at) :: k.mint == mint && k.at >= at
  {
    var i := IndexOfMint(entries, mint);
    var out := Put(entries, mint, at);
    if i < |entries| {
      assert out[i] in out;
    } else {
      assert out[|out| - 1] in out;
    }
  }

  lemma AttemptIsRemembered(s: Ledger, now: Ts, mode: Mode, id: Identity, mint: string, a: Attempt)
    requires Faithful(s, now) && s.guard.enabled
    requires a in s.log ==> Live(s.guard, a, now) && (a.mode == mode && a.id == id ==> a.mint == mint)
    requires a in s.log || a == Attempt(mode, id, mint, now)
    ensures Remembers(Recorded(s.guard, mode, Some(id), mint, now), a)
  {
    EntriesAfterRecord(s.guard, mode, Some(id), mint, now, a.mode, a.id);
    var entries := EntriesOf(s.guard, mode, id);
    if a !in s.log {
      PutAdds(entries, mint, now);
    } else {
      assert Remembers(s.guard, a);
      if a.mode == mode && a.id == id {
        var e :| e in entries && e.mint == a.mint && e.at >= a.at;
        PutRemembers(entries, mint, now, e);
      }
    }
  }

  lemma CheckedForgetsNothing(s: Ledger, now: Ts, mode: Mode, id: Identity, mint: string)
    requires Faithful(s, now) && s.guard.enabled && !Blocks(s.guard, mode, Some(id), mint, now)
    ensures ForgetsNothingLive(Attempted(s, mode, Some(id), mint, now), now)
  {
    var after := Attempted(s, mode, Some(id), mint, now);
    forall a | a in after.log && Live(after.guard, a, now)
      ensures Remembers(after.guard, a)
    {
      AttemptIsRemembered(s, now, mode, id, mint, a);
    }
  }

  lemma CheckedKeepsOneMint(s: Ledger, now: Ts, mode: Mode, id: Identity, mint: string)
    requires Faithful(s, now) && s.guard.enabled && !Blocks(s.guard, mode, Some(id), mint, now)
    ensures OneLiveMint(Attempted(s, mode, Some(id), mint, now), now)
  {
  }

  lemma CheckedStaysFaithful(s: Ledger, now: Ts, mode: Mode, id: Identity, mint: string)
    requires Faithful(s, now) && s.guard.enabled && !Blocks(s.guard, mode, Some(id), mint, now)
    ensures Faithful(Attempted(s, mode, Some(id), mint, now), now)
  {
    AttemptKeepsSound(s, mode, Some(id), mint, now);
    CheckedForgetsNothing(s, now, mode, id, mint);
    CheckedKeepsOneMint(s, now, mode, id, mint);
  }

  lemma PrunedStaysFaithful(s: Ledger, now: Ts)
    requires Faithful(s, now)
    ensures Faithful(s.(guard := Pruned(s.guard, now)), now)
  {
  }

  lemma NarrowedStaysFaithful(s: Ledger, now: Ts, enabled: bool, hours: nat)
    requires Faithful(s, now) && WindowMs(hours) <= s.guard.window
    ensures Faithful(s.(guard := WithPolicy(s.guard, enabled, hours)), now)
  {
  }

  lemma {:induction false} DisciplinedRunsAreFaithful(ops: seq<Op>, start: Ts)
    requires Disciplined(ops, start)
    ensures Faithful(Run(ops), Clock(ops, start))
  {
    if ops != [] {
      var n := |ops| - 1;
      DisciplinedRunsAreFaithful(ops[..n], start);
      var before, now := Run(ops[..n]), Clock(ops, start);
      match ops[n] {
        case Checked(mode, identity, mint, at) =>
          if before.guard.enabled && identity.Some? && !Blocks(before.guard, mode, identity, mint, at) {
            CheckedStaysFaithful(before, now, mode, identity.value, mint);
          }
        case Sweep(at) => PrunedStaysFaithful(before, now);
        case Policy(enabled, hours) => NarrowedStaysFaithful(before, now, enabled, hours);
      }
    }
  }

  /** Under check-then-record, with time moving forward and the window never lengthened, the
      capped and swept guard answers every later query exactly as the log of all attempts
      does, and one identity never has two mints inside the window in one mode. */
  lemma GuardAnswersLikeTheLog(ops: seq<Op>, start: Ts, mode: Mode, identity: Option<Identity>, mint: string, now: Ts)
    requires Disciplined(ops, start) && Clock(ops, start) <= now
    ensures Blocks(Run(ops).guard, mode, identity, mint, now) <==> LogBlocks(Run(ops).guard, Run(ops).log, mode, identity, mint, now)
    ensures OneLiveMint(Run(ops), now)
  {
    DisciplinedRunsAreFaithful(ops, start);
  }

  // ---- recording without a check --------------------------------------------

  /** Every attempt under the identity is still in memory, live or not. */
  predicate ForgetsNothing(s: Ledger, mode: Mode, id: Identity) {
    forall a | a in s.log && a.mode == mode && a.id == id :: Remembers(s.guard, a)
  }

  ghost predicate AnswersLikeTheLogFrom(s: Ledger, mode: Mode, id: Identity, from: Ts) {
    forall mint, now | now >= from :: Blocks(s.guard, mode, Some(id), mint, now) <==> LogBlocks(s.guard, s.log, mode, Some(id), mint, now)
  }

  /** The mint the cap is about to drop is inside the window and newer than every other. */
  predicate DropsTheNewestLive(g: Guard, entries: seq<Seen>, at: Ts)
    requires |entries| > 0
  {
    entries[0].at > Cutoff(g, at) && forall e | e in entries[1..] :: e.at < entries[0].at
  }

  lemma KeptBlocksFor(s: Ledger, mode: Mode, id: Identity, mint: string, at: Ts, asked: string, cut: Ts, a: Attempt)
    requires Sound(s) && ForgetsNothing(s, mode, id) && cut >= Cutoff(s.guard, at)
    requires forall a | a in s.log :: a.at <= at
    requires |EntriesOf(s.guard, mode, id)| >= MAX_MINTS_PER_IDENTITY
    requires forall e | e in EntriesOf(s.guard, mode, id) :: e.mint != mint
    requires !DropsTheNewestLive(s.guard, EntriesOf(s.guard, mode, id), at)
    requires a in s.log || a == Attempt(mode, id, mint, at)
    requires a.mode == mode && a.id == id && a.mint != asked && a.at > cut
    ensures OtherLive(Put(EntriesOf(s.guard, mode, id), mint, at), asked, cut)
  {
  }

  lemma KeptAnswersLikeTheLog(s: Ledger, mode: Mode, id: Identity, mint: string, at: Ts, asked: string, now: Ts)
    requires Sound(s) && ForgetsNothing(s, mode, id) && s.guard.enabled && now >= at
    requires forall a | a in s.log :: a.at <= at
    requires |EntriesOf(s.guard, mode, id)| >= MAX_MINTS_PER_IDENTITY
    requires forall e | e in EntriesOf(s.guard, mode, id) :: e.mint != mint
    requires !DropsTheNewestLive(s.guard, EntriesOf(s.guard, mode, id), at)
    ensures var after := Attempted(s, mode, Some(id), mint, at);
            LogBlocks(after.guard, after.log, mode, Some(id), asked, now) ==> Blocks(after.guard, mode, Some(id), asked, now)
  {
    var after := Attempted(s, mode, Some(id), mint, at);
    EntriesAfterRecord(s.guard, mode, Some(id), mint, at, mode, id);
    if LogBlocks(after.guard, after.log, mode, Some(id), asked, now) {
      var a :| a in after.log && a.mode == mode && a.id == id && a.mint != asked && a.at > Cutoff(after.guard, now);
      KeptBlocksFor(s, mode, id, mint, at, asked, Cutoff(after.guard, now), a);
    }
  }

  lemma NewestLiveDropIsSeen(s: Ledger, mode: Mode, id: Identity, mint: string, at: Ts)
    requires Sound(s) && s.guard.enabled && s.guard.window > 0
    requires |EntriesOf(s.guard, mode, id)| >= MAX_MINTS_PER_IDENTITY
    requires forall e | e in EntriesOf(s.guard, mode, id) :: e.mint != mint
    requires DropsTheNewestLive(s.guard, EntriesOf(s.guard, mode, id), at)
    ensures var now := EntriesOf(s.guard, mode, id)[0].at - 1 + s.guard.window;
            var after := Attempted(s, mode, Some(id), mint, at);
            now >= at && LogBlocks(after.guard, after.log, mode, Some(id), mint, now) && !Blocks(after.guard, mode, Some(id), mint, now)
  {
    var after, entries := Attempted(s, mode, Some(id), mint, at), EntriesOf(s.guard, mode, id);
    assert Put(entries, mint, at) == entries[1..] + [Seen(mint, at)];
    assert Logged(s.log, mode, id, entries[0]);
    assert Attempt(mode, id, entries[0].mint, entries[0].at) in after.log;
  }

  /** An unchecked attempt on a ninth mint drops the first one in. The guard still answers
      like the log ever after exactly when that mint is not the newest still inside the
      window: it was refreshed in place, so "first in" need not mean oldest. */
  lemma CapDropIsHarmlessIff(s: Ledger, mode: Mode, id: Identity, mint: string, at: Ts)
    requires Sound(s) && ForgetsNothing(s, mode, id) && s.guard.enabled && s.guard.window > 0
    requires forall a | a in s.log :: a.at <= at
    requires |EntriesOf(s.guard, mode, id)| >= MAX_MINTS_PER_IDENTITY
    requires forall e | e in EntriesOf(s.guard, mode, id) :: e.mint != mint
    ensures AnswersLikeTheLogFrom(Attempted(s, mode, Some(id), mint, at), mode, id, at)
            <==> !DropsTheNewestLive(s.guard, EntriesOf(s.guard, mode, id), at)
  {
    var after, entries := Attempted(s, mode, Some(id), mint, at), EntriesOf(s.guard, mode, id);
    if DropsTheNewestLive(s.guard, entries, at) {
      NewestLiveDropIsSeen(s, mode, id, mint, at);
    } else {
      AttemptKeepsSound(s, mode, Some(id), mint, at);
      forall asked, now | now >= at
        ensures Blocks(after.guard, mode, Some(id), asked, now) <==> LogBlocks(after.guard, after.log, mode, Some(id), asked, now)
      {
        KeptAnswersLikeTheLog(s, mode, id, mint, at, asked, now);
      }
    }
  }

  // ---- it happens -----------------------------------------------------------

  function MintName(i: nat): string {
    seq(i, _ => 'x')
  }

  /** The guard on for an hour, then `n` manual buys of one name, a millisecond apart. */
  function ManualBuys(id: Identity, n: nat): seq<Op> {
    if n == 0 then [Policy(true, 1)] else ManualBuys(id, n - 1) + [Unchecked(Real, Some(id), MintName(n - 1), n - 1)]
  }

  lemma RunSnoc(ops: seq<Op>, op: Op)
    ensures Run(ops + [op]) == Step(Run(ops), op)
  {
  }

  function FirstBuys(n: nat): (es: seq<Seen>)
    ensures |es| == n && forall i | 0 <= i < n :: es[i] == Seen(MintName(i), i)
  {
    seq(n, i requires 0 <= i < n => Seen(MintName(i), i))
  }

  lemma NextBuy(n: nat)
    requires n < MAX_MINTS_PER_IDENTITY
    ensures Put(FirstBuys(n), MintName(n), n) == FirstBuys(n + 1)
  {
  }

  lemma {:induction false} ManualBuysFillTheMemory(id: Identity, n: nat)
    requires n <= MAX_MINTS_PER_IDENTITY
    ensures var s := Run(ManualBuys(id, n));
            s.guard.enabled && s.guard.window == HOUR_MS && EntriesOf(s.guard, Real, id) == FirstBuys(n) && Sound(s)
  {
    if n == 0 {
      assert ManualBuys(id, 0) == [] + [Policy(true, 1)];
      RunSnoc([], Policy(true, 1));
    } else {
      ManualBuysFillTheMemory(id, n - 1);
      var s, op := Run(ManualBuys(id, n - 1)), Unchecked(Real, Some(id), MintName(n - 1), n - 1);
      RunSnoc(ManualBuys(id, n - 1), op);
      StepKeepsSound(s, op);
      EntriesAfterRecord(s.guard, Real, Some(id), MintName(n - 1), n - 1, Real, id);
      NextBuy(n - 1);
    }
  }

  /** Eight manual buys of one name, the first mint again, then a ninth mint: the first one is
      dropped though it is the newest, and a while later the guard lets the ninth be bought
      again while the log still holds a live attempt on another mint. */
  lemma RefreshedMintIsForgotten(id: Identity)
    ensures var ops := ManualBuys(id, 8) + [Unchecked(Real, Some(id), MintName(0), 100)] + [Unchecked(Real, Some(id), MintName(8), 101)];
            var s := Run(ops);
            && LogBlocks(s.guard, s.log, Real, Some(id), MintName(8), HOUR_MS + 99)
            && !Blocks(s.guard, Real, Some(id), MintName(8), HOUR_MS + 99)
  {
    var refresh, ninth := Unchecked(Real, Some(id), MintName(0), 100), Unchecked(Real, Some(id), MintName(8), 101);
    var s0 := Run(ManualBuys(id, 8));
    ManualBuysFillTheMemory(id, 8);
    var s1 := Step(s0, refresh);
    StepKeepsSound(s0, refresh);
    var entries := EntriesOf(s1.guard, Real, id);
    assert FirstBuys(8)[0].mint == MintName(0);
    assert entries == FirstBuys(8)[0 := Seen(MintName(0), 100)];
    forall i | 0 <= i < 8
      ensures entries[i].mint != MintName(8)
    {
    }
    assert entries[0].at == 100;
    NewestLiveDropIsSeen(s1, Real, id, MintName(8), 101);
  }
}
