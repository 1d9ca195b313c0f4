/** How often a bundle is submitted before it is given up: every configured retry is used, and
    none beyond. */
module LaunchBids {
  import opened Metrics
  import opened LaunchProtocol
  import opened LaunchOutcome
  import opened LaunchRaces
  import Safety = LaunchSafety

  // ---- submissions made and recorded ----------------------------------------

  /** Every recorded submission was made, and one just made is not recorded yet. */
  ghost predicate RecordsOk(w: World) {
    w.bundle.Some? ==>
      && w.bundle.value.attempts <= w.sends
      && forall i: nat | ExecOf(w, i).Sent? :: w.bundle.value.attempts + 1 <= w.sends
  }

  ghost predicate Counted(c: Config, w: World) {
    Safety.Inv(c, w) && RecordsOk(w)
  }

  lemma ExecKeepsRecords(c: Config, w: World, e: Event)
    requires Counted(c, w) && w.bundle.Some? && OfExecutor(e) && ExecStep(w, e.i, e).Some?
    ensures RecordsOk(ExecStep(w, e.i, e).value)
  {
    var after := ExecStep(w, e.i, e).value;
    assert forall j: nat | j != e.i :: ExecOf(after, j) == ExecOf(w, j);
    assert forall j: nat | ExecOf(w, j).Sent? :: Safety.HoldsClaim(w, j);
    if e.Record? {
      assert Safety.HoldsClaim(w, e.i);
    }
  }

  lemma RequestKeepsRecords(c: Config, w: World, e: Event)
    requires Counted(c, w) && OfRequest(e) && RequestStep(c, w, e).Some?
    ensures RecordsOk(RequestStep(c, w, e).value)
  {
    var after := RequestStep(c, w, e).value;
    assert after.sends == w.sends && forall j: nat :: ExecOf(after, j) == ExecOf(w, j);
  }

  lemma WatcherKeepsRecords(c: Config, w: World, e: Event)
    requires Counted(c, w) && w.bundle.Some? && WatcherStep(c, w, e).Some?
    ensures RecordsOk(WatcherStep(c, w, e).value)
  {
    var after := WatcherStep(c, w, e).value;
    assert after.sends == w.sends && after.bundle.Some? && after.bundle.value.attempts == w.bundle.value.attempts;
    assert forall j: nat | j != WATCHER :: ExecOf(after, j) == ExecOf(w, j);
    assert ExecOf(after, WATCHER) == ExecOf(w, WATCHER) || ExecOf(after, WATCHER) == NotStarted;
  }

  lemma StepKeepsRecords(c: Config, w: World, e: Event)
    requires Counted(c, w) && Next(c, w, e).Some?
    ensures RecordsOk(Next(c, w, e).value)
  {
    if OfRequest(e) {
      RequestKeepsRecords(c, w, e);
    } else if OfExecutor(e) {
      ExecKeepsRecords(c, w, e);
    } else {
      WatcherKeepsRecords(c, w, e);
    }
  }

  lemma {:induction false} RunKeepsCounted(c: Config, run: seq<World>, events: seq<Event>, k: nat,
                                           wallets: map<nat, WalletStatus>)
    requires IsRun(c, run, events) && run[0] == Initial(wallets) && k < |run|
    ensures Counted(c, run[k])
  {
    Safety.RunKeeps(c, run, events, k, wallets);
    if k > 0 {
      RunKeepsCounted(c, run, events, k - 1, wallets);
      assert Next(c, run[k - 1], events[k - 1]) == Some(run[k - 1 + 1]);
      StepKeepsRecords(c, run[k - 1], events[k - 1]);
    }
  }

  // ---- no retry is left unused ----------------------------------------------

  /** Submitted, and recorded, once more than the configured retries. */
  predicate EveryBidMade(c: Config, w: World) {
    w.bundle.Some? && w.bundle.value.attempts == w.sends == 1 + Safety.Retries(c)
  }

  lemma JudgedAfterEveryBid(c: Config, w: World)
    requires Counted(c, w) && Next(c, w, Judge(NoneLanded)).Some?
    ensures EveryBidMade(c, w)
  {
  }

  /** Whoever executes the bundle and whichever writes fail: the watcher judges that nothing
      landed only after every retry has been submitted and recorded. */
  lemma GivenUpOnlyAfterEveryBid(c: Config, run: seq<World>, events: seq<Event>, k: nat, wallets: map<nat, WalletStatus>)
    requires IsRun(c, run, events) && run[0] == Initial(wallets) && k < |events| && events[k] == Judge(NoneLanded)
    ensures EveryBidMade(c, run[k])
  {
    RunKeepsCounted(c, run, events, k, wallets);
    assert Next(c, run[k], events[k]) == Some(run[k + 1]);
    JudgedAfterEveryBid(c, run[k]);
  }

  /** About to drop a bundle that is still submitted. */
  predicate DropsSubmitted(w: World) {
    StatusIs(w, Submitted) && w.watcher.Confirming? && w.watcher.verdict == NoneLanded
  }

  predicate BidsOk(c: Config, w: World) {
    DropsSubmitted(w) ==> EveryBidMade(c, w)
  }

  lemma RequestKeepsBids(c: Config, w: World, e: Event)
    requires BidsOk(c, w) && OfRequest(e) && RequestStep(c, w, e).Some?
    ensures BidsOk(c, RequestStep(c, w, e).value)
  {
    var after := RequestStep(c, w, e).value;
    assert after.watcher == w.watcher && after.sends == w.sends && (after.bundle == w.bundle || StatusIs(after, Planned));
  }

  /** A bundle the watcher is about to drop is in no executor's hands. */
  lemma ExecKeepsBids(c: Config, w: World, e: Event)
    requires BidsOk(c, w) && LaunchOutcome.Inv(c, w) && Clean(e) && w.bundle.Some? && OfExecutor(e) && ExecStep(w, e.i, e).Some?
    ensures BidsOk(c, ExecStep(w, e.i, e).value)
  {
    var after := ExecStep(w, e.i, e).value;
    if w.watcher.Confirming? {
      assert After(c, w) && e.Stamp?;
      assert after.bundle == w.bundle && after.sends == w.sends && after.watcher == w.watcher;
    }
  }

  lemma WatcherKeepsBids(c: Config, w: World, e: Event)
    requires Counted(c, w) && LaunchOutcome.Inv(c, w) && Clean(e) && w.bundle.Some? && WatcherStep(c, w, e).Some?
    requires BidsOk(c, w) && Next(c, w, e) == WatcherStep(c, w, e)
    ensures BidsOk(c, WatcherStep(c, w, e).value)
  {
    if e == Judge(NoneLanded) {
      JudgedAfterEveryBid(c, w);
    } else {
      OnlyJudgingDrops(c, w, e);
    }
  }

  /** No other clean step of the watcher turns to dropping a bundle that is still submitted. */
  lemma OnlyJudgingDrops(c: Config, w: World, e: Event)
    requires LaunchOutcome.Inv(c, w) && Clean(e) && w.bundle.Some? && WatcherStep(c, w, e).Some? && e != Judge(NoneLanded)
    ensures !DropsSubmitted(WatcherStep(c, w, e).value)
  {
  }

  lemma StepKeepsBids(c: Config, w: World, e: Event)
    requires Counted(c, w) && LaunchOutcome.Inv(c, w) && BidsOk(c, w) && Clean(e) && Next(c, w, e).Some?
    ensures BidsOk(c, Next(c, w, e).value)
  {
    if OfRequest(e) {
      RequestKeepsBids(c, w, e);
    } else if OfExecutor(e) {
      ExecKeepsBids(c, w, e);
    } else {
      WatcherKeepsBids(c, w, e);
    }
  }

  lemma NextBidsOk(c: Config, run: seq<World>, events: seq<Event>, k: nat, wallets: map<nat, WalletStatus>)
    requires CleanRun(c, run, events) && run[0] == Initial(wallets) && 0 < k < |run| && BidsOk(c, run[k - 1])
    ensures BidsOk(c, run[k])
  {
    RunKeepsCounted(c, run, events, k - 1, wallets);
    LaunchOutcome.RunKeeps(c, run, events, k - 1, wallets);
    assert events[k - 1] in events;
    assert Next(c, run[k - 1], events[k - 1]) == Some(run[k - 1 + 1]);
    StepKeepsBids(c, run[k - 1], events[k - 1]);
  }

  lemma {:induction false} RunKeepsBids(c: Config, run: seq<World>, events: seq<Event>, k: nat,
                                        wallets: map<nat, WalletStatus>)
    requires CleanRun(c, run, events) && run[0] == Initial(wallets) && k < |run|
    ensures BidsOk(c, run[k])
  {
    if k > 0 {
      RunKeepsBids(c, run, events, k - 1, wallets);
      NextBidsOk(c, run, events, k, wallets);
    }
  }

  /** When one request and the watcher drive it and no write is lost, a bundle goes from
      submitted to dropped only after exactly one submission more than the configured retries. */
  lemma DroppedOnlyAfterEveryBid(c: Config, run: seq<World>, events: seq<Event>, k: nat, wallets: map<nat, WalletStatus>)
    requires CleanRun(c, run, events) && run[0] == Initial(wallets) && k < |events|
    requires StatusIs(run[k], Submitted) && StatusIs(run[k + 1], Dropped)
    ensures EveryBidMade(c, run[k])
  {
    RunKeepsBids(c, run, events, k, wallets);
    assert Next(c, run[k], events[k]) == Some(run[k + 1]);
    LaunchOutcome.RunKeeps(c, run, events, k, wallets);
    DropsItself(c, run[k], events[k]);
  }

  /** Only the watcher's confirmation drops a submitted bundle. */
  lemma DropsItself(c: Config, w: World, e: Event)
    requires Next(c, w, e).Some? && StatusIs(w, Submitted) && StatusIs(Next(c, w, e).value, Dropped)
    ensures DropsSubmitted(w)
  {
  }

  // ---- the bound is attained ------------------------------------------------

  /** The n-th submission is recorded and stamped, and the watcher is between passes. */
  function Bid(n: nat, others: map<nat, Exec>, watcher: WatcherAt): World
    requires n > 0
  {
    World(Some(Pending), n, Some(Bundle(Submitted, n, {LEG}, n)), Held(), others, Executing, watcher, Both(), n, n, n - 1, 0)
  }

  /** Inside the re-bid after the n-th submission. */
  function Rebid(n: nat, others: map<nat, Exec>, mine: Exec, bundle: Bundle, signature: nat, claims: nat, sends: nat): World {
    World(Some(Pending), signature, Some(bundle), Held(), others[WATCHER := mine], Executing, Rebidding(n), Both(), claims, sends, n, 0)
  }

  lemma Overwritten(others: map<nat, Exec>, a: Exec, b: Exec)
    ensures others[WATCHER := a][WATCHER := b] == others[WATCHER := b]
  {
  }

  lemma RebidReads(c: Config, n: nat, others: map<nat, Exec>)
    requires n > 0 && c.retries.Some? && n <= c.retries.value
    ensures Next(c, Bid(n, others, Idle), See) == Some(Bid(n, others, Seen(n, n)))
    ensures Next(c, Bid(n, others, Seen(n, n)), ResetForRebid(true)) == Some(Rebid(n, others, NotStarted, Bundle(Planned, n, {LEG}, 0), n, n, n))
  {
  }

  lemma RebidClaims(c: Config, n: nat, others: map<nat, Exec>)
    ensures Next(c, Rebid(n, others, NotStarted, Bundle(Planned, n, {LEG}, 0), n, n, n), ReadPlanned(WATCHER))
            == Some(Rebid(n, others, Ready, Bundle(Planned, n, {LEG}, 0), n, n, n))
    ensures Next(c, Rebid(n, others, Ready, Bundle(Planned, n, {LEG}, 0), n, n, n), Claim(WATCHER))
            == Some(Rebid(n, others, Exec.Claimed, Bundle(Submitting, n, {LEG}, 0), n, n + 1, n))
  {
    Overwritten(others, NotStarted, Ready);
    Overwritten(others, Ready, Exec.Claimed);
  }

  lemma RebidSends(c: Config, n: nat, others: map<nat, Exec>)
    ensures Next(c, Rebid(n, others, Exec.Claimed, Bundle(Submitting, n, {LEG}, 0), n, n + 1, n), Send(WATCHER, true))
            == Some(Rebid(n, others, Sent(n + 1), Bundle(Submitting, n, {LEG}, 0), n, n + 1, n + 1))
    ensures Next(c, Rebid(n, others, Sent(n + 1), Bundle(Submitting, n, {LEG}, 0), n, n + 1, n + 1), Record(WATCHER))
            == Some(Rebid(n, others, Stamping(n + 1), Bundle(Submitted, n + 1, {LEG}, n + 1), n, n + 1, n + 1))
  {
    Overwritten(others, Exec.Claimed, Sent(n + 1));
    Overwritten(others, Sent(n + 1), Stamping(n + 1));
  }

  lemma RebidEnds(c: Config, n: nat, others: map<nat, Exec>)
    ensures Next(c, Rebid(n, others, Stamping(n + 1), Bundle(Submitted, n + 1, {LEG}, n + 1), n, n + 1, n + 1), Stamp(WATCHER))
            == Some(Rebid(n, others, Succeeded, Bundle(Submitted, n + 1, {LEG}, n + 1), n + 1, n + 1, n + 1))
    ensures Next(c, Rebid(n, others, Succeeded, Bundle(Submitted, n + 1, {LEG}, n + 1), n + 1, n + 1, n + 1), RebidDone)
            == Some(Bid(n + 1, others[WATCHER := Succeeded], Idle))
  {
    Overwritten(others, Stamping(n + 1), Succeeded);
  }

  lemma ThenClean(c: Config, j: Journey, start: World, w: World, e1: Event, w1: World, e2: Event,
                  w2: World) returns (k: Journey)
    requires Leads(c, j, start, w) && CleanJourney(j) && Clean(e1) && Clean(e2)
    requires Next(c, w, e1) == Some(w1) && Next(c, w1, e2) == Some(w2)
    ensures Leads(c, k, start, w2) && CleanJourney(k)
  {
    k := Then2(c, j, start, w, e1, w1, e2, w2);
  }

  lemma BidReset(c: Config, j: Journey, start: World, n: nat, others: map<nat, Exec>) returns (k: Journey)
    requires n > 0 && c.retries.Some? && n <= c.retries.value
    requires Leads(c, j, start, Bid(n, others, Idle)) && CleanJourney(j)
    ensures Leads(c, k, start, Rebid(n, others, NotStarted, Bundle(Planned, n, {LEG}, 0), n, n, n)) && CleanJourney(k)
  {
    RebidReads(c, n, others);
    k := ThenClean(c, j, start, Bid(n, others, Idle), See, Bid(n, others, Seen(n, n)),
                   ResetForRebid(true), Rebid(n, others, NotStarted, Bundle(Planned, n, {LEG}, 0), n, n, n));
  }

  lemma BidClaimed(c: Config, j: Journey, start: World, n: nat, others: map<nat, Exec>) returns (k: Journey)
    requires Leads(c, j, start, Rebid(n, others, NotStarted, Bundle(Planned, n, {LEG}, 0), n, n, n)) && CleanJourney(j)
    ensures Leads(c, k, start, Rebid(n, others, Exec.Claimed, Bundle(Submitting, n, {LEG}, 0), n, n + 1, n)) && CleanJourney(k)
  {
    RebidClaims(c, n, others);
    var planned := Bundle(Planned, n, {LEG}, 0);
    k := ThenClean(c, j, start, Rebid(n, others, NotStarted, planned, n, n, n), ReadPlanned(WATCHER), Rebid(n, others, Ready, planned, n, n, n),
                   Claim(WATCHER), Rebid(n, others, Exec.Claimed, Bundle(Submitting, n, {LEG}, 0), n, n + 1, n));
  }

  lemma BidSent(c: Config, j: Journey, start: World, n: nat, others: map<nat, Exec>) returns (k: Journey)
    requires Leads(c, j, start, Rebid(n, others, Exec.Claimed, Bundle(Submitting, n, {LEG}, 0), n, n + 1, n)) && CleanJourney(j)
    ensures Leads(c, k, start, Rebid(n, others, Stamping(n + 1), Bundle(Submitted, n + 1, {LEG}, n + 1), n, n + 1, n + 1)) && CleanJourney(k)
  {
    RebidSends(c, n, others);
    var submitting := Bundle(Submitting, n, {LEG}, 0);
    k := ThenClean(c, j, start, Rebid(n, others, Exec.Claimed, submitting, n, n + 1, n),
                   Send(WATCHER, true), Rebid(n, others, Sent(n + 1), submitting, n, n + 1, n + 1),
                   Record(WATCHER), Rebid(n, others, Stamping(n + 1), Bundle(Submitted, n + 1, {LEG}, n + 1), n, n + 1, n + 1));
  }

  lemma BidStamped(c: Config, j: Journey, start: World, n: nat, others: map<nat, Exec>) returns (k: Journey)
    requires Leads(c, j, start, Rebid(n, others, Stamping(n + 1), Bundle(Submitted, n + 1, {LEG}, n + 1), n, n + 1, n + 1)) && CleanJourney(j)
    ensures Leads(c, k, start, Bid(n + 1, others[WATCHER := Succeeded], Idle)) && CleanJourney(k)
  {
    RebidEnds(c, n, others);
    var submitted := Bundle(Submitted, n + 1, {LEG}, n + 1);
    k := ThenClean(c, j, start, Rebid(n, others, Stamping(n + 1), submitted, n, n + 1, n + 1),
                   Stamp(WATCHER), Rebid(n, others, Succeeded, submitted, n + 1, n + 1, n + 1),
                   RebidDone, Bid(n + 1, others[WATCHER := Succeeded], Idle));
  }

  lemma BidOnceMore(c: Config, j: Journey, start: World, n: nat, others: map<nat, Exec>) returns (k: Journey)
    requires n > 0 && c.retries.Some? && n <= c.retries.value
    requires Leads(c, j, start, Bid(n, others, Idle)) && CleanJourney(j)
    ensures Leads(c, k, start, Bid(n + 1, others[WATCHER := Succeeded], Idle)) && CleanJourney(k)
  {
    k := BidReset(c, j, start, n, others);
    k := BidClaimed(c, k, start, n, others);
    k := BidSent(c, k, start, n, others);
    k := BidStamped(c, k, start, n, others);
  }

  lemma FirstBid(c: Config) returns (j: Journey)
    requires c.dev == DEV
    ensures Leads(c, j, Initial(Funds()), Bid(1, map[REQUEST := Succeeded], Idle)) && CleanJourney(j)
  {
    var start := Initial(Funds());
    j := Setup(c);
    j := RequestClaims(c, j, start);
    j := RequestRecords(c, j, start);
    FirstStamp(c);
    j := Then(c, j, start, Scene(Pending, OneLeg(Submitted, 1), Held(), map[REQUEST := Stamping(1)], Executing, Idle, 1, 1, 0),
              Stamp(REQUEST), Bid(1, map[REQUEST := Succeeded], Idle));
  }

  lemma FirstStamp(c: Config)
    ensures Next(c, Scene(Pending, OneLeg(Submitted, 1), Held(), map[REQUEST := Stamping(1)], Executing, Idle, 1, 1, 0), Stamp(REQUEST))
            == Some(Bid(1, map[REQUEST := Succeeded], Idle))
  {
    assert map[REQUEST := Stamping(1)][REQUEST := Succeeded] == map[REQUEST := Succeeded];
  }

  lemma {:induction false} BidsUpTo(c: Config, n: nat) returns (j: Journey, others: map<nat, Exec>)
    requires c.dev == DEV && c.retries.Some? && 0 < n <= 1 + c.retries.value
    ensures Leads(c, j, Initial(Funds()), Bid(n, others, Idle)) && CleanJourney(j)
    ensures REQUEST in others && others[REQUEST] == Succeeded
  {
    if n == 1 {
      j := FirstBid(c);
      others := map[REQUEST := Succeeded];
    } else {
      j, others := BidsUpTo(c, n - 1);
      j := BidOnceMore(c, j, Initial(Funds()), n - 1, others);
      others := others[WATCHER := Succeeded];
    }
  }

  /** For every configured number of retries some run uses them all. */
  lemma EveryRetryCanBeUsed(c: Config) returns (j: Journey, end: World)
    requires c.dev == DEV && c.retries.Some?
    ensures Leads(c, j, Initial(Funds()), end) && CleanJourney(j)
    ensures end.sends == 1 + c.retries.value && end.resets == c.retries.value && StatusIs(end, Submitted)
  {
    var others;
    j, others := BidsUpTo(c, 1 + c.retries.value);
    end := Bid(1 + c.retries.value, others, Idle);
  }
}
