/** What a launch can still do: no process is ever stuck, and every end it should have is the
    end of some run. */
module LaunchProgress {
  import opened Metrics
  import opened LaunchProtocol
  import opened LaunchOutcome
  import opened LaunchRaces
  import opened LaunchBids
  import Safety = LaunchSafety

  // ---- no process is stuck --------------------------------------------------

  predicate Possible(c: Config, w: World, e: Event) {
    Next(c, w, e).Some?
  }

  /** Whoever needs the bundle's row has it. */
  ghost predicate Placed(w: World) {
    && (w.request.Looking? || w.request.Executing? || w.watcher != Idle ==> w.bundle.Some?)
    && forall i: nat | ExecOf(w, i) != NotStarted :: w.bundle.Some?
  }

  lemma RequestKeepsPlaced(c: Config, w: World, e: Event)
    requires Placed(w) && OfRequest(e) && RequestStep(c, w, e).Some?
    ensures Placed(RequestStep(c, w, e).value)
  {
    assert forall i: nat :: ExecOf(RequestStep(c, w, e).value, i) == ExecOf(w, i);
  }

  lemma ExecKeepsRow(w: World, e: Event)
    requires w.bundle.Some? && OfExecutor(e) && ExecStep(w, e.i, e).Some?
    ensures ExecStep(w, e.i, e).value.bundle.Some? && ExecStep(w, e.i, e).value.request == w.request
  {
  }

  lemma WatcherKeepsRow(c: Config, w: World, e: Event)
    requires w.bundle.Some? && WatcherStep(c, w, e).Some?
    ensures WatcherStep(c, w, e).value.bundle.Some? && WatcherStep(c, w, e).value.request == w.request
  {
  }

  /** Only the request's own steps move the request, and the bundle's row is never deleted. */
  lemma OthersKeepRow(c: Config, w: World, e: Event)
    requires !OfRequest(e) && Next(c, w, e).Some?
    ensures Next(c, w, e).value.bundle.Some? && Next(c, w, e).value.request == w.request
  {
    if OfExecutor(e) {
      ExecKeepsRow(w, e);
    } else {
      WatcherKeepsRow(c, w, e);
    }
  }

  lemma StepKeepsPlaced(c: Config, w: World, e: Event)
    requires Placed(w) && Next(c, w, e).Some?
    ensures Placed(Next(c, w, e).value)
  {
    if OfRequest(e) {
      RequestKeepsPlaced(c, w, e);
    } else {
      OthersKeepRow(c, w, e);
    }
  }

  lemma {:induction false} RunKeepsPlaced(c: Config, run: seq<World>, events: seq<Event>, k: nat, wallets: map<nat, WalletStatus>)
    requires IsRun(c, run, events) && run[0] == Initial(wallets) && k < |run|
    ensures Placed(run[k])
  {
    if k > 0 {
      RunKeepsPlaced(c, run, events, k - 1, wallets);
      assert Next(c, run[k - 1], events[k - 1]) == Some(run[k - 1 + 1]);
      StepKeepsPlaced(c, run[k - 1], events[k - 1]);
    }
  }

  /** An executor that is neither waiting to start nor done. */
  predicate Busy(w: World, i: nat) {
    !Resting(ExecOf(w, i))
  }

  lemma BusyExecutorMoves(c: Config, w: World, i: nat)
    requires w.bundle.Some? && (Busy(w, i) || (ExecOf(w, i) == NotStarted && MayStart(w, i)))
    ensures exists e | OfExecutor(e) && e.i == i :: Possible(c, w, e)
  {
    var e := match ExecOf(w, i)
             case NotStarted => ReadPlanned(i)
             case Ready => Claim(i)
             case Claimed => BuildFails(i)
             case Sent(_) => Record(i)
             case Stamping(_) => Stamp(i)
             case _ => MarkFailed(i);
    assert OfExecutor(e) && e.i == i && Possible(c, w, e);
  }

  /** Something the request does itself, or its own executor does for it. */
  predicate ForRequest(e: Event) {
    OfRequest(e) || (OfExecutor(e) && e.i == REQUEST)
  }

  lemma RequestMoves(c: Config, w: World)
    requires Placed(w) && !w.request.Answered?
    ensures exists e | ForRequest(e) :: Possible(c, w, e)
  {
    if w.request.Executing? && !ExecOf(w, REQUEST).Succeeded? && !ExecOf(w, REQUEST).Errored? {
      BusyExecutorMoves(c, w, REQUEST);
    } else {
      var e := match w.request
               case Starting => InsertLaunch
               case ClaimingDev => ClaimDev
               case Preparing => PrepareLaunch(true)
               case ClaimingLegs => ClaimLegs({})
               case Planning(_) => PlanBundle(true)
               case Looking => Look
               case Executing => Finish
               case Releasing => Release
               case _ => FailLaunch;
      assert ForRequest(e) && Possible(c, w, e);
    }
  }

  predicate ForWatcher(e: Event) {
    (!OfRequest(e) && !OfExecutor(e)) || (OfExecutor(e) && e.i == WATCHER)
  }

  lemma WatcherMoves(c: Config, w: World)
    requires Placed(w) && w.watcher != Idle
    ensures exists e | ForWatcher(e) :: Possible(c, w, e)
  {
    if w.watcher.Rebidding? && !ExecOf(w, WATCHER).Succeeded? && !ExecOf(w, WATCHER).Errored? {
      BusyExecutorMoves(c, w, WATCHER);
    } else {
      var e := match w.watcher
               case Seen(_, _) => StillWaiting
               case _ => NextOf(w);
      assert ForWatcher(e) && Possible(c, w, e);
    }
  }

  /** At every moment of every run, whoever executes and whatever was lost: a request that has
      not answered can go on, so can a watcher inside a pass, and so can every executor
      between its first step and its last. */
  lemma NobodyIsStuck(c: Config, run: seq<World>, events: seq<Event>, k: nat, wallets: map<nat, WalletStatus>)
    requires IsRun(c, run, events) && run[0] == Initial(wallets) && k < |run|
    ensures !run[k].request.Answered? ==> exists e | ForRequest(e) :: Possible(c, run[k], e)
    ensures run[k].watcher != Idle ==> exists e | ForWatcher(e) :: Possible(c, run[k], e)
    ensures forall i: nat | Busy(run[k], i) :: exists e | OfExecutor(e) && e.i == i :: Possible(c, run[k], e)
  {
    RunKeepsPlaced(c, run, events, k, wallets);
    if !run[k].request.Answered? {
      RequestMoves(c, run[k]);
    }
    if run[k].watcher != Idle {
      WatcherMoves(c, run[k]);
    }
    forall i: nat | Busy(run[k], i)
      ensures exists e | OfExecutor(e) && e.i == i :: Possible(c, run[k], e)
    {
      BusyExecutorMoves(c, run[k], i);
    }
  }

  // ---- what the request answers ---------------------------------------------

  /** The cleanup released the wallets, then failed the launch. */
  ghost predicate CleanupBy(w: World, done: seq<Event>) {
    && (Release in done <==> w.request == Failing || w.request == Answered(false))
    && (FailLaunch in done <==> w.request == Answered(false))
  }

  lemma RequestKeepsCleanup(c: Config, w: World, e: Event, done: seq<Event>)
    requires CleanupBy(w, done) && OfRequest(e) && RequestStep(c, w, e).Some?
    ensures CleanupBy(RequestStep(c, w, e).value, done + [e])
  {
  }

  lemma StepKeepsCleanup(c: Config, w: World, e: Event, done: seq<Event>)
    requires CleanupBy(w, done) && Next(c, w, e).Some?
    ensures CleanupBy(Next(c, w, e).value, done + [e])
  {
    if OfRequest(e) {
      RequestKeepsCleanup(c, w, e, done);
    } else {
      OthersKeepRow(c, w, e);
    }
  }

  /** The request answers no exactly when it released its wallets and failed the launch. */
  lemma {:induction false} NoMeansCleanedUp(c: Config, run: seq<World>, events: seq<Event>, k: nat, wallets: map<nat, WalletStatus>)
    requires IsRun(c, run, events) && run[0] == Initial(wallets) && k < |run|
    ensures CleanupBy(run[k], events[..k])
  {
    if k > 0 {
      NoMeansCleanedUp(c, run, events, k - 1, wallets);
      assert Next(c, run[k - 1], events[k - 1]) == Some(run[k - 1 + 1]);
      StepKeepsCleanup(c, run[k - 1], events[k - 1], events[..k - 1]);
      assert events[..k] == events[..k - 1] + [events[k - 1]];
    }
  }

  // ---- every end is reached -------------------------------------------------

  /** After the n-th submission, recorded and stamped: what the watcher's pass makes of it. */
  function Ending(n: nat, launch: LaunchStatus, status: BundleStatus, wallets: map<nat, WalletStatus>, others: map<nat, Exec>,
                  request: RequestAt, watcher: WatcherAt, exits: nat): World
    requires n > 0
  {
    World(Some(launch), n, Some(Bundle(status, n, {LEG}, n)), wallets, others, request, watcher, Both(), n, n, n - 1, exits)
  }

  function LaunchAfter(v: Verdict): LaunchStatus {
    if v == NoneLanded then LaunchFailed else Created
  }

  function WalletsAfter(v: Verdict): map<nat, WalletStatus> {
    if v == NoneLanded then Funds() else BothUsed()
  }

  lemma Judges(c: Config, n: nat, others: map<nat, Exec>, v: Verdict)
    requires n > 0 && (v == NoneLanded ==> c.retries.None? || n > c.retries.value)
    ensures Next(c, Bid(n, others, Idle), See) == Some(Bid(n, others, Seen(n, n)))
    ensures Next(c, Bid(n, others, Seen(n, n)), Judge(v)) == Some(Bid(n, others, Confirming(v, n)))
  {
  }

  lemma Confirms(c: Config, n: nat, others: map<nat, Exec>, v: Verdict)
    requires n > 0
    ensures Next(c, Bid(n, others, Confirming(v, n)), Confirm(true))
            == Some(Ending(n, Pending, FinalStatus(v), Held(), others, Executing, Marking(v, n), 0))
  {
  }

  lemma Marks(c: Config, n: nat, others: map<nat, Exec>, v: Verdict)
    requires n > 0
    ensures Next(c, Ending(n, Pending, FinalStatus(v), Held(), others, Executing, Marking(v, n), 0), MarkLaunch(true))
            == Some(Ending(n, LaunchAfter(v), FinalStatus(v), Held(), others, Executing, SettlingLegs(v), 1))
  {
  }

  lemma HandsBack(c: Config, n: nat, others: map<nat, Exec>, wallets: map<nat, WalletStatus>)
    requires n > 0 && c.dev == DEV
    ensures Next(c, Ending(n, LaunchFailed, Dropped, wallets, others, Executing, SettlingLegs(NoneLanded), 1), SettleLegs(true))
            == Some(Ending(n, LaunchFailed, Dropped, Settle(wallets, {LEG} + {DEV}, Funded), others, Executing, Idle, 1))
  {
  }

  lemma SpendsLegs(c: Config, n: nat, others: map<nat, Exec>, wallets: map<nat, WalletStatus>, v: Verdict)
    requires n > 0 && v != NoneLanded
    ensures Next(c, Ending(n, Created, FinalStatus(v), wallets, others, Executing, SettlingLegs(v), 1), SettleLegs(true))
            == Some(Ending(n, Created, FinalStatus(v), Settle(wallets, {LEG}, Used), others, Executing, SettlingDev(v), 1))
  {
  }

  lemma SpendsDev(c: Config, n: nat, others: map<nat, Exec>, wallets: map<nat, WalletStatus>, v: Verdict)
    requires n > 0 && c.dev == DEV
    ensures Next(c, Ending(n, Created, FinalStatus(v), wallets, others, Executing, SettlingDev(v), 1), SettleDev(true))
            == Some(Ending(n, Created, FinalStatus(v), Settle(wallets, {DEV}, Used), others, Executing, Idle, 1))
  {
  }

  lemma Finishes(c: Config, n: nat, others: map<nat, Exec>, v: Verdict)
    requires n > 0 && REQUEST in others && others[REQUEST] == Succeeded
    ensures Next(c, Ending(n, LaunchAfter(v), FinalStatus(v), WalletsAfter(v), others, Executing, Idle, 1), Finish)
            == Some(Ending(n, LaunchAfter(v), FinalStatus(v), WalletsAfter(v), others, Answered(true), Idle, 1))
  {
  }

  lemma ThenOne(c: Config, j: Journey, start: World, w: World, e: Event, after: World) returns (k: Journey)
    requires Leads(c, j, start, w) && CleanJourney(j) && Clean(e) && Next(c, w, e) == Some(after)
    ensures Leads(c, k, start, after) && CleanJourney(k)
  {
    k := Then(c, j, start, w, e, after);
  }

  lemma Judged(c: Config, j: Journey, start: World, n: nat, others: map<nat, Exec>, v: Verdict) returns (k: Journey)
    requires n > 0 && (v == NoneLanded ==> c.retries.None? || n > c.retries.value)
    requires Leads(c, j, start, Bid(n, others, Idle)) && CleanJourney(j)
    ensures Leads(c, k, start, Bid(n, others, Confirming(v, n))) && CleanJourney(k)
  {
    Judges(c, n, others, v);
    k := ThenClean(c, j, start, Bid(n, others, Idle), See, Bid(n, others, Seen(n, n)), Judge(v), Bid(n, others, Confirming(v, n)));
  }

  lemma Marked(c: Config, j: Journey, start: World, n: nat, others: map<nat, Exec>, v: Verdict) returns (k: Journey)
    requires n > 0 && Leads(c, j, start, Bid(n, others, Confirming(v, n))) && CleanJourney(j)
    ensures Leads(c, k, start, Ending(n, LaunchAfter(v), FinalStatus(v), Held(), others, Executing, SettlingLegs(v), 1)) && CleanJourney(k)
  {
    Confirms(c, n, others, v);
    Marks(c, n, others, v);
    k := ThenClean(c, j, start, Bid(n, others, Confirming(v, n)),
                   Confirm(true), Ending(n, Pending, FinalStatus(v), Held(), others, Executing, Marking(v, n), 0),
                   MarkLaunch(true), Ending(n, LaunchAfter(v), FinalStatus(v), Held(), others, Executing, SettlingLegs(v), 1));
  }

  lemma WalletsGo()
    ensures Settle(Held(), {LEG} + {DEV}, Funded) == Funds()
  {
  }

  lemma HandedBack(c: Config, j: Journey, start: World, n: nat, others: map<nat, Exec>) returns (k: Journey)
    requires n > 0 && c.dev == DEV
    requires Leads(c, j, start, Ending(n, LaunchFailed, Dropped, Held(), others, Executing, SettlingLegs(NoneLanded), 1)) && CleanJourney(j)
    ensures Leads(c, k, start, Ending(n, LaunchFailed, Dropped, Funds(), others, Executing, Idle, 1)) && CleanJourney(k)
  {
    WalletsGo();
    HandsBack(c, n, others, Held());
    k := ThenOne(c, j, start, Ending(n, LaunchFailed, Dropped, Held(), others, Executing, SettlingLegs(NoneLanded), 1),
                 SettleLegs(true), Ending(n, LaunchFailed, Dropped, Funds(), others, Executing, Idle, 1));
  }

  lemma Spent(c: Config, j: Journey, start: World, n: nat, others: map<nat, Exec>, v: Verdict) returns (k: Journey)
    requires n > 0 && c.dev == DEV && v != NoneLanded
    requires Leads(c, j, start, Ending(n, Created, FinalStatus(v), Held(), others, Executing, SettlingLegs(v), 1)) && CleanJourney(j)
    ensures Leads(c, k, start, Ending(n, Created, FinalStatus(v), BothUsed(), others, Executing, Idle, 1)) && CleanJourney(k)
  {
    WalletsSettle();
    SpendsLegs(c, n, others, Held(), v);
    SpendsDev(c, n, others, LegUsed(), v);
    k := ThenClean(c, j, start, Ending(n, Created, FinalStatus(v), Held(), others, Executing, SettlingLegs(v), 1),
                   SettleLegs(true), Ending(n, Created, FinalStatus(v), LegUsed(), others, Executing, SettlingDev(v), 1),
                   SettleDev(true), Ending(n, Created, FinalStatus(v), BothUsed(), others, Executing, Idle, 1));
  }

  lemma WalletsSettled(c: Config, j: Journey, start: World, n: nat, others: map<nat, Exec>, v: Verdict) returns (k: Journey)
    requires n > 0 && c.dev == DEV
    requires Leads(c, j, start, Ending(n, LaunchAfter(v), FinalStatus(v), Held(), others, Executing, SettlingLegs(v), 1)) && CleanJourney(j)
    ensures Leads(c, k, start, Ending(n, LaunchAfter(v), FinalStatus(v), WalletsAfter(v), others, Executing, Idle, 1)) && CleanJourney(k)
  {
    if v == NoneLanded {
      k := HandedBack(c, j, start, n, others);
    } else {
      k := Spent(c, j, start, n, others, v);
    }
  }

  /** For every number of submissions the retries allow, some run lands the bundle on the
      last of them, in full or in part, and comes to rest created: signature kept, every
      wallet used, the request answered yes. Some run fails on the last allowed submission:
      bundle dropped, launch failed, every wallet back. */
  lemma EveryEndIsReached(c: Config, n: nat, v: Verdict) returns (j: Journey, end: World)
    requires c.dev == DEV && c.retries.Some? && 0 < n <= 1 + c.retries.value && (v == NoneLanded ==> n == 1 + c.retries.value)
    ensures Leads(c, j, Initial(Funds()), end) && CleanJourney(j) && AtRest(end)
    ensures end.sends == n && end.request == Answered(true) && StatusIs(end, FinalStatus(v)) && end.signature == end.bundle.value.signature == n
    ensures if v == NoneLanded then end.launch == Some(LaunchFailed) && ClaimedAre(end, Funded)
            else end.launch == Some(Created) && ClaimedAre(end, Used)
  {
    var others;
    j, others := BidsUpTo(c, n);
    j := Judged(c, j, Initial(Funds()), n, others, v);
    j := Marked(c, j, Initial(Funds()), n, others, v);
    j := WalletsSettled(c, j, Initial(Funds()), n, others, v);
    Finishes(c, n, others, v);
    end := Ending(n, LaunchAfter(v), FinalStatus(v), WalletsAfter(v), others, Answered(true), Idle, 1);
    j := ThenOne(c, j, Initial(Funds()), Ending(n, LaunchAfter(v), FinalStatus(v), WalletsAfter(v), others, Executing, Idle, 1), Finish, end);
  }
}
