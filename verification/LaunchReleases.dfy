/** A launch under any number of executors: when the wallets a created launch spent are marked
    used, and when they are handed back to the pool. */
module LaunchReleases {
  import opened Metrics
  import opened LaunchProtocol
  import opened LaunchOutcome

  ghost predicate UnlostRun(c: Config, run: seq<World>, events: seq<Event>) {
    IsRun(c, run, events) && forall e | e in events :: NoLostWrite(e)
  }

  /** The two cleanups that hand reserved wallets back: the failing request's, and the
      watcher's for a bundle it takes as dropped. */
  predicate Releases(w: World, e: Event) {
    e.Release? || (e.SettleLegs? && w.watcher == SettlingLegs(NoneLanded))
  }

  /** A cleanup ran among the first `k` events. */
  ghost predicate ReleasedBy(run: seq<World>, events: seq<Event>, k: nat)
    requires k < |run| && |run| == |events| + 1
  {
    exists x | 0 <= x < k :: Releases(run[x], events[x])
  }

  // ---- who may still submit -------------------------------------------------

  /** Past the claim, and neither recorded nor given up yet. */
  predicate Pursues(w: World, i: nat) {
    ExecOf(w, i).Claimed? || ExecOf(w, i).Sent? || ExecOf(w, i).Erroring?
  }

  ghost predicate NobodyPursues(w: World) {
    forall i: nat :: !Pursues(w, i)
  }

  predicate Confirmed(w: World) {
    StatusIs(w, Landed) || StatusIs(w, Partial)
  }

  predicate Unclaimable(w: World) {
    StatusIs(w, Planned) || StatusIs(w, Submitted) || Confirmed(w)
  }

  /** One pursuer, none where the status has room for none. */
  ghost predicate PursuitOk(w: World) {
    && (forall i: nat, j: nat | Pursues(w, i) && Pursues(w, j) :: i == j)
    && (w.bundle.None? || Unclaimable(w) ==> NobodyPursues(w))
  }

  /** What the watcher holds is still so: while it acts on a submission, nobody can take it. */
  predicate WatchOk(w: World) {
    match w.watcher
    case Idle => true
    case Seen(_, _) => StatusIs(w, Submitted)
    case Rebidding(_) => w.bundle.Some?
    case Confirming(v, _) => w.bundle.Some? && (v != NoneLanded ==> StatusIs(w, Submitted))
    case Marking(v, _) => w.bundle.Some? && (v != NoneLanded ==> Confirmed(w))
    case SettlingLegs(v) => w.bundle.Some? && (v != NoneLanded ==> Confirmed(w)) && (v == NoneLanded ==> w.launch != Some(Created))
    case SettlingDev(_) => Confirmed(w)
  }

  /** Created is written once, and the watcher is done after settling it. */
  predicate CreatedOk(w: World) {
    w.launch == Some(Created) ==>
      Confirmed(w) && (w.watcher.Idle? || w.watcher.SettlingDev? || (w.watcher.SettlingLegs? && w.watcher.verdict != NoneLanded))
  }

  // ---- whose wallets --------------------------------------------------------

  predicate RequestOk(c: Config, w: World) {
    match w.request
    case Starting => w.bundle.None? && w.claimed == {}
    case ClaimingDev => w.bundle.None? && w.claimed == {}
    case Preparing => w.bundle.None? && w.claimed == {c.dev}
    case ClaimingLegs => w.bundle.None? && w.claimed == {c.dev}
    case Planning(legs) => w.bundle.None? && c.dev !in legs && w.claimed == legs + {c.dev}
    case _ => true
  }

  /** No cleanup yet: everything claimed is reserved until the watcher settles it as used. */
  predicate WalletsUnreleased(c: Config, w: World)
    requires WatchOk(w)
  {
    && !w.request.Failing?
    && (w.watcher.SettlingDev? || (w.watcher.SettlingLegs? && w.watcher.verdict != NoneLanded) ==> w.launch == Some(Created))
    && if w.watcher.SettlingDev? then AllAre(w.wallets, w.bundle.value.legs, Used) && AllAre(w.wallets, {c.dev}, Reserved)
       else if w.launch == Some(Created) && w.watcher.Idle? then ClaimedAre(w, Used)
       else ClaimedAre(w, Reserved)
  }

  predicate DevIs(c: Config, w: World, status: WalletStatus) {
    c.dev in w.wallets && w.wallets[c.dev] == status
  }

  /** After a cleanup the dev wallet is back in the pool, unless it was used before, and then
      the cleanup was the request's and the launch ends failed. */
  predicate WalletsReleased(c: Config, w: World) {
    if w.bundle.None? then w.request.Failing? || w.request.Answered?
    else
      || DevIs(c, w, Funded)
      || (&& DevIs(c, w, Used) && Confirmed(w) && w.watcher.Idle?
          && (w.request.Failing? || (w.request == Answered(false) && w.launch == Some(LaunchFailed))))
  }

  ghost predicate Inv(c: Config, w: World, released: bool) {
    && PursuitOk(w) && WatchOk(w) && CreatedOk(w) && RequestOk(c, w) && LegsOk(c, w)
    && (w.bundle.None? ==> w.watcher == Idle)
    && if released then WalletsReleased(c, w) else WalletsUnreleased(c, w)
  }

  // ---- kept by every step ---------------------------------------------------

  lemma ExecKeepsPursuit(w: World, i: nat, e: Event)
    requires w.bundle.Some? && PursuitOk(w) && OfExecutor(e) && e.i == i && NoLostWrite(e) && ExecStep(w, i, e).Some?
    ensures PursuitOk(ExecStep(w, i, e).value)
    ensures Confirmed(w) ==> Confirmed(ExecStep(w, i, e).value)
    ensures StatusIs(w, Submitted) ==> StatusIs(ExecStep(w, i, e).value, Submitted)
  {
    var after := ExecStep(w, i, e).value;
    assert forall j: nat | j != i :: ExecOf(after, j) == ExecOf(w, j);
    assert forall j: nat | j != i :: Pursues(after, j) == Pursues(w, j);
    assert Pursues(after, i) ==> Pursues(w, i) || e.Claim?;
    assert Pursues(w, i) ==> forall j: nat | j != i :: !Pursues(w, j);
  }

  lemma ExecKeeps(c: Config, w: World, e: Event, released: bool)
    requires Inv(c, w, released) && w.bundle.Some? && OfExecutor(e) && NoLostWrite(e) && ExecStep(w, e.i, e).Some?
    ensures Inv(c, ExecStep(w, e.i, e).value, released)
  {
    ExecKeepsPursuit(w, e.i, e);
  }

  lemma RequestKeepsPursuit(c: Config, w: World, e: Event)
    requires PursuitOk(w) && RequestOk(c, w) && OfRequest(e) && RequestStep(c, w, e).Some?
    ensures PursuitOk(RequestStep(c, w, e).value) && RequestOk(c, RequestStep(c, w, e).value)
  {
    var after := RequestStep(c, w, e).value;
    assert forall j: nat :: ExecOf(after, j) == ExecOf(w, j);
    assert forall j: nat :: Pursues(after, j) == Pursues(w, j);
  }

  lemma RequestKeepsUnreleased(c: Config, w: World, e: Event)
    requires Inv(c, w, false) && OfRequest(e) && !e.Release? && RequestStep(c, w, e).Some?
    ensures Inv(c, RequestStep(c, w, e).value, false)
  {
    RequestKeepsPursuit(c, w, e);
  }

  lemma RequestKeepsReleased(c: Config, w: World, e: Event)
    requires Inv(c, w, true) && OfRequest(e) && RequestStep(c, w, e).Some?
    ensures Inv(c, RequestStep(c, w, e).value, true)
  {
    RequestKeepsPursuit(c, w, e);
  }

  lemma ReleaseStarts(c: Config, w: World)
    requires Inv(c, w, false) && RequestStep(c, w, Release).Some?
    ensures Inv(c, RequestStep(c, w, Release).value, true)
  {
    RequestKeepsPursuit(c, w, Release);
    if w.bundle.Some? {
      assert c.dev in w.claimed;
    }
  }

  lemma WatcherKeepsPursuit(c: Config, w: World, e: Event)
    requires w.bundle.Some? && PursuitOk(w) && WatchOk(w) && NoLostWrite(e) && WatcherStep(c, w, e).Some?
    ensures PursuitOk(WatcherStep(c, w, e).value) && WatchOk(WatcherStep(c, w, e).value)
  {
    var after := WatcherStep(c, w, e).value;
    assert forall j: nat | j != WATCHER :: ExecOf(after, j) == ExecOf(w, j);
    assert ExecOf(after, WATCHER) == ExecOf(w, WATCHER) || ExecOf(after, WATCHER) == NotStarted;
    assert forall j: nat :: Pursues(after, j) ==> Pursues(w, j);
  }

  lemma WatcherKeepsUnreleased(c: Config, w: World, e: Event)
    requires Inv(c, w, false) && w.bundle.Some? && NoLostWrite(e) && WatcherStep(c, w, e).Some?
    requires !Releases(w, e)
    ensures Inv(c, WatcherStep(c, w, e).value, false)
  {
    WatcherKeepsPursuit(c, w, e);
  }

  lemma WatcherKeepsReleased(c: Config, w: World, e: Event, released: bool)
    requires Inv(c, w, released) && w.bundle.Some? && NoLostWrite(e) && WatcherStep(c, w, e).Some?
    requires released || Releases(w, e)
    ensures Inv(c, WatcherStep(c, w, e).value, true)
  {
    WatcherKeepsPursuit(c, w, e);
    assert c.dev in w.claimed;
  }

  lemma StepKeeps(c: Config, w: World, e: Event, released: bool)
    requires Inv(c, w, released) && NoLostWrite(e) && Next(c, w, e).Some?
    ensures Inv(c, Next(c, w, e).value, released || Releases(w, e))
  {
    if OfRequest(e) {
      if released {
        RequestKeepsReleased(c, w, e);
      } else if e.Release? {
        ReleaseStarts(c, w);
      } else {
        RequestKeepsUnreleased(c, w, e);
      }
    } else if OfExecutor(e) {
      ExecKeeps(c, w, e, released);
    } else if released || Releases(w, e) {
      WatcherKeepsReleased(c, w, e, released);
    } else {
      WatcherKeepsUnreleased(c, w, e);
    }
  }

  lemma {:induction false} RunKeeps(c: Config, run: seq<World>, events: seq<Event>, k: nat,
                                    wallets: map<nat, WalletStatus>)
    requires UnlostRun(c, run, events) && run[0] == Initial(wallets) && k < |run|
    ensures Inv(c, run[k], ReleasedBy(run, events, k))
  {
    if k == 0 {
      assert forall i: nat :: ExecOf(run[0], i) == NotStarted;
    } else {
      RunKeeps(c, run, events, k - 1, wallets);
      assert Next(c, run[k - 1], events[k - 1]) == Some(run[k - 1 + 1]);
      StepKeeps(c, run[k - 1], events[k - 1], ReleasedBy(run, events, k - 1));
      assert ReleasedBy(run, events, k) <==> ReleasedBy(run, events, k - 1) || Releases(run[k - 1], events[k - 1]);
    }
  }

  /** Whoever executes the bundle, as long as no write is lost: a created launch at rest has
      every wallet it claimed marked used exactly when no cleanup ran on the way. The request
      runs its cleanup when it cannot execute the bundle itself, though another executor
      holds it; the watcher runs the other when its re-bid finds the bundle taken. */
  lemma CreatedWalletsAreUsedIffNeverReleased(c: Config, run: seq<World>, events: seq<Event>, k: nat,
                                              wallets: map<nat, WalletStatus>)
    requires UnlostRun(c, run, events) && run[0] == Initial(wallets) && k < |run|
    requires AtRest(run[k]) && run[k].launch == Some(Created)
    ensures ClaimedAre(run[k], Used) <==> !ReleasedBy(run, events, k)
    ensures ReleasedBy(run, events, k) ==> DevIs(c, run[k], Funded) && c.dev in run[k].claimed
  {
    RunKeeps(c, run, events, k, wallets);
    assert run[k].bundle.Some?;
    assert c.dev in run[k].claimed;
  }
}
