/** How a launch ends when one request and the watcher drive it and every write succeeds. */
module LaunchOutcome {
  import opened Metrics
  import opened LaunchProtocol

  /** Only outside outcomes may fail. */
  predicate NoLostWrite(e: Event) {
    && !e.RecordFails? && !e.StampFails? && !e.MarkLost?
    && (e.ResetForRebid? || e.Confirm? || e.MarkLaunch? || e.SettleLegs? || e.SettleDev? ==> e.ok)
  }

  /** No third executor, no lost write. */
  predicate Clean(e: Event) {
    (OfExecutor(e) ==> e.i == WATCHER || e.i == REQUEST) && NoLostWrite(e)
  }

  // ---- what every clean run keeps -------------------------------------------

  predicate ClaimedAre(w: World, status: WalletStatus) {
    AllAre(w.wallets, w.claimed, status)
  }

  /** Not decided: the launch is pending and everything it claimed is still reserved. */
  predicate Open(w: World) {
    w.launch == Some(Pending) && w.exits == 0 && ClaimedAre(w, Reserved)
  }

  predicate Ended(w: World, status: LaunchStatus) {
    w.launch == Some(status) && w.exits == 1
  }

  predicate StatusIs(w: World, status: BundleStatus) {
    w.bundle.Some? && w.bundle.value.status == status
  }

  /** The bundle's wallets are exactly what the request claimed. */
  predicate LegsOk(c: Config, w: World) {
    w.bundle.Some? ==> c.dev !in w.bundle.value.legs && w.claimed == w.bundle.value.legs + {c.dev}
  }

  /** What the bundle's status is while the executor that holds the stage runs. */
  predicate StageOf(w: World, i: nat) {
    match ExecOf(w, i)
    case NotStarted => StatusIs(w, Planned)
    case Ready => StatusIs(w, Planned)
    case Claimed => StatusIs(w, Submitting)
    case Sent(_) => StatusIs(w, Submitting)
    case Erroring => StatusIs(w, Submitting)
    case Stamping(_) => StatusIs(w, Submitted)
    case Succeeded => StatusIs(w, Submitted)
    case Errored => StatusIs(w, Planned) || StatusIs(w, BundleFailed)
  }

  predicate Resting(e: Exec) {
    e == NotStarted || e == Succeeded || e == Errored
  }

  ghost predicate OnlyTwo(w: World) {
    forall i: nat | i != WATCHER && i != REQUEST :: ExecOf(w, i) == NotStarted
  }

  /** Before the request's executor has recorded a submission. */
  predicate BeforeHandover(c: Config, w: World) {
    && w.watcher == Idle && ExecOf(w, WATCHER) == NotStarted
    && match w.request
       case Starting => w.launch == None && w.claimed == {} && w.bundle == None && w.exits == 0 && ExecOf(w, REQUEST) == NotStarted
       case ClaimingDev => Open(w) && w.claimed == {} && w.bundle == None && ExecOf(w, REQUEST) == NotStarted
       case Preparing => Open(w) && w.claimed == {c.dev} && w.bundle == None && ExecOf(w, REQUEST) == NotStarted
       case ClaimingLegs => Open(w) && w.claimed == {c.dev} && w.bundle == None && ExecOf(w, REQUEST) == NotStarted
       case Planning(legs) => Open(w) && c.dev !in legs && w.claimed == legs + {c.dev} && w.bundle == None && ExecOf(w, REQUEST) == NotStarted
       case Looking => Open(w) && StatusIs(w, Planned) && ExecOf(w, REQUEST) == NotStarted
       case Executing => Open(w) && StageOf(w, REQUEST) && !ExecOf(w, REQUEST).Stamping? && ExecOf(w, REQUEST) != Succeeded
       case Releasing => Open(w) && !StatusIs(w, Submitted) && Resting(ExecOf(w, REQUEST))
       case Failing => w.launch == Some(Pending) && w.exits == 0 && ClaimedAre(w, Funded) && !StatusIs(w, Submitted) && Resting(ExecOf(w, REQUEST))
       case Answered(ok) => !ok && Ended(w, LaunchFailed) && ClaimedAre(w, Funded) && !StatusIs(w, Submitted) && Resting(ExecOf(w, REQUEST))
  }

  /** Afterwards the watcher alone decides. */
  predicate AfterHandover(c: Config, w: World) {
    && w.bundle.Some?
    && (w.request == Executing || w.request == Answered(true))
    && (ExecOf(w, REQUEST).Stamping? || ExecOf(w, REQUEST) == Succeeded)
    && (!w.watcher.Rebidding? ==> Resting(ExecOf(w, WATCHER)))
    && match w.watcher
       case Idle => (Open(w) && StatusIs(w, Submitted))
                    || (Ended(w, Created) && ClaimedAre(w, Used) && (StatusIs(w, Landed) || StatusIs(w, Partial)))
                    || (Ended(w, LaunchFailed) && ClaimedAre(w, Funded) && StatusIs(w, Dropped))
       case Seen(_, _) => Open(w) && StatusIs(w, Submitted)
       case Rebidding(_) => Open(w) && StageOf(w, WATCHER)
       case Confirming(v, _) => Open(w) && (StatusIs(w, Submitted) || (v == NoneLanded && !StatusIs(w, Submitting)))
       case Marking(v, _) => Open(w) && StatusIs(w, FinalStatus(v))
       case SettlingLegs(v) =>
         Ended(w, if v == NoneLanded then LaunchFailed else Created) && ClaimedAre(w, Reserved) && StatusIs(w, FinalStatus(v))
       case SettlingDev(v) =>
         v != NoneLanded && Ended(w, Created) && StatusIs(w, FinalStatus(v))
         && AllAre(w.wallets, w.bundle.value.legs, Used) && AllAre(w.wallets, {c.dev}, Reserved)
  }

  ghost predicate Inv(c: Config, w: World) {
    OnlyTwo(w) && LegsOk(c, w) && (BeforeHandover(c, w) || AfterHandover(c, w))
  }

  ghost predicate Before(c: Config, w: World) {
    OnlyTwo(w) && LegsOk(c, w) && BeforeHandover(c, w)
  }

  ghost predicate After(c: Config, w: World) {
    OnlyTwo(w) && LegsOk(c, w) && AfterHandover(c, w)
  }

  lemma RequestBeforeKeeps(c: Config, w: World, e: Event)
    requires Before(c, w) && OfRequest(e) && RequestStep(c, w, e).Some?
    ensures Before(c, RequestStep(c, w, e).value)
  {
    var after := RequestStep(c, w, e).value;
    assert forall i: nat :: ExecOf(after, i) == ExecOf(w, i);
  }

  lemma RequestAfterKeeps(c: Config, w: World, e: Event)
    requires After(c, w) && OfRequest(e) && RequestStep(c, w, e).Some?
    ensures After(c, RequestStep(c, w, e).value)
  {
    var after := RequestStep(c, w, e).value;
    assert forall i: nat :: ExecOf(after, i) == ExecOf(w, i);
  }

  lemma ExecBeforeKeeps(c: Config, w: World, e: Event)
    requires Before(c, w) && w.bundle.Some? && Clean(e) && OfExecutor(e) && ExecStep(w, e.i, e).Some?
    ensures Inv(c, ExecStep(w, e.i, e).value)
  {
    var after := ExecStep(w, e.i, e).value;
    assert forall j: nat | j != e.i :: ExecOf(after, j) == ExecOf(w, j);
  }

  lemma ExecAfterKeeps(c: Config, w: World, e: Event)
    requires After(c, w) && Clean(e) && OfExecutor(e) && ExecStep(w, e.i, e).Some?
    ensures After(c, ExecStep(w, e.i, e).value)
  {
    var after := ExecStep(w, e.i, e).value;
    assert forall j: nat | j != e.i :: ExecOf(after, j) == ExecOf(w, j);
  }

  lemma WatcherTouchesOnlyItself(c: Config, w: World, e: Event)
    requires OnlyTwo(w) && w.bundle.Some? && WatcherStep(c, w, e).Some?
    ensures OnlyTwo(WatcherStep(c, w, e).value)
    ensures ExecOf(WatcherStep(c, w, e).value, REQUEST) == ExecOf(w, REQUEST)
  {
    var after := WatcherStep(c, w, e).value;
    assert forall j: nat | j != WATCHER :: ExecOf(after, j) == ExecOf(w, j);
  }

  predicate Deciding(w: World) {
    w.watcher.Idle? || w.watcher.Seen? || w.watcher.Rebidding?
  }

  lemma WatcherDecides(c: Config, w: World, e: Event)
    requires After(c, w) && Deciding(w) && Clean(e) && WatcherStep(c, w, e).Some?
    ensures LegsOk(c, WatcherStep(c, w, e).value) && AfterHandover(c, WatcherStep(c, w, e).value)
  {
    WatcherTouchesOnlyItself(c, w, e);
  }

  lemma WatcherFinishes(c: Config, w: World, e: Event)
    requires After(c, w) && !Deciding(w) && Clean(e) && WatcherStep(c, w, e).Some?
    ensures LegsOk(c, WatcherStep(c, w, e).value) && AfterHandover(c, WatcherStep(c, w, e).value)
  {
    WatcherTouchesOnlyItself(c, w, e);
  }

  lemma WatcherStepKeeps(c: Config, w: World, e: Event)
    requires After(c, w) && Clean(e) && WatcherStep(c, w, e).Some?
    ensures After(c, WatcherStep(c, w, e).value)
  {
    WatcherTouchesOnlyItself(c, w, e);
    if Deciding(w) {
      WatcherDecides(c, w, e);
    } else {
      WatcherFinishes(c, w, e);
    }
  }

  lemma StepKeeps(c: Config, w: World, e: Event)
    requires Inv(c, w) && Clean(e) && Next(c, w, e).Some?
    ensures Inv(c, Next(c, w, e).value)
  {
    if Before(c, w) {
      if OfRequest(e) {
        RequestBeforeKeeps(c, w, e);
      } else if OfExecutor(e) {
        ExecBeforeKeeps(c, w, e);
      }
    } else if OfRequest(e) {
      RequestAfterKeeps(c, w, e);
    } else if OfExecutor(e) {
      ExecAfterKeeps(c, w, e);
    } else {
      WatcherStepKeeps(c, w, e);
    }
  }

  ghost predicate CleanRun(c: Config, run: seq<World>, events: seq<Event>) {
    IsRun(c, run, events) && forall e | e in events :: Clean(e)
  }

  lemma {:induction false} RunKeeps(c: Config, run: seq<World>, events: seq<Event>, k: nat,
                                    wallets: map<nat, WalletStatus>)
    requires CleanRun(c, run, events) && run[0] == Initial(wallets) && k < |run|
    ensures Inv(c, run[k])
  {
    if k > 0 {
      RunKeeps(c, run, events, k - 1, wallets);
      assert Next(c, run[k - 1], events[k - 1]) == Some(run[k - 1 + 1]);
      StepKeeps(c, run[k - 1], events[k - 1]);
    }
  }

  /** The request has answered and the watcher is between passes. */
  predicate AtRest(w: World) {
    w.request.Answered? && w.watcher == Idle
  }

  /** A launch leaves pending at most once. At rest, created means every wallet it claimed is
      used, failed means every one is back to funded, and pending means the bundle is still
      submitted, so the watcher will see it again: nothing is stranded. */
  lemma LaunchEndsOnce(c: Config, run: seq<World>, events: seq<Event>, k: nat, wallets: map<nat, WalletStatus>)
    requires CleanRun(c, run, events) && run[0] == Initial(wallets) && k < |run|
    ensures run[k].exits <= 1
    ensures AtRest(run[k]) ==>
              match run[k].launch
              case None => false
              case Some(Pending) => Next(c, run[k], See).Some? && ClaimedAre(run[k], Reserved)
              case Some(Created) => ClaimedAre(run[k], Used)
              case Some(LaunchFailed) => ClaimedAre(run[k], Funded)
  {
    RunKeeps(c, run, events, k, wallets);
  }

  /** Whoever holds the claim finds every leg still reserved to the launch. */
  lemma ReservationCheckPasses(c: Config, run: seq<World>, events: seq<Event>, k: nat,
                               wallets: map<nat, WalletStatus>, i: nat)
    requires CleanRun(c, run, events) && run[0] == Initial(wallets) && k < |run|
    requires ExecOf(run[k], i).Claimed?
    ensures run[k].bundle.Some? && AllAre(run[k].wallets, run[k].bundle.value.legs, Reserved)
  {
    RunKeeps(c, run, events, k, wallets);
  }

  /** What the watcher has left to do, each write going through. */
  function NextOf(w: World): Event {
    match w.watcher
    case Rebidding(_) => RebidDone
    case Confirming(_, _) => Confirm(true)
    case Marking(_, _) => MarkLaunch(true)
    case SettlingLegs(_) => SettleLegs(true)
    case _ => SettleDev(true)
  }

  function Continue(c: Config, w: World, steps: nat): Option<World>
    decreases steps
  {
    if steps == 0 then Some(w)
    else
      var after := Next(c, w, NextOf(w));
      if after.None? then None else Continue(c, after.value, steps - 1)
  }

  lemma SettlingEnds(c: Config, w: World)
    requires After(c, w) && w.watcher == SettlingLegs(NoneLanded)
    ensures var end := Continue(c, w, 1);
            end.Some? && end.value.launch == Some(LaunchFailed) && ClaimedAre(end.value, Funded) && end.value.watcher == Idle
  {
    var end := Next(c, w, SettleLegs(true)).value;
    WatcherStepKeeps(c, w, SettleLegs(true));
    assert Continue(c, end, 0) == Some(end);
  }

  lemma MarkingEnds(c: Config, w: World)
    requires After(c, w) && w.watcher.Marking? && w.watcher.verdict == NoneLanded
    ensures var end := Continue(c, w, 2);
            end.Some? && end.value.launch == Some(LaunchFailed) && ClaimedAre(end.value, Funded) && end.value.watcher == Idle
  {
    WatcherStepKeeps(c, w, MarkLaunch(true));
    SettlingEnds(c, Next(c, w, MarkLaunch(true)).value);
  }

  lemma ConfirmingEnds(c: Config, w: World)
    requires After(c, w) && w.watcher.Confirming? && w.watcher.verdict == NoneLanded
    ensures var end := Continue(c, w, 3);
            end.Some? && end.value.launch == Some(LaunchFailed) && ClaimedAre(end.value, Funded) && end.value.watcher == Idle
  {
    WatcherStepKeeps(c, w, Confirm(true));
    MarkingEnds(c, Next(c, w, Confirm(true)).value);
  }

  /** A re-bid that cannot resubmit still ends the launch: the watcher's next four steps fail
      it and hand every wallet back, though the bundle is no longer one it would look at. */
  lemma FailedRebidStillEnds(c: Config, run: seq<World>, events: seq<Event>, k: nat, wallets: map<nat, WalletStatus>)
    requires CleanRun(c, run, events) && run[0] == Initial(wallets) && k < |run|
    requires run[k].watcher.Rebidding? && ExecOf(run[k], WATCHER) == Errored
    ensures var end := Continue(c, run[k], 4);
            end.Some? && end.value.launch == Some(LaunchFailed) && ClaimedAre(end.value, Funded) && end.value.watcher == Idle
  {
    RunKeeps(c, run, events, k, wallets);
    WatcherStepKeeps(c, run[k], RebidDone);
    ConfirmingEnds(c, Next(c, run[k], RebidDone).value);
  }
}
