/** One claim at a time and a bounded number of submissions, over every interleaving of any
    number of executors with the request and the watcher, failed writes included. */
module LaunchSafety {
  import opened Metrics
  import opened LaunchProtocol

  /** Between winning the claim and recording the submission. */
  predicate HoldsClaim(w: World, i: nat) {
    ExecOf(w, i).Claimed? || ExecOf(w, i).Sent?
  }

  ghost predicate NobodyHolds(w: World) {
    forall i: nat :: !HoldsClaim(w, i)
  }

  ghost predicate OneHolder(w: World) {
    forall i: nat, j: nat | HoldsClaim(w, i) && HoldsClaim(w, j) :: i == j
  }

  function Retries(c: Config): nat {
    if c.retries.Some? then c.retries.value else 0
  }

  ghost predicate NothingYet(w: World) {
    && w.claims == 0 && w.sends == 0 && w.resets == 0 && w.watcher == Idle
    && forall i: nat :: ExecOf(w, i) == NotStarted
  }

  predicate CountsOk(c: Config, w: World)
    requires w.bundle.Some?
  {
    var b := w.bundle.value;
    && w.claims + (if b.status == Planned then 1 else 0) <= 1 + w.resets
    && w.sends <= w.claims
    && w.resets <= Retries(c)
    && w.resets <= b.attempts
    && (b.status == Submitted ==> w.resets + 1 <= b.attempts)
  }

  ghost predicate ClaimsOk(w: World)
    requires w.bundle.Some?
  {
    var b := w.bundle.value;
    && OneHolder(w)
    && (b.status == Planned || b.status == Submitted ==> NobodyHolds(w))
    && (forall i: nat | ExecOf(w, i).Claimed? :: w.sends + 1 <= w.claims)
  }

  ghost predicate SeenOk(w: World)
    requires w.bundle.Some?
  {
    w.watcher.Seen? ==> w.bundle.value.status != Planned && NobodyHolds(w) && w.resets + 1 <= w.watcher.attempts <= w.bundle.value.attempts
  }

  /** The request has not planned its bundle yet. */
  predicate PlansYet(w: World) {
    w.request.Starting? || w.request.ClaimingDev? || w.request.Preparing? || w.request.ClaimingLegs? || w.request.Planning?
  }

  ghost predicate Inv(c: Config, w: World) {
    if w.bundle.None? then NothingYet(w) else !PlansYet(w) && CountsOk(c, w) && ClaimsOk(w) && SeenOk(w)
  }

  lemma ExecStepKeeps(c: Config, w: World, i: nat, e: Event)
    requires Inv(c, w) && w.bundle.Some? && OfExecutor(e) && e.i == i && ExecStep(w, i, e).Some?
    ensures Inv(c, ExecStep(w, i, e).value)
  {
    var after := ExecStep(w, i, e).value;
    assert forall j: nat | j != i :: ExecOf(after, j) == ExecOf(w, j);
    assert forall j: nat | j != i :: HoldsClaim(after, j) == HoldsClaim(w, j);
    assert HoldsClaim(after, i) ==> HoldsClaim(w, i) || e.Claim?;
    assert HoldsClaim(w, i) ==> forall j: nat | j != i :: !HoldsClaim(w, j);
    assert forall j: nat | ExecOf(after, j).Claimed? :: HoldsClaim(after, j);
  }

  lemma RequestStepKeeps(c: Config, w: World, e: Event)
    requires Inv(c, w) && OfRequest(e) && RequestStep(c, w, e).Some?
    ensures Inv(c, RequestStep(c, w, e).value)
  {
    var after := RequestStep(c, w, e).value;
    assert forall j: nat :: ExecOf(after, j) == ExecOf(w, j);
    assert forall j: nat :: HoldsClaim(after, j) == HoldsClaim(w, j);
  }

  lemma WatcherTakesNoClaim(c: Config, w: World, e: Event)
    requires w.bundle.Some? && WatcherStep(c, w, e).Some?
    ensures forall j: nat :: HoldsClaim(WatcherStep(c, w, e).value, j) ==> HoldsClaim(w, j)
    ensures forall j: nat :: ExecOf(WatcherStep(c, w, e).value, j).Claimed? ==> ExecOf(w, j).Claimed?
  {
    var after := WatcherStep(c, w, e).value;
    assert forall j: nat | j != WATCHER :: ExecOf(after, j) == ExecOf(w, j);
    assert ExecOf(after, WATCHER) == ExecOf(w, WATCHER) || ExecOf(after, WATCHER) == NotStarted;
  }

  lemma WatcherStepKeeps(c: Config, w: World, e: Event)
    requires Inv(c, w) && w.bundle.Some? && WatcherStep(c, w, e).Some?
    ensures Inv(c, WatcherStep(c, w, e).value)
  {
    WatcherTakesNoClaim(c, w, e);
  }

  lemma StepKeeps(c: Config, w: World, e: Event)
    requires Inv(c, w) && Next(c, w, e).Some?
    ensures Inv(c, Next(c, w, e).value)
  {
    if OfRequest(e) {
      RequestStepKeeps(c, w, e);
    } else if OfExecutor(e) {
      ExecStepKeeps(c, w, e.i, e);
    } else {
      WatcherStepKeeps(c, w, e);
    }
  }

  lemma {:induction false} RunKeeps(c: Config, run: seq<World>, events: seq<Event>, k: nat,
                                    wallets: map<nat, WalletStatus>)
    requires IsRun(c, run, events) && run[0] == Initial(wallets) && k < |run|
    ensures Inv(c, run[k])
  {
    if k > 0 {
      RunKeeps(c, run, events, k - 1, wallets);
      assert Next(c, run[k - 1], events[k - 1]) == Some(run[k - 1 + 1]);
      StepKeeps(c, run[k - 1], events[k - 1]);
    }
  }

  /** At every moment of every run, whoever executes the bundle and whichever writes fail: at
      most one executor is past the claim and not yet recorded, each planned status is
      claimed at most once, and the bundle was submitted at most once more than the
      configured retries. */
  lemma SubmissionsAreBounded(c: Config, run: seq<World>, events: seq<Event>, k: nat, wallets: map<nat, WalletStatus>)
    requires IsRun(c, run, events) && run[0] == Initial(wallets) && k < |run|
    ensures OneHolder(run[k])
    ensures run[k].claims <= 1 + run[k].resets
    ensures run[k].sends <= 1 + Retries(c)
  {
    RunKeeps(c, run, events, k, wallets);
  }
}
