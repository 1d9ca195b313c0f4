/** A bundle whose fate is written is never executed again, whoever tries. */
module LaunchDrops {
  import opened Metrics
  import opened LaunchProtocol
  import opened LaunchSafety
  import opened LaunchOutcome

  predicate StillRunning(w: World) {
    StatusIs(w, Planned) || StatusIs(w, Submitting) || StatusIs(w, Submitted)
  }

  /** The bundle's fate is written, the watcher is between passes, and nobody holds the claim. */
  ghost predicate Over(w: World) {
    w.bundle.Some? && !StillRunning(w) && w.watcher == Idle && !PlansYet(w) && NobodyHolds(w)
  }

  predicate Tries(e: Event) {
    e.ReadPlanned? || e.Claim?
  }

  lemma RequestKeepsOver(c: Config, w: World, e: Event)
    requires Over(w) && OfRequest(e) && RequestStep(c, w, e).Some?
    ensures var after := RequestStep(c, w, e).value;
            Over(after) && after.claims == w.claims && after.sends == w.sends
  {
    var after := RequestStep(c, w, e).value;
    assert forall j: nat :: HoldsClaim(after, j) == HoldsClaim(w, j);
  }

  lemma ExecKeepsOver(c: Config, w: World, e: Event)
    requires Over(w) && OfExecutor(e) && ExecStep(w, e.i, e).Some?
    ensures var after := ExecStep(w, e.i, e).value;
            && Over(after) && after.claims == w.claims && after.sends == w.sends
            && (Tries(e) ==> ExecOf(after, e.i) == Errored)
  {
    var after := ExecStep(w, e.i, e).value;
    assert forall j: nat | j != e.i :: HoldsClaim(after, j) == HoldsClaim(w, j);
    assert !HoldsClaim(w, e.i);
  }

  /** Only a re-bid makes a bundle planned again, and the watcher re-bids submitted ones only. */
  lemma StepKeepsOver(c: Config, w: World, e: Event)
    requires Over(w) && Next(c, w, e).Some?
    ensures var after := Next(c, w, e).value;
            && Over(after) && after.claims == w.claims && after.sends == w.sends
            && (Tries(e) ==> ExecOf(after, e.i) == Errored)
  {
    if OfRequest(e) {
      RequestKeepsOver(c, w, e);
    } else if OfExecutor(e) {
      ExecKeepsOver(c, w, e);
    }
  }

  lemma {:induction false} RunKeepsOver(c: Config, run: seq<World>, events: seq<Event>, k: nat)
    requires IsRun(c, run, events) && Over(run[0]) && k < |run|
    ensures Over(run[k]) && run[k].claims == run[0].claims && run[k].sends == run[0].sends
  {
    if k > 0 {
      RunKeepsOver(c, run, events, k - 1);
      assert Next(c, run[k - 1], events[k - 1]) == Some(run[k - 1 + 1]);
      StepKeepsOver(c, run[k - 1], events[k - 1]);
    }
  }

  /** Whatever happens after a fate is written, failed writes included: the bundle is not
      planned or submitted again, nothing more is claimed or sent, and whoever tries to
      execute it gets an error. */
  lemma FateIsFinal(c: Config, run: seq<World>, events: seq<Event>, k: nat)
    requires IsRun(c, run, events) && Over(run[0]) && k < |run|
    ensures !StillRunning(run[k]) && run[k].claims == run[0].claims && run[k].sends == run[0].sends
    ensures k < |events| && Tries(events[k]) ==> ExecOf(run[k + 1], events[k].i) == Errored
  {
    RunKeepsOver(c, run, events, k);
    if k < |events| {
      assert Next(c, run[k], events[k]) == Some(run[k + 1]);
      StepKeepsOver(c, run[k], events[k]);
    }
  }

  /** So a launch whose bundle was dropped leaves nothing to execute by hand. */
  lemma DroppedBundleCannotBeExecuted(c: Config, run: seq<World>, events: seq<Event>, wallets: map<nat, WalletStatus>,
                                      later: seq<World>, more: seq<Event>, k: nat)
    requires CleanRun(c, run, events) && run[0] == Initial(wallets)
    requires AtRest(run[|events|]) && StatusIs(run[|events|], Dropped)
    requires IsRun(c, later, more) && later[0] == run[|events|] && k < |later|
    ensures !StillRunning(later[k]) && later[k].claims == later[0].claims && later[k].sends == later[0].sends
    ensures k < |more| && Tries(more[k]) ==> ExecOf(later[k + 1], more[k].i) == Errored
  {
    LaunchOutcome.RunKeeps(c, run, events, |events|, wallets);
    NobodyHoldsAtRest(c, run[|events|]);
    FateIsFinal(c, later, more, k);
  }

  lemma NobodyHoldsAtRest(c: Config, w: World)
    requires LaunchOutcome.Inv(c, w) && AtRest(w) && StatusIs(w, Dropped)
    ensures Over(w)
  {
    forall j: nat
      ensures !HoldsClaim(w, j)
    {
      assert j == REQUEST || j == WATCHER || ExecOf(w, j) == NotStarted;
    }
  }
}
