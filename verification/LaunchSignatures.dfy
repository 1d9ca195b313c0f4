/** Which create signature a created launch carries, when one request and the watcher drive it:
    the submission is recorded before the launch is stamped, and the watcher writes back what
    it read. */
module LaunchSignatures {
  import opened Metrics
  import opened LaunchProtocol
  import opened LaunchOutcome

  /** The worlds the watcher last read the rows in, last wrote the launch's outcome in, and
      last stamped a re-bid in. */
  datatype Trace = Trace(seen: Option<World>, marked: Option<World>, rebid: Option<World>)

  const NO_TRACE := Trace(None, None, None)

  function TraceAfter(w: World, e: Event, t: Trace): Trace {
    if e.See? then t.(seen := Some(w))
    else if e.MarkLaunch? then t.(marked := Some(w))
    else if e == Stamp(WATCHER) then t.(rebid := Some(w))
    else t
  }

  /** After the first `k` events. */
  function TraceOf(run: seq<World>, events: seq<Event>, k: nat): Trace
    requires k < |run| && |run| == |events| + 1
  {
    if k == 0 then NO_TRACE else TraceAfter(run[k - 1], events[k - 1], TraceOf(run, events, k - 1))
  }

  /** The request has recorded its submission and not stamped the launch yet. */
  predicate Unstamped(w: World) {
    ExecOf(w, REQUEST).Stamping?
  }

  /** The request has submitted; from here the watcher alone decides. */
  predicate HandedOver(w: World) {
    Unstamped(w) || ExecOf(w, REQUEST) == Succeeded
  }

  predicate Carries(w: World) {
    w.bundle.Some? && w.signature == w.bundle.value.signature
  }

  // ---- what every clean run keeps -------------------------------------------

  /** The first submission is the request's, the later ones the watcher's. */
  predicate SendsOk(w: World) {
    && (match ExecOf(w, REQUEST)
        case NotStarted => w.sends == 0
        case Ready => w.sends == 0
        case Claimed => w.sends == 0
        case Sent(s) => s == 1 == w.sends
        case Stamping(s) => s == 1 <= w.sends
        case Succeeded => w.sends >= 1
        case _ => true)
    && (match ExecOf(w, WATCHER)
        case Sent(s) => s >= 2
        case Stamping(s) => s >= 2
        case _ => true)
  }

  /** The bundle carries the last recorded submission: the request's, or a re-bid's. */
  predicate BundleSignatureOk(w: World) {
    w.bundle.Some? && HandedOver(w) ==>
      && (w.resets == 0 ==> w.bundle.value.signature == 1)
      && (w.resets > 0 && (StatusIs(w, Submitted) || StatusIs(w, Landed) || StatusIs(w, Partial)) ==> w.bundle.value.signature >= 2)
  }

  predicate PendingSignatureOk(w: World) {
    && (w.bundle.Some? && w.resets == 0 && w.launch == Some(Pending) ==>
          w.signature == if ExecOf(w, REQUEST) == Succeeded then 1 else 0)
    && (!HandedOver(w) ==> w.signature == 0 && w.resets == 0)
  }

  /** `seen` is a moment of the same submission: only the request's stamp may have come since. */
  predicate SameSubmission(seen: World, w: World) {
    && seen.bundle.Some? && w.bundle.Some?
    && seen.bundle.value.signature == w.bundle.value.signature && seen.resets == w.resets
    && HandedOver(seen) && (Unstamped(w) ==> Unstamped(seen))
    && (seen.resets == 0 ==> seen.signature == if Unstamped(seen) then 0 else 1)
  }

  /** What the watcher will write back is what it read. */
  predicate ReadOk(w: World, seen: Option<World>) {
    match w.watcher
    case Seen(_, signature) => seen.Some? && SameSubmission(seen.value, w) && signature == seen.value.signature
    case Confirming(v, signature) => v != NoneLanded ==> seen.Some? && SameSubmission(seen.value, w) && signature == seen.value.signature
    case Marking(v, signature) => v != NoneLanded ==> seen.Some? && SameSubmission(seen.value, w) && signature == seen.value.signature
    case Rebidding(_) => w.resets > 0
    case _ => true
  }

  /** A created launch carries what the watcher wrote back, or the stamp that came after. */
  predicate CreatedSignatureOk(w: World, t: Trace) {
    w.launch == Some(Created) ==>
      && t.seen.Some? && t.marked.Some? && SameSubmission(t.seen.value, w) && HandedOver(t.marked.value)
      && (Unstamped(t.marked.value) ==> Unstamped(t.seen.value)) && (Unstamped(w) ==> Unstamped(t.marked.value))
      && w.signature == if Unstamped(t.marked.value) && !Unstamped(w) then 1 else t.seen.value.signature
  }

  predicate SignaturesOk(w: World, t: Trace) {
    && SendsOk(w) && BundleSignatureOk(w) && PendingSignatureOk(w) && ReadOk(w, t.seen) && CreatedSignatureOk(w, t)
    && (w.request == Answered(true) ==> ExecOf(w, REQUEST) == Succeeded)
  }

  ghost predicate Kept(c: Config, w: World, t: Trace) {
    Inv(c, w) && SignaturesOk(w, t)
  }

  lemma RequestLeavesSignaturesAlone(c: Config, w: World, e: Event)
    requires Inv(c, w) && OfRequest(e) && RequestStep(c, w, e).Some?
    ensures var after := RequestStep(c, w, e).value;
            && after.execs == w.execs && after.signature == w.signature && after.sends == w.sends && after.resets == w.resets
            && after.watcher == w.watcher
            && (after.bundle == w.bundle || (Before(c, w) && Before(c, after)))
            && (after.launch == w.launch || (Before(c, w) && Before(c, after)))
            && (after.request == Answered(true) && w.request != Answered(true) ==> ExecOf(w, REQUEST) == Succeeded)
  {
    var after := RequestStep(c, w, e).value;
    if Before(c, w) {
      RequestBeforeKeeps(c, w, e);
    }
  }

  lemma RequestKeepsSignatures(c: Config, w: World, e: Event, t: Trace)
    requires Kept(c, w, t) && OfRequest(e) && RequestStep(c, w, e).Some?
    ensures SignaturesOk(RequestStep(c, w, e).value, t)
  {
    RequestLeavesSignaturesAlone(c, w, e);
    var after := RequestStep(c, w, e).value;
    assert ExecOf(after, REQUEST) == ExecOf(w, REQUEST) && ExecOf(after, WATCHER) == ExecOf(w, WATCHER);
  }

  /** Before the handover nothing is signed, read or decided. */
  lemma RequestSubmits(c: Config, w: World, e: Event, t: Trace)
    requires Kept(c, w, t) && !HandedOver(w) && w.bundle.Some?
    requires OfExecutor(e) && e.i == REQUEST && Clean(e) && ExecStep(w, REQUEST, e).Some?
    ensures SignaturesOk(ExecStep(w, REQUEST, e).value, t)
  {
    var after := ExecStep(w, REQUEST, e).value;
    assert ExecOf(after, WATCHER) == ExecOf(w, WATCHER);
    assert Before(c, w);
  }

  lemma RequestStamps(c: Config, w: World, e: Event, t: Trace)
    requires Kept(c, w, t) && HandedOver(w) && w.bundle.Some?
    requires OfExecutor(e) && e.i == REQUEST && Clean(e) && ExecStep(w, REQUEST, e).Some?
    ensures SignaturesOk(ExecStep(w, REQUEST, e).value, t)
  {
    var after := ExecStep(w, REQUEST, e).value;
    assert ExecOf(after, WATCHER) == ExecOf(w, WATCHER);
    assert Unstamped(w) && e.Stamp? && after.signature == 1 && after.bundle == w.bundle && after.watcher == w.watcher;
  }

  lemma WatcherExecutesOnlyRebids(c: Config, w: World, e: Event)
    requires Inv(c, w) && w.bundle.Some? && OfExecutor(e) && e.i == WATCHER && ExecStep(w, WATCHER, e).Some?
    ensures After(c, w) && w.watcher.Rebidding? && w.launch == Some(Pending)
  {
  }

  lemma RebidSubmits(c: Config, w: World, e: Event, t: Trace)
    requires Kept(c, w, t) && w.bundle.Some?
    requires OfExecutor(e) && e.i == WATCHER && Clean(e) && ExecStep(w, WATCHER, e).Some?
    ensures SignaturesOk(ExecStep(w, WATCHER, e).value, t)
  {
    WatcherExecutesOnlyRebids(c, w, e);
    var after := ExecStep(w, WATCHER, e).value;
    assert ExecOf(after, REQUEST) == ExecOf(w, REQUEST);
    assert after.resets == w.resets > 0 && after.watcher == w.watcher && after.launch == w.launch;
  }

  lemma ExecKeepsSignatures(c: Config, w: World, e: Event, t: Trace)
    requires Kept(c, w, t) && w.bundle.Some? && OfExecutor(e) && Clean(e) && ExecStep(w, e.i, e).Some?
    ensures SignaturesOk(ExecStep(w, e.i, e).value, t)
  {
    if e.i == WATCHER {
      RebidSubmits(c, w, e, t);
    } else if HandedOver(w) {
      RequestStamps(c, w, e, t);
    } else {
      RequestSubmits(c, w, e, t);
    }
  }

  lemma WatcherReads(c: Config, w: World, e: Event, t: Trace)
    requires Kept(c, w, t) && w.bundle.Some? && Deciding(w)
    requires !OfRequest(e) && !OfExecutor(e) && Clean(e) && WatcherStep(c, w, e).Some?
    ensures SignaturesOk(WatcherStep(c, w, e).value, TraceAfter(w, e, t))
  {
    var after := WatcherStep(c, w, e).value;
    assert After(c, w) && w.launch == Some(Pending);
    assert ExecOf(after, REQUEST) == ExecOf(w, REQUEST);
    assert ExecOf(after, WATCHER) == ExecOf(w, WATCHER) || ExecOf(after, WATCHER) == NotStarted;
  }

  lemma WatcherWrites(c: Config, w: World, e: Event, t: Trace)
    requires Kept(c, w, t) && w.bundle.Some? && !Deciding(w)
    requires !OfRequest(e) && !OfExecutor(e) && Clean(e) && WatcherStep(c, w, e).Some?
    ensures SignaturesOk(WatcherStep(c, w, e).value, TraceAfter(w, e, t))
  {
    var after := WatcherStep(c, w, e).value;
    assert After(c, w) && after.execs == w.execs;
  }

  lemma StepKeepsSignatures(c: Config, w: World, e: Event, t: Trace)
    requires Kept(c, w, t) && Clean(e) && Next(c, w, e).Some?
    ensures SignaturesOk(Next(c, w, e).value, TraceAfter(w, e, t))
  {
    if OfRequest(e) {
      RequestKeepsSignatures(c, w, e, t);
    } else if OfExecutor(e) {
      ExecKeepsSignatures(c, w, e, t);
    } else if Deciding(w) {
      WatcherReads(c, w, e, t);
    } else {
      WatcherWrites(c, w, e, t);
    }
  }

  // ---- after a re-bid -------------------------------------------------------

  /** The launch carries the re-bid's signature, unless the request's late stamp fell on it. */
  predicate RebidStamped(w: World, rebid: Option<World>) {
    w.resets > 0 ==>
      && w.bundle.Some? && rebid.Some? && HandedOver(rebid.value) && (Unstamped(w) ==> Unstamped(rebid.value))
      && w.signature == if Unstamped(rebid.value) && !Unstamped(w) then 1 else w.bundle.value.signature
  }

  predicate SeenStamped(t: Trace) {
    t.seen.Some? && RebidStamped(t.seen.value, t.rebid)
  }

  predicate RebidStampOk(w: World, rebid: Option<World>) {
    match ExecOf(w, WATCHER)
    case Stamping(s) => w.bundle.Some? && w.bundle.value.signature == s
    case Succeeded => RebidStamped(w, rebid)
    case _ => true
  }

  predicate RebidsOk(w: World, t: Trace) {
    && (w.launch == Some(Created) ==> SeenStamped(t))
    && match w.watcher
       case Idle => HandedOver(w) && w.launch == Some(Pending) ==> RebidStamped(w, t.rebid)
       case Seen(_, _) => SeenStamped(t) && RebidStamped(w, t.rebid)
       case Rebidding(_) => RebidStampOk(w, t.rebid)
       case Confirming(v, _) => v != NoneLanded ==> SeenStamped(t)
       case Marking(v, _) => v != NoneLanded ==> SeenStamped(t)
       case _ => true
  }

  lemma RequestKeepsRebids(c: Config, w: World, e: Event, t: Trace)
    requires Kept(c, w, t) && RebidsOk(w, t) && OfRequest(e) && RequestStep(c, w, e).Some?
    ensures RebidsOk(RequestStep(c, w, e).value, t)
  {
    var after := RequestStep(c, w, e).value;
    assert ExecOf(after, REQUEST) == ExecOf(w, REQUEST) && ExecOf(after, WATCHER) == ExecOf(w, WATCHER);
  }

  lemma RequestStampKeepsRebids(c: Config, w: World, e: Event, t: Trace)
    requires Kept(c, w, t) && RebidsOk(w, t) && w.bundle.Some?
    requires OfExecutor(e) && e.i == REQUEST && Clean(e) && ExecStep(w, REQUEST, e).Some?
    ensures RebidsOk(ExecStep(w, REQUEST, e).value, t)
  {
    var after := ExecStep(w, REQUEST, e).value;
    assert ExecOf(after, WATCHER) == ExecOf(w, WATCHER);
    assert HandedOver(w) ==> Unstamped(w) && e.Stamp? && after.signature == 1;
    assert !HandedOver(w) ==> Before(c, w) && after.resets == 0;
  }

  lemma RebidStepKeepsRebids(c: Config, w: World, e: Event, t: Trace)
    requires Kept(c, w, t) && RebidsOk(w, t) && w.bundle.Some?
    requires OfExecutor(e) && e.i == WATCHER && Clean(e) && ExecStep(w, WATCHER, e).Some?
    ensures RebidsOk(ExecStep(w, WATCHER, e).value, TraceAfter(w, e, t))
  {
    WatcherExecutesOnlyRebids(c, w, e);
    var after := ExecStep(w, WATCHER, e).value;
    assert ExecOf(after, REQUEST) == ExecOf(w, REQUEST);
    assert after.watcher == w.watcher && after.launch == w.launch;
  }

  lemma ExecKeepsRebids(c: Config, w: World, e: Event, t: Trace)
    requires Kept(c, w, t) && RebidsOk(w, t) && w.bundle.Some?
    requires OfExecutor(e) && Clean(e) && ExecStep(w, e.i, e).Some?
    ensures RebidsOk(ExecStep(w, e.i, e).value, TraceAfter(w, e, t))
  {
    if e.i == WATCHER {
      RebidStepKeepsRebids(c, w, e, t);
    } else {
      RequestStampKeepsRebids(c, w, e, t);
    }
  }

  lemma WatcherKeepsRebids(c: Config, w: World, e: Event, t: Trace)
    requires Kept(c, w, t) && RebidsOk(w, t) && w.bundle.Some?
    requires !OfRequest(e) && !OfExecutor(e) && Clean(e) && WatcherStep(c, w, e).Some?
    ensures RebidsOk(WatcherStep(c, w, e).value, TraceAfter(w, e, t))
  {
    var after := WatcherStep(c, w, e).value;
    assert ExecOf(after, REQUEST) == ExecOf(w, REQUEST);
    assert ExecOf(after, WATCHER) == ExecOf(w, WATCHER) || ExecOf(after, WATCHER) == NotStarted;
  }

  // ---- over a run -----------------------------------------------------------

  ghost predicate Traced(c: Config, w: World, t: Trace) {
    Kept(c, w, t) && RebidsOk(w, t)
  }

  lemma StepKeepsRebids(c: Config, w: World, e: Event, t: Trace)
    requires Traced(c, w, t) && Clean(e) && Next(c, w, e).Some?
    ensures RebidsOk(Next(c, w, e).value, TraceAfter(w, e, t))
  {
    if OfRequest(e) {
      RequestKeepsRebids(c, w, e, t);
    } else if OfExecutor(e) {
      ExecKeepsRebids(c, w, e, t);
    } else {
      WatcherKeepsRebids(c, w, e, t);
    }
  }

  lemma StepKeepsTraced(c: Config, w: World, e: Event, after: World, t: Trace)
    requires Traced(c, w, t) && Clean(e) && Next(c, w, e) == Some(after)
    ensures Traced(c, after, TraceAfter(w, e, t))
  {
    StepKeeps(c, w, e);
    StepKeepsSignatures(c, w, e, t);
    StepKeepsRebids(c, w, e, t);
  }

  lemma CleanStep(c: Config, run: seq<World>, events: seq<Event>, k: nat)
    requires CleanRun(c, run, events) && 0 < k < |run|
    ensures Clean(events[k - 1]) && Next(c, run[k - 1], events[k - 1]) == Some(run[k])
  {
    assert events[k - 1] in events;
    assert Next(c, run[k - 1], events[k - 1]) == Some(run[k - 1 + 1]);
  }

  lemma StartsTraced(c: Config, wallets: map<nat, WalletStatus>)
    ensures Traced(c, Initial(wallets), NO_TRACE)
  {
  }

  lemma {:induction false} RunKeepsTraced(c: Config, run: seq<World>, events: seq<Event>, k: nat,
                                          wallets: map<nat, WalletStatus>)
    requires CleanRun(c, run, events) && run[0] == Initial(wallets) && k < |run|
    ensures Traced(c, run[k], TraceOf(run, events, k))
  {
    if k == 0 {
      StartsTraced(c, wallets);
    } else {
      RunKeepsTraced(c, run, events, k - 1, wallets);
      CleanStep(c, run, events, k);
      StepKeepsTraced(c, run[k - 1], events[k - 1], run[k], TraceOf(run, events, k - 1));
    }
  }

  lemma CreatedAtRest(c: Config, w: World, t: Trace)
    requires Traced(c, w, t) && AtRest(w) && w.launch == Some(Created)
    ensures t.seen.Some? && t.marked.Some? && (w.resets > 0 ==> t.rebid.Some?)
    ensures Carries(w) <==> if Unstamped(t.marked.value) then w.resets == 0 else Carries(t.seen.value)
    ensures w.resets == 0 ==> (!Carries(w) <==> Unstamped(t.seen.value) && !Unstamped(t.marked.value))
    ensures w.resets > 0 ==> (!Carries(w) <==> Unstamped(t.rebid.value) && (Unstamped(t.marked.value) || !Unstamped(t.seen.value)))
  {
  }

  /** A created launch at rest carries its bundle's create signature exactly when the watcher
      had read it there already; or, when the request's stamp was still to come after the
      watcher's write, exactly when nothing was re-bid, so that the stamp puts it right. */
  lemma CreatedCarriesItsSignatureIff(c: Config, run: seq<World>, events: seq<Event>, k: nat,
                                      wallets: map<nat, WalletStatus>)
    requires CleanRun(c, run, events) && run[0] == Initial(wallets) && k < |run|
    requires AtRest(run[k]) && run[k].launch == Some(Created)
    ensures var t := TraceOf(run, events, k);
            && t.seen.Some? && t.marked.Some?
            && (Carries(run[k]) <==> if Unstamped(t.marked.value) then run[k].resets == 0 else Carries(t.seen.value))
  {
    RunKeepsTraced(c, run, events, k, wallets);
    CreatedAtRest(c, run[k], TraceOf(run, events, k));
  }

  /** It is a matter of order alone. Without a re-bid the signature is lost exactly when the
      request stamps the launch between the watcher's read and the watcher's write. After one
      it is lost exactly when the request's stamp, of the first submission, comes after the
      re-bid's own; unless it falls between that read and that write, which then undoes it. */
  lemma SignatureLostIffStampedOutOfTurn(c: Config, run: seq<World>, events: seq<Event>, k: nat,
                                         wallets: map<nat, WalletStatus>)
    requires CleanRun(c, run, events) && run[0] == Initial(wallets) && k < |run|
    requires AtRest(run[k]) && run[k].launch == Some(Created)
    ensures var t := TraceOf(run, events, k);
            && t.seen.Some? && t.marked.Some? && (run[k].resets > 0 ==> t.rebid.Some?)
            && (!Carries(run[k]) <==>
                  if run[k].resets == 0 then Unstamped(t.seen.value) && !Unstamped(t.marked.value)
                  else Unstamped(t.rebid.value) && (Unstamped(t.marked.value) || !Unstamped(t.seen.value)))
  {
    RunKeepsTraced(c, run, events, k, wallets);
    CreatedAtRest(c, run[k], TraceOf(run, events, k));
  }
}
