/** One atomic launch: the request that plans and submits it, any number of other executors,
    and the watcher that confirms it, as interleaved steps over the shared rows. Each event
    is one repository write or one outside outcome. */
module LaunchProtocol {
  import opened Metrics

  datatype BundleStatus = Planned | Submitting | Submitted | BundleFailed | Landed | Dropped | Partial

  datatype LaunchStatus = Pending | Created | LaunchFailed

  /** `Reserved` is to this launch; a wallet any other launch holds is `Elsewhere`. */
  datatype WalletStatus = Funded | Reserved | Used | Elsewhere

  /** `signature` is the create leg of the last submission recorded; 0 stands for none. */
  datatype Bundle = Bundle(status: BundleStatus, attempts: nat, legs: set<nat>, signature: nat)

  /** Where one executor is: past the status read, holding the claim, sent, recorded. */
  datatype Exec = NotStarted | Ready | Claimed | Sent(signature: nat) | Stamping(signature: nat) | Erroring | Succeeded | Errored

  datatype RequestAt =
    | Starting | ClaimingDev | Preparing | ClaimingLegs | Planning(legs: set<nat>) | Looking | Executing
    | Releasing | Failing | Answered(ok: bool)

  datatype Verdict = AllLanded | NoneLanded | SomeLanded

  /** The watcher decides on the rows it read: the attempts and the launch's signature. */
  datatype WatcherAt =
    | Idle
    | Seen(attempts: nat, signature: nat)
    | Rebidding(signature: nat)
    | Confirming(verdict: Verdict, signature: nat)
    | Marking(verdict: Verdict, signature: nat)
    | SettlingLegs(verdict: Verdict)
    | SettlingDev(verdict: Verdict)

  /** `launch` and `bundle` are absent until inserted. `claimed` is every wallet the request
      reserved; `claims`, `sends`, `resets` and `exits` count claims won, submissions made,
      re-bid resets, and times the launch left `Pending`. */
  datatype World = World(launch: Option<LaunchStatus>, signature: nat, bundle: Option<Bundle>, wallets: map<nat, WalletStatus>,
                         execs: map<nat, Exec>, request: RequestAt, watcher: WatcherAt,
                         claimed: set<nat>, claims: nat, sends: nat, resets: nat, exits: nat)

  /** `retries` is absent when the watcher runs without settings. */
  datatype Config = Config(dev: nat, retries: Option<nat>)

  const WATCHER: nat := 0
  const REQUEST: nat := 1

  function Initial(wallets: map<nat, WalletStatus>): World {
    World(None, 0, None, wallets, map[], Starting, Idle, {}, 0, 0, 0, 0)
  }

  // ---- repository writes ----------------------------------------------------

  function ExecOf(w: World, i: nat): Exec {
    if i in w.execs then w.execs[i] else NotStarted
  }

  function WithExec(w: World, i: nat, e: Exec): World {
    w.(execs := w.execs[i := e])
  }

  function SetStatus(w: World, status: BundleStatus): World
    requires w.bundle.Some?
  {
    w.(bundle := Some(w.bundle.value.(status := status)))
  }

  /** Unconditional, as the repository writes it. */
  function SetLaunch(w: World, status: LaunchStatus): World {
    w.(launch := Some(status), exits := if w.launch == Some(Pending) && status != Pending then w.exits + 1 else w.exits)
  }

  /** Move the given wallets from reserved; any other status is left alone. */
  function Settle(wallets: map<nat, WalletStatus>, ids: set<nat>, to: WalletStatus): map<nat, WalletStatus> {
    map id | id in wallets :: if id in ids && wallets[id] == Reserved then to else wallets[id]
  }

  function Reserve(wallets: map<nat, WalletStatus>, ids: set<nat>): map<nat, WalletStatus> {
    map id | id in wallets :: if id in ids then Reserved else wallets[id]
  }

  predicate AllAre(wallets: map<nat, WalletStatus>, ids: set<nat>, status: WalletStatus) {
    forall id | id in ids :: id in wallets && wallets[id] == status
  }

  // ---- events ---------------------------------------------------------------

  datatype Event =
    // one executor
    | ReadPlanned(i: nat) | PrepareFails(i: nat) | Claim(i: nat) | BuildFails(i: nat) | Send(i: nat, accepted: bool)
    | Record(i: nat) | RecordFails(i: nat) | Stamp(i: nat) | StampFails(i: nat) | MarkFailed(i: nat) | MarkLost(i: nat)
    // the request
    | InsertLaunch | ClaimDev | PrepareLaunch(ok: bool) | ClaimLegs(ids: set<nat>) | PlanBundle(ok: bool) | Look | Finish | Release | FailLaunch
    // the watcher
    | See | StillWaiting | Judge(verdict: Verdict) | ResetForRebid(ok: bool) | RebidDone
    | Confirm(ok: bool) | MarkLaunch(ok: bool) | SettleLegs(ok: bool) | SettleDev(ok: bool)

  predicate MayStart(w: World, i: nat) {
    if i == WATCHER then w.watcher.Rebidding?
    else if i == REQUEST then w.request.Executing?
    else true
  }

  /** A step of an executor: the status read, the compare-and-swap, the build (which checks
      that every leg is still reserved), the submission, and the writes after it. */
  function ExecStep(w: World, i: nat, e: Event): Option<World>
    requires w.bundle.Some?
  {
    var b := w.bundle.value;
    match (ExecOf(w, i), e)
    case (NotStarted, ReadPlanned(_)) =>
      if !MayStart(w, i) then None
      else Some(WithExec(w, i, if b.status == Planned then Ready else Errored))
    case (Ready, PrepareFails(_)) => Some(WithExec(w, i, Errored))
    case (Ready, Claim(_)) =>
      if b.status == Planned then Some(WithExec(SetStatus(w, Submitting), i, Exec.Claimed).(claims := w.claims + 1))
      else Some(WithExec(w, i, Errored))
    case (Claimed, BuildFails(_)) => Some(WithExec(w, i, Erroring))
    case (Claimed, Send(_, accepted)) =>
      if !AllAre(w.wallets, b.legs, Reserved) then None
      else Some(WithExec(w, i, if accepted then Sent(w.sends + 1) else Erroring).(sends := w.sends + 1))
    case (Sent(signature), Record(_)) =>
      Some(WithExec(w, i, Stamping(signature)).(bundle := Some(b.(status := Submitted, attempts := b.attempts + 1, signature := signature))))
    case (Sent(_), RecordFails(_)) => Some(WithExec(w, i, Erroring))
    case (Stamping(signature), Stamp(_)) => Some(WithExec(w, i, Succeeded).(signature := signature))
    case (Stamping(_), StampFails(_)) => Some(WithExec(w, i, Erroring))
    case (Erroring, MarkFailed(_)) => Some(WithExec(SetStatus(w, BundleFailed), i, Errored))
    case (Erroring, MarkLost(_)) => Some(WithExec(w, i, Errored))
    case _ => None
  }

  /** A step of the request. Any failure goes to the one cleanup: release, then fail. */
  function RequestStep(c: Config, w: World, e: Event): Option<World> {
    match (w.request, e)
    case (Starting, InsertLaunch) => Some(w.(launch := Some(Pending), request := ClaimingDev))
    case (ClaimingDev, ClaimDev) =>
      if c.dev in w.wallets && w.wallets[c.dev] == Funded
      then Some(w.(wallets := w.wallets[c.dev := Reserved], claimed := w.claimed + {c.dev}, request := Preparing))
      else Some(w.(request := Releasing))
    case (Preparing, PrepareLaunch(ok)) => Some(w.(request := if ok then ClaimingLegs else Releasing))
    case (ClaimingLegs, ClaimLegs(ids)) =>
      if !AllAre(w.wallets, ids, Funded) || c.dev in ids then None
      else
        Some(w.(wallets := Reserve(w.wallets, ids), claimed := w.claimed + ids, request := if ids == {} then Releasing else Planning(ids)))
    case (Planning(legs), PlanBundle(ok)) =>
      if ok then Some(w.(bundle := Some(Bundle(Planned, 0, legs, 0)), request := Looking)) else Some(w.(request := Releasing))
    case (Looking, Look) =>
      if w.bundle.None? then None
      else Some(w.(request := if w.bundle.value.status == Planned then Executing else Answered(true)))
    case (Executing, Finish) =>
      var mine := ExecOf(w, REQUEST);
      if mine == Succeeded then Some(w.(request := Answered(true)))
      else if mine == Errored then Some(w.(request := Releasing))
      else None
    case (Releasing, Release) => Some(w.(wallets := Settle(w.wallets, w.wallets.Keys, Funded), request := Failing))
    case (Failing, FailLaunch) => Some(SetLaunch(w, LaunchFailed).(request := Answered(false)))
    case _ => None
  }

  predicate MayRetry(c: Config, attempts: nat) {
    c.retries.Some? && attempts <= c.retries.value
  }

  function FinalStatus(v: Verdict): BundleStatus {
    match v
    case AllLanded => Landed
    case NoneLanded => Dropped
    case SomeLanded => Partial
  }

  /** A step of the watcher. It reads submitted bundles only, then acts on what it read; a
      failed re-bid ends as a drop. `ok` is whether the write went through: the watcher
      goes on either way. */
  function WatcherStep(c: Config, w: World, e: Event): Option<World>
    requires w.bundle.Some?
  {
    var b := w.bundle.value;
    match (w.watcher, e)
    case (Idle, See) =>
      if b.status == Submitted then Some(w.(watcher := Seen(b.attempts, w.signature))) else None
    case (Seen(_, _), StillWaiting) => Some(w.(watcher := Idle))
    case (Seen(attempts, signature), Judge(v)) =>
      if v == NoneLanded && MayRetry(c, attempts) then None
      else Some(w.(watcher := Confirming(v, signature)))
    case (Seen(attempts, signature), ResetForRebid(ok)) =>
      if !MayRetry(c, attempts) then None
      else if !ok then Some(w.(watcher := Confirming(NoneLanded, signature)))
      else
        Some(WithExec(w, WATCHER, NotStarted).(bundle := Some(b.(status := Planned, signature := 0)),
                                                watcher := Rebidding(signature), resets := w.resets + 1))
    case (Rebidding(signature), RebidDone) =>
      var mine := ExecOf(w, WATCHER);
      if mine == Succeeded then Some(w.(watcher := Idle))
      else if mine == Errored then Some(w.(watcher := Confirming(NoneLanded, signature)))
      else None
    case (Confirming(v, signature), Confirm(ok)) =>
      Some((if ok then SetStatus(w, FinalStatus(v)) else w).(watcher := Marking(v, signature)))
    case (Marking(v, signature), MarkLaunch(ok)) =>
      var marked := if !ok then w
                    else if v == NoneLanded then SetLaunch(w, LaunchFailed)
                    else SetLaunch(w, Created).(signature := signature);
      Some(marked.(watcher := SettlingLegs(v)))
    case (SettlingLegs(v), SettleLegs(ok)) =>
      if v == NoneLanded then Some((if ok then w.(wallets := Settle(w.wallets, b.legs + {c.dev}, Funded)) else w).(watcher := Idle))
      else Some((if ok then w.(wallets := Settle(w.wallets, b.legs, Used)) else w).(watcher := SettlingDev(v)))
    case (SettlingDev(v), SettleDev(ok)) =>
      Some((if ok then w.(wallets := Settle(w.wallets, {c.dev}, Used)) else w).(watcher := Idle))
    case _ => None
  }

  predicate OfRequest(e: Event) {
    e.InsertLaunch? || e.ClaimDev? || e.PrepareLaunch? || e.ClaimLegs? || e.PlanBundle? || e.Look? || e.Finish? || e.Release? || e.FailLaunch?
  }

  predicate OfExecutor(e: Event) {
    e.ReadPlanned? || e.PrepareFails? || e.Claim? || e.BuildFails? || e.Send? || e.Record? || e.RecordFails? || e.Stamp? || e.StampFails?
    || e.MarkFailed? || e.MarkLost?
  }

  /** The world after one event; absent when the event cannot happen there. */
  function Next(c: Config, w: World, e: Event): Option<World> {
    if OfRequest(e) then RequestStep(c, w, e)
    else if w.bundle.None? then None
    else if OfExecutor(e) then ExecStep(w, e.i, e)
    else WatcherStep(c, w, e)
  }

  /** Every world of the run, first to last. */
  predicate IsRun(c: Config, run: seq<World>, events: seq<Event>) {
    |run| == |events| + 1 && forall k | 0 <= k < |events| :: Next(c, run[k], events[k]) == Some(run[k + 1])
  }
}
