/** Two interleavings that end badly, as complete runs from the first event to rest: one on
    the failing side of each exact condition. */
module LaunchRaces {
  import opened Metrics
  import opened LaunchProtocol
  import opened LaunchOutcome

  datatype Journey = Journey(run: seq<World>, events: seq<Event>)

  /** A complete run from `start` to `w`. */
  predicate Leads(c: Config, j: Journey, start: World, w: World) {
    IsRun(c, j.run, j.events) && j.run[0] == start && j.run[|j.run| - 1] == w
  }

  lemma Begin(c: Config, start: World) returns (j: Journey)
    ensures Leads(c, j, start, start) && j.events == []
  {
    j := Journey([start], []);
  }

  lemma Then(c: Config, j: Journey, start: World, w: World, e: Event, after: World) returns (k: Journey)
    requires Leads(c, j, start, w) && Next(c, w, e) == Some(after)
    ensures Leads(c, k, start, after) && k.events == j.events + [e]
  {
    k := Journey(j.run + [after], j.events + [e]);
    forall i | 0 <= i < |k.events|
      ensures Next(c, k.run[i], k.events[i]) == Some(k.run[i + 1])
    {
      if i < |j.events| {
        assert Next(c, j.run[i], j.events[i]) == Some(j.run[i + 1]);
      }
    }
  }

  lemma Then2(c: Config, j: Journey, start: World, w: World, e1: Event, w1: World, e2: Event,
              w2: World) returns (k: Journey)
    requires Leads(c, j, start, w) && Next(c, w, e1) == Some(w1) && Next(c, w1, e2) == Some(w2)
    ensures Leads(c, k, start, w2) && k.events == j.events + [e1] + [e2]
  {
    k := Then(c, j, start, w, e1, w1);
    k := Then(c, k, start, w1, e2, w2);
  }

  const DEV: nat := 1
  const LEG: nat := 7

  function Funds(): map<nat, WalletStatus> {
    map[DEV := Funded, LEG := Funded]
  }

  function Held(): map<nat, WalletStatus> {
    map[DEV := Reserved, LEG := Reserved]
  }

  lemma NothingReservedNothingSettled(ids: set<nat>, to: WalletStatus)
    ensures Settle(Funds(), ids, to) == Funds()
  {
  }

  lemma AllReleased()
    ensures Settle(Held(), Held().Keys, Funded) == Funds()
  {
  }

  function Both(): set<nat> {
    {DEV, LEG}
  }

  /** A world with one leg, no resets and no retries used. */
  function Scene(launch: LaunchStatus, bundle: Option<Bundle>, wallets: map<nat, WalletStatus>, execs: map<nat, Exec>,
                 request: RequestAt, watcher: WatcherAt, claims: nat, sends: nat, exits: nat): World {
    World(Some(launch), 0, bundle, wallets, execs, request, watcher, Both(), claims, sends, 0, exits)
  }

  function OneLeg(status: BundleStatus, attempts: nat): Option<Bundle> {
    Some(Bundle(status, attempts, {LEG}, attempts))
  }

  // ---- up to the request's execution ----------------------------------------

  lemma ClaimDevSteps(c: Config)
    requires c.dev == DEV
    ensures var w1 := World(Some(Pending), 0, None, Funds(), map[], ClaimingDev, Idle, {}, 0, 0, 0, 0);
            && Next(c, Initial(Funds()), InsertLaunch) == Some(w1)
            && Next(c, w1, ClaimDev) == Some(DevHeld(Preparing))
  {
    assert Funds()[DEV := Reserved] == DevHeld(Preparing).wallets;
    assert {} + {DEV} == DevHeld(Preparing).claimed;
  }

  function DevHeld(request: RequestAt): World {
    World(Some(Pending), 0, None, map[DEV := Reserved, LEG := Funded], map[], request, Idle, {DEV}, 0, 0, 0, 0)
  }

  lemma ClaimLegSteps(c: Config)
    requires c.dev == DEV
    ensures Next(c, DevHeld(Preparing), PrepareLaunch(true)) == Some(DevHeld(ClaimingLegs))
    ensures Next(c, DevHeld(ClaimingLegs), ClaimLegs({LEG})) == Some(Scene(Pending, None, Held(), map[], Planning({LEG}), Idle, 0, 0, 0))
  {
    assert Reserve(DevHeld(ClaimingLegs).wallets, {LEG}) == Held();
    assert {DEV} + {LEG} == Both();
  }

  lemma PlanSteps(c: Config, j: Journey, start: World) returns (k: Journey)
    requires Leads(c, j, start, Scene(Pending, None, Held(), map[], Planning({LEG}), Idle, 0, 0, 0))
    ensures Leads(c, k, start, Scene(Pending, OneLeg(Planned, 0), Held(), map[], Executing, Idle, 0, 0, 0))
    ensures k.events == j.events + [PlanBundle(true)] + [Look]
  {
    k := Then2(c, j, start, Scene(Pending, None, Held(), map[], Planning({LEG}), Idle, 0, 0, 0),
               PlanBundle(true), Scene(Pending, OneLeg(Planned, 0), Held(), map[], Looking, Idle, 0, 0, 0),
               Look, Scene(Pending, OneLeg(Planned, 0), Held(), map[], Executing, Idle, 0, 0, 0));
  }

  lemma DevClaimed(c: Config) returns (j: Journey)
    requires c.dev == DEV
    ensures Leads(c, j, Initial(Funds()), DevHeld(Preparing))
    ensures j.events == [InsertLaunch] + [ClaimDev]
  {
    var start := Initial(Funds());
    j := Begin(c, start);
    ClaimDevSteps(c);
    j := Then2(c, j, start, start, InsertLaunch, World(Some(Pending), 0, None, Funds(), map[], ClaimingDev, Idle, {}, 0, 0, 0, 0), ClaimDev, DevHeld(Preparing));
  }

  lemma LegClaimed(c: Config, j: Journey, start: World) returns (k: Journey)
    requires c.dev == DEV && Leads(c, j, start, DevHeld(Preparing))
    ensures Leads(c, k, start, Scene(Pending, None, Held(), map[], Planning({LEG}), Idle, 0, 0, 0))
    ensures k.events == j.events + [PrepareLaunch(true)] + [ClaimLegs({LEG})]
  {
    ClaimLegSteps(c);
    k := Then2(c, j, start, DevHeld(Preparing), PrepareLaunch(true), DevHeld(ClaimingLegs),
               ClaimLegs({LEG}), Scene(Pending, None, Held(), map[], Planning({LEG}), Idle, 0, 0, 0));
  }

  lemma Setup(c: Config) returns (j: Journey)
    requires c.dev == DEV
    ensures Leads(c, j, Initial(Funds()), Scene(Pending, OneLeg(Planned, 0), Held(), map[], Executing, Idle, 0, 0, 0))
    ensures forall e | e in j.events :: Clean(e)
  {
    j := DevClaimed(c);
    j := LegClaimed(c, j, Initial(Funds()));
    j := PlanSteps(c, j, Initial(Funds()));
  }

  // ---- a manual execution beside the request --------------------------------

  const MANUAL: nat := 2

  lemma BothReadPlanned(c: Config, j: Journey, start: World) returns (k: Journey)
    requires Leads(c, j, start, Scene(Pending, OneLeg(Planned, 0), Held(), map[], Executing, Idle, 0, 0, 0))
    ensures Leads(c, k, start, Scene(Pending, OneLeg(Planned, 0), Held(), map[MANUAL := Ready, REQUEST := Ready], Executing, Idle, 0, 0, 0))
    ensures k.events == j.events + [ReadPlanned(MANUAL)] + [ReadPlanned(REQUEST)]
  {
    var w := Scene(Pending, OneLeg(Planned, 0), Held(), map[], Executing, Idle, 0, 0, 0);
    k := Then2(c, j, start, w, ReadPlanned(MANUAL), w.(execs := map[MANUAL := Ready]),
          ReadPlanned(REQUEST), w.(execs := map[MANUAL := Ready, REQUEST := Ready]));
  }

  lemma ManualWinsTheClaim(c: Config, j: Journey, start: World) returns (k: Journey)
    requires Leads(c, j, start, Scene(Pending, OneLeg(Planned, 0), Held(), map[MANUAL := Ready, REQUEST := Ready], Executing, Idle, 0, 0, 0))
    ensures Leads(c, k, start, Scene(Pending, OneLeg(Submitting, 0), Held(), map[MANUAL := Exec.Claimed, REQUEST := Errored], Executing, Idle, 1, 0, 0))
    ensures k.events == j.events + [Claim(MANUAL)] + [Claim(REQUEST)]
  {
    var w := Scene(Pending, OneLeg(Planned, 0), Held(), map[MANUAL := Ready, REQUEST := Ready], Executing, Idle, 0, 0, 0);
    var v := Scene(Pending, OneLeg(Submitting, 0), Held(), map[MANUAL := Exec.Claimed, REQUEST := Ready], Executing, Idle, 1, 0, 0);
    assert w.execs[MANUAL := Exec.Claimed] == v.execs;
    assert v.execs[REQUEST := Errored] == map[MANUAL := Exec.Claimed, REQUEST := Errored];
    k := Then2(c, j, start, w, Claim(MANUAL), v, Claim(REQUEST), v.(execs := map[MANUAL := Exec.Claimed, REQUEST := Errored]));
  }

  lemma ManualSends(c: Config, j: Journey, start: World) returns (k: Journey)
    requires Leads(c, j, start, Scene(Pending, OneLeg(Submitting, 0), Held(), map[MANUAL := Exec.Claimed, REQUEST := Errored], Executing, Idle, 1, 0, 0))
    ensures Leads(c, k, start, Scene(Pending, OneLeg(Submitting, 0), Held(), map[MANUAL := Sent(1), REQUEST := Errored], Releasing, Idle, 1, 1, 0))
    ensures k.events == j.events + [Send(MANUAL, true)] + [Finish]
  {
    var w := Scene(Pending, OneLeg(Submitting, 0), Held(), map[MANUAL := Exec.Claimed, REQUEST := Errored], Executing, Idle, 1, 0, 0);
    var v := Scene(Pending, OneLeg(Submitting, 0), Held(), map[MANUAL := Sent(1), REQUEST := Errored], Executing, Idle, 1, 1, 0);
    assert w.execs[MANUAL := Sent(1)] == v.execs;
    k := Then2(c, j, start, w, Send(MANUAL, true), v, Finish, v.(request := Releasing));
  }

  lemma RequestCleansUp(c: Config, j: Journey, start: World) returns (k: Journey)
    requires Leads(c, j, start, Scene(Pending, OneLeg(Submitting, 0), Held(), map[MANUAL := Sent(1), REQUEST := Errored], Releasing, Idle, 1, 1, 0))
    ensures Leads(c, k, start, Scene(LaunchFailed, OneLeg(Submitting, 0), Funds(), map[MANUAL := Sent(1), REQUEST := Errored], Answered(false), Idle, 1, 1, 1))
    ensures k.events == j.events + [Release] + [FailLaunch]
  {
    AllReleased();
    var w := Scene(Pending, OneLeg(Submitting, 0), Held(), map[MANUAL := Sent(1), REQUEST := Errored], Releasing, Idle, 1, 1, 0);
    k := Then2(c, j, start, w, Release, w.(wallets := Funds(), request := Failing),
          FailLaunch, Scene(LaunchFailed, OneLeg(Submitting, 0), Funds(), map[MANUAL := Sent(1), REQUEST := Errored], Answered(false), Idle, 1, 1, 1));
  }

  lemma ManualRecords(c: Config, j: Journey, start: World) returns (k: Journey)
    requires Leads(c, j, start, Scene(LaunchFailed, OneLeg(Submitting, 0), Funds(), map[MANUAL := Sent(1), REQUEST := Errored], Answered(false), Idle, 1, 1, 1))
    ensures Leads(c, k, start, Scene(LaunchFailed, OneLeg(Submitted, 1), Funds(), map[MANUAL := Stamping(1), REQUEST := Errored], Answered(false), Seen(1, 0), 1, 1, 1))
    ensures k.events == j.events + [Record(MANUAL)] + [See]
  {
    var w := Scene(LaunchFailed, OneLeg(Submitting, 0), Funds(), map[MANUAL := Sent(1), REQUEST := Errored], Answered(false), Idle, 1, 1, 1);
    var v := Scene(LaunchFailed, OneLeg(Submitted, 1), Funds(), map[MANUAL := Stamping(1), REQUEST := Errored], Answered(false), Idle, 1, 1, 1);
    assert w.execs[MANUAL := Stamping(1)] == v.execs;
    k := Then2(c, j, start, w, Record(MANUAL), v, See, v.(watcher := Seen(1, 0)));
  }

  lemma WatcherConfirms(c: Config, j: Journey, start: World, execs: map<nat, Exec>) returns (k: Journey)
    requires Leads(c, j, start, Scene(LaunchFailed, OneLeg(Submitted, 1), Funds(), execs, Answered(false), Seen(1, 0), 1, 1, 1))
    ensures Leads(c, k, start, Scene(LaunchFailed, OneLeg(Landed, 1), Funds(), execs, Answered(false), Marking(AllLanded, 0), 1, 1, 1))
    ensures k.events == j.events + [Judge(AllLanded)] + [Confirm(true)]
  {
    var w := Scene(LaunchFailed, OneLeg(Submitted, 1), Funds(), execs, Answered(false), Seen(1, 0), 1, 1, 1);
    k := Then2(c, j, start, w, Judge(AllLanded), w.(watcher := Confirming(AllLanded, 0)),
          Confirm(true), Scene(LaunchFailed, OneLeg(Landed, 1), Funds(), execs, Answered(false), Marking(AllLanded, 0), 1, 1, 1));
  }

  lemma MarkStep(c: Config, execs: map<nat, Exec>)
    ensures Next(c, Late(Marking(AllLanded, 0), LaunchFailed, execs), MarkLaunch(true)) == Some(Late(SettlingLegs(AllLanded), Created, execs))
  {
  }

  lemma LegsStep(c: Config, execs: map<nat, Exec>)
    ensures Next(c, Late(SettlingLegs(AllLanded), Created, execs), SettleLegs(true)) == Some(Late(SettlingDev(AllLanded), Created, execs))
  {
    NothingReservedNothingSettled({LEG}, Used);
  }

  lemma DevStep(c: Config, execs: map<nat, Exec>)
    requires c.dev == DEV
    ensures Next(c, Late(SettlingDev(AllLanded), Created, execs), SettleDev(true)) == Some(Late(Idle, Created, execs))
  {
    NothingReservedNothingSettled({DEV}, Used);
  }

  /** After the request answered with a failure and the bundle landed all the same. */
  function Late(watcher: WatcherAt, launch: LaunchStatus, execs: map<nat, Exec>): World {
    Scene(launch, OneLeg(Landed, 1), Funds(), execs, Answered(false), watcher, 1, 1, 1)
  }

  lemma WatcherSettles(c: Config, j: Journey, start: World, execs: map<nat, Exec>) returns (k: Journey)
    requires c.dev == DEV
    requires Leads(c, j, start, Late(Marking(AllLanded, 0), LaunchFailed, execs))
    ensures Leads(c, k, start, Late(Idle, Created, execs))
    ensures k.events == j.events + [MarkLaunch(true)] + [SettleLegs(true)] + [SettleDev(true)]
  {
    MarkStep(c, execs);
    LegsStep(c, execs);
    DevStep(c, execs);
    k := Then2(c, j, start, Late(Marking(AllLanded, 0), LaunchFailed, execs), MarkLaunch(true), Late(SettlingLegs(AllLanded), Created, execs),
               SettleLegs(true), Late(SettlingDev(AllLanded), Created, execs));
    k := Then(c, k, start, Late(SettlingDev(AllLanded), Created, execs), SettleDev(true), Late(Idle, Created, execs));
  }

  /** A run on the failing side of `CreatedWalletsAreUsedIffNeverReleased`, a manual execution
      that wins the claim from the request: the request cleans up after its
      lost claim, the manual one has sent, and the watcher confirms it. The launch ends
      created with every wallet that spent back in the funded pool. */
  lemma ManualExecutionCanStrandTheLaunch(c: Config) returns (j: Journey, end: World)
    requires c.dev == DEV
    ensures Leads(c, j, Initial(Funds()), end)
    ensures forall e | e in j.events :: NoLostWrite(e)
    ensures AtRest(end) && end.launch == Some(Created) && end.sends == 1 && end.claimed == {DEV, LEG} && ClaimedAre(end, Funded)
  {
    var start := Initial(Funds());
    var execs := map[MANUAL := Stamping(1), REQUEST := Errored];
    j := Setup(c);
    j := BothReadPlanned(c, j, start);
    j := ManualWinsTheClaim(c, j, start);
    j := ManualSends(c, j, start);
    j := RequestCleansUp(c, j, start);
    j := ManualRecords(c, j, start);
    j := WatcherConfirms(c, j, start, execs);
    j := WatcherSettles(c, j, start, execs);
    end := Scene(Created, OneLeg(Landed, 1), Funds(), execs, Answered(false), Idle, 1, 1, 1);
  }

  // ---- the create signature -------------------------------------------------

  lemma RequestClaims(c: Config, j: Journey, start: World) returns (k: Journey)
    requires Leads(c, j, start, Scene(Pending, OneLeg(Planned, 0), Held(), map[], Executing, Idle, 0, 0, 0))
    ensures Leads(c, k, start, Scene(Pending, OneLeg(Submitting, 0), Held(), map[REQUEST := Exec.Claimed], Executing, Idle, 1, 0, 0))
    ensures k.events == j.events + [ReadPlanned(REQUEST)] + [Claim(REQUEST)]
  {
    var w := Scene(Pending, OneLeg(Planned, 0), Held(), map[], Executing, Idle, 0, 0, 0);
    assert map[REQUEST := Ready][REQUEST := Exec.Claimed] == map[REQUEST := Exec.Claimed];
    k := Then2(c, j, start, w, ReadPlanned(REQUEST), w.(execs := map[REQUEST := Ready]),
          Claim(REQUEST), Scene(Pending, OneLeg(Submitting, 0), Held(), map[REQUEST := Exec.Claimed], Executing, Idle, 1, 0, 0));
  }

  lemma RequestRecords(c: Config, j: Journey, start: World) returns (k: Journey)
    requires Leads(c, j, start, Scene(Pending, OneLeg(Submitting, 0), Held(), map[REQUEST := Exec.Claimed], Executing, Idle, 1, 0, 0))
    ensures Leads(c, k, start, Scene(Pending, OneLeg(Submitted, 1), Held(), map[REQUEST := Stamping(1)], Executing, Idle, 1, 1, 0))
    ensures k.events == j.events + [Send(REQUEST, true)] + [Record(REQUEST)]
  {
    var w := Scene(Pending, OneLeg(Submitting, 0), Held(), map[REQUEST := Exec.Claimed], Executing, Idle, 1, 0, 0);
    var v := Scene(Pending, OneLeg(Submitting, 0), Held(), map[REQUEST := Sent(1)], Executing, Idle, 1, 1, 0);
    assert w.execs[REQUEST := Sent(1)] == v.execs;
    assert v.execs[REQUEST := Stamping(1)] == map[REQUEST := Stamping(1)];
    k := Then2(c, j, start, w, Send(REQUEST, true), v,
          Record(REQUEST), Scene(Pending, OneLeg(Submitted, 1), Held(), map[REQUEST := Stamping(1)], Executing, Idle, 1, 1, 0));
  }

  lemma WatcherReadsTooEarly(c: Config, j: Journey, start: World) returns (k: Journey)
    requires Leads(c, j, start, Scene(Pending, OneLeg(Submitted, 1), Held(), map[REQUEST := Stamping(1)], Executing, Idle, 1, 1, 0))
    ensures Leads(c, k, start, Scene(Pending, OneLeg(Submitted, 1), Held(), map[REQUEST := Stamping(1)], Executing, Confirming(AllLanded, 0), 1, 1, 0))
    ensures k.events == j.events + [See] + [Judge(AllLanded)]
  {
    var w := Scene(Pending, OneLeg(Submitted, 1), Held(), map[REQUEST := Stamping(1)], Executing, Idle, 1, 1, 0);
    k := Then2(c, j, start, w, See, w.(watcher := Seen(1, 0)), Judge(AllLanded), w.(watcher := Confirming(AllLanded, 0)));
  }

  /** The request still has its second write to make, or has made it. */
  function Racing(launch: LaunchStatus, signature: nat, status: BundleStatus, mine: Exec, watcher: WatcherAt,
                  exits: nat): World {
    World(Some(launch), signature, OneLeg(status, 1), Held(), map[REQUEST := mine], Executing, watcher, Both(), 1, 1, 0, exits)
  }

  lemma StampStep(c: Config)
    ensures Next(c, Racing(Pending, 0, Submitted, Stamping(1), Confirming(AllLanded, 0), 0), Stamp(REQUEST))
            == Some(Racing(Pending, 1, Submitted, Succeeded, Confirming(AllLanded, 0), 0))
  {
    assert map[REQUEST := Stamping(1)][REQUEST := Succeeded] == map[REQUEST := Succeeded];
  }

  lemma ConfirmStep(c: Config)
    ensures Next(c, Racing(Pending, 1, Submitted, Succeeded, Confirming(AllLanded, 0), 0), Confirm(true))
            == Some(Racing(Pending, 1, Landed, Succeeded, Marking(AllLanded, 0), 0))
  {
  }

  lemma MarkOverStep(c: Config)
    ensures Next(c, Racing(Pending, 1, Landed, Succeeded, Marking(AllLanded, 0), 0), MarkLaunch(true))
            == Some(Racing(Created, 0, Landed, Succeeded, SettlingLegs(AllLanded), 1))
  {
  }

  lemma StampIsOverwritten(c: Config, j: Journey, start: World) returns (k: Journey)
    requires Leads(c, j, start, Racing(Pending, 0, Submitted, Stamping(1), Confirming(AllLanded, 0), 0))
    ensures Leads(c, k, start, Racing(Created, 0, Landed, Succeeded, SettlingLegs(AllLanded), 1))
    ensures k.events == j.events + [Stamp(REQUEST)] + [Confirm(true)] + [MarkLaunch(true)]
  {
    StampStep(c);
    ConfirmStep(c);
    MarkOverStep(c);
    k := Then2(c, j, start, Racing(Pending, 0, Submitted, Stamping(1), Confirming(AllLanded, 0), 0),
               Stamp(REQUEST), Racing(Pending, 1, Submitted, Succeeded, Confirming(AllLanded, 0), 0),
               Confirm(true), Racing(Pending, 1, Landed, Succeeded, Marking(AllLanded, 0), 0));
    k := Then(c, k, start, Racing(Pending, 1, Landed, Succeeded, Marking(AllLanded, 0), 0),
              MarkLaunch(true), Racing(Created, 0, Landed, Succeeded, SettlingLegs(AllLanded), 1));
  }

  predicate CleanJourney(j: Journey) {
    forall e | e in j.events :: Clean(e)
  }

  lemma UpToTheRace(c: Config) returns (j: Journey)
    requires c.dev == DEV
    ensures Leads(c, j, Initial(Funds()), Racing(Pending, 0, Submitted, Stamping(1), Confirming(AllLanded, 0), 0)) && CleanJourney(j)
  {
    var start := Initial(Funds());
    j := Setup(c);
    j := RequestClaims(c, j, start);
    j := RequestRecords(c, j, start);
    j := WatcherReadsTooEarly(c, j, start);
  }

  /** Created without its signature, and the wallets settled so far. */
  function Unsigned(wallets: map<nat, WalletStatus>, request: RequestAt, watcher: WatcherAt): World {
    World(Some(Created), 0, OneLeg(Landed, 1), wallets, map[REQUEST := Succeeded], request, watcher, Both(), 1, 1, 0, 1)
  }

  function LegUsed(): map<nat, WalletStatus> {
    map[DEV := Reserved, LEG := Used]
  }

  function BothUsed(): map<nat, WalletStatus> {
    map[DEV := Used, LEG := Used]
  }

  lemma WalletsSettle()
    ensures Settle(Held(), {LEG}, Used) == LegUsed()
    ensures Settle(LegUsed(), {DEV}, Used) == BothUsed()
  {
  }

  lemma SettleOwnLegs(c: Config, wallets: map<nat, WalletStatus>)
    ensures Next(c, Unsigned(wallets, Executing, SettlingLegs(AllLanded)), SettleLegs(true))
            == Some(Unsigned(Settle(wallets, {LEG}, Used), Executing, SettlingDev(AllLanded)))
  {
  }

  lemma SettleOwnDev(c: Config, wallets: map<nat, WalletStatus>)
    requires c.dev == DEV
    ensures Next(c, Unsigned(wallets, Executing, SettlingDev(AllLanded)), SettleDev(true))
            == Some(Unsigned(Settle(wallets, {DEV}, Used), Executing, Idle))
  {
  }

  lemma FinishOwn(c: Config, wallets: map<nat, WalletStatus>)
    ensures Next(c, Unsigned(wallets, Executing, Idle), Finish) == Some(Unsigned(wallets, Answered(true), Idle))
  {
  }

  lemma RunsToRest(c: Config, j: Journey, start: World) returns (k: Journey)
    requires c.dev == DEV && Leads(c, j, start, Unsigned(Held(), Executing, SettlingLegs(AllLanded)))
    ensures Leads(c, k, start, Unsigned(BothUsed(), Answered(true), Idle))
    ensures k.events == j.events + [SettleLegs(true)] + [SettleDev(true)] + [Finish]
  {
    WalletsSettle();
    SettleOwnLegs(c, Held());
    SettleOwnDev(c, LegUsed());
    FinishOwn(c, BothUsed());
    k := Then2(c, j, start, Unsigned(Held(), Executing, SettlingLegs(AllLanded)),
               SettleLegs(true), Unsigned(LegUsed(), Executing, SettlingDev(AllLanded)),
               SettleDev(true), Unsigned(BothUsed(), Executing, Idle));
    k := Then(c, k, start, Unsigned(BothUsed(), Executing, Idle), Finish, Unsigned(BothUsed(), Answered(true), Idle));
  }

  /** A run on the failing side of `SignatureLostIffStampedOutOfTurn`: the watcher reads the
      launch between the submission's two writes and confirms it after the second. All comes
      to rest, every wallet is used, and the created launch carries no create signature,
      though its bundle landed with one. */
  lemma SignatureCanBeOverwritten(c: Config) returns (j: Journey, end: World)
    requires c.dev == DEV
    ensures Leads(c, j, Initial(Funds()), end) && CleanJourney(j)
    ensures AtRest(end) && end.launch == Some(Created) && end.signature == 0 && end.bundle == Some(Bundle(Landed, 1, {LEG}, 1))
  {
    var start := Initial(Funds());
    j := UpToTheRace(c);
    j := StampIsOverwritten(c, j, start);
    j := RunsToRest(c, j, start);
    end := Unsigned(BothUsed(), Answered(true), Idle);
  }
}
