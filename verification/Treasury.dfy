/** One funding pass over several treasuries: what is spent, from where, and what becomes of
    every wallet the pass claimed. */
module Treasury {
  import opened Metrics

  const BLOCKHASH_REFRESH_EVERY: nat := 20

  /** `spent` and `sends` are what this pass has drawn. */
  datatype Source = Source(balance: nat, spent: nat, sends: nat)

  datatype FundResult = BadAddress | SkippedCap | DryRun | Failed | SentOk

  datatype Outcome = Outcome(id: nat, amount: nat, result: FundResult)

  datatype Claim = Claim(id: nat, goodAddress: bool)

  datatype Transfer = Transfer(id: nat, amount: nat)

  /** What the network answers when asked: a fresh blockhash, and the submission. */
  datatype Net = Net(blockhash: bool, submitted: bool)

  // ---- choosing a treasury --------------------------------------------------

  /** Saturating at zero on both subtractions. */
  function Spendable(s: Source, reserve: nat): nat {
    if s.balance < s.spent + reserve then 0 else s.balance - s.spent - reserve
  }

  /** The richest treasury that covers the amount alone; of equals, the last. */
  predicate IsBestSource(sources: seq<Source>, amount: nat, reserve: nat, i: nat) {
    && i < |sources| && Spendable(sources[i], reserve) >= amount
    && (forall j | 0 <= j < |sources| :: Spendable(sources[j], reserve) <= Spendable(sources[i], reserve))
    && (forall j | i < j < |sources| :: Spendable(sources[j], reserve) < Spendable(sources[i], reserve))
  }

  method PickSource(sources: seq<Source>, amount: nat, reserve: nat) returns (best: Option<nat>)
    ensures best.Some? ==> IsBestSource(sources, amount, reserve, best.value)
    ensures best.None? <==> forall s | s in sources :: Spendable(s, reserve) < amount
  {
    best := None;
    for i := 0 to |sources|
      invariant best.None? ==> forall j | 0 <= j < i :: Spendable(sources[j], reserve) < amount
      invariant best.Some? ==> best.value < i && IsBestSource(sources[..i], amount, reserve, best.value)
    {
      var here := Spendable(sources[i], reserve);
      if here >= amount && (best.None? || Spendable(sources[best.value], reserve) <= here) {
        best := Some(i);
      }
    }
    assert sources[..|sources|] == sources;
    if best.Some? {
      assert sources[best.value] in sources;
    }
  }

  // ---- totals ---------------------------------------------------------------

  function TotalSpent(sources: seq<Source>): nat {
    if sources == [] then 0 else TotalSpent(sources[..|sources| - 1]) + sources[|sources| - 1].spent
  }

  function TotalBalance(sources: seq<Source>): nat {
    if sources == [] then 0 else TotalBalance(sources[..|sources| - 1]) + sources[|sources| - 1].balance
  }

  function TotalSends(sources: seq<Source>): nat {
    if sources == [] then 0 else TotalSends(sources[..|sources| - 1]) + sources[|sources| - 1].sends
  }

  function SentCount(outcomes: seq<Outcome>): (n: nat)
    ensures n <= |outcomes|
  {
    if outcomes == [] then 0
    else SentCount(outcomes[..|outcomes| - 1]) + if outcomes[|outcomes| - 1].result == SentOk then 1 else 0
  }

  function SentTotal(outcomes: seq<Outcome>): nat {
    if outcomes == [] then 0
    else
      var last := outcomes[|outcomes| - 1];
      SentTotal(outcomes[..|outcomes| - 1]) + if last.result == SentOk then last.amount else 0
  }

  function Ids(outcomes: seq<Outcome>): (ids: seq<nat>)
    ensures |ids| == |outcomes| && forall i | 0 <= i < |ids| :: ids[i] == outcomes[i].id
  {
    seq(|outcomes|, i requires 0 <= i < |outcomes| => outcomes[i].id)
  }

  function Drawn(s: Source, amount: nat): Source {
    s.(spent := s.spent + amount, sends := s.sends + 1)
  }

  lemma {:induction false} DrawingAddsUp(sources: seq<Source>, i: nat, amount: nat)
    requires i < |sources|
    ensures TotalSpent(sources[i := Drawn(sources[i], amount)]) == TotalSpent(sources) + amount
    ensures TotalBalance(sources[i := Drawn(sources[i], amount)]) == TotalBalance(sources)
    ensures TotalSends(sources[i := Drawn(sources[i], amount)]) == TotalSends(sources) + 1
  {
    var n := |sources| - 1;
    var after := sources[i := Drawn(sources[i], amount)];
    if i == n {
      assert after[..n] == sources[..n];
    } else {
      DrawingAddsUp(sources[..n], i, amount);
      assert after[..n] == sources[..n][i := Drawn(sources[i], amount)];
    }
  }

  lemma {:induction false} SpentWithinBalances(sources: seq<Source>, i: nat)
    requires forall s | s in sources :: s.spent <= s.balance
    requires i < |sources|
    ensures TotalSpent(sources) + (sources[i].balance - sources[i].spent) <= TotalBalance(sources)
  {
    var n := |sources| - 1;
    assert sources[n] in sources;
    if i < n {
      SpentWithinBalances(sources[..n], i);
    } else if n > 0 {
      SpentWithinBalances(sources[..n], 0);
      assert sources[0] in sources;
    }
  }

  lemma {:induction false} SendsWithinTotal(sources: seq<Source>, i: nat)
    requires i < |sources|
    ensures sources[i].sends <= TotalSends(sources)
  {
    var n := |sources| - 1;
    if i < n {
      SendsWithinTotal(sources[..n], i);
    }
  }

  // ---- what a pass keeps ----------------------------------------------------

  /** A treasury this pass has drawn from still holds its reserve. */
  predicate KeepsReserve(s: Source, reserve: nat) {
    s.spent <= s.balance && (s.spent > 0 ==> s.spent + reserve <= s.balance)
  }

  /** Sent or reverted, by its outcome. */
  predicate Settled(outcomes: seq<Outcome>, sent: set<nat>, reverted: set<nat>) {
    && (forall o | o in outcomes :: if o.result == SentOk then o.id in sent else o.id in reverted)
    && (forall id | id in sent :: exists o | o in outcomes :: o.id == id && o.result == SentOk)
    && (forall id | id in reverted :: exists o | o in outcomes :: o.id == id && o.result != SentOk)
  }

  lemma OneMoreOutcome(outcomes: seq<Outcome>, o: Outcome)
    ensures SentTotal(outcomes + [o]) == SentTotal(outcomes) + if o.result == SentOk then o.amount else 0
    ensures SentCount(outcomes + [o]) == SentCount(outcomes) + if o.result == SentOk then 1 else 0
    ensures Ids(outcomes + [o]) == Ids(outcomes) + [o.id]
  {
    assert (outcomes + [o])[..|outcomes|] == outcomes;
  }

  lemma OneMoreSettled(outcomes: seq<Outcome>, sent: set<nat>, reverted: set<nat>, o: Outcome)
    requires Settled(outcomes, sent, reverted)
    ensures if o.result == SentOk then Settled(outcomes + [o], sent + {o.id}, reverted) else Settled(outcomes + [o], sent, reverted + {o.id})
  {
    assert o in outcomes + [o] && forall x :: x in outcomes + [o] <==> x in outcomes || x == o;
  }

  lemma DrawingKeepsReserves(sources: seq<Source>, i: nat, amount: nat, reserve: nat)
    requires i < |sources| && forall s | s in sources :: KeepsReserve(s, reserve)
    requires Spendable(sources[i], reserve) >= amount
    ensures forall s | s in sources[i := Drawn(sources[i], amount)] :: KeepsReserve(s, reserve)
  {
    assert sources[i] in sources;
    assert KeepsReserve(Drawn(sources[i], amount), reserve);
    forall s | s in sources[i := Drawn(sources[i], amount)]
      ensures s in sources || s == Drawn(sources[i], amount)
    {
    }
  }

  predicate DistinctIds(ids: seq<nat>) {
    forall i, j | 0 <= i < j < |ids| :: ids[i] != ids[j]
  }

  /** No id twice. */
  predicate NoRepeats(ids: seq<nat>) {
    forall id | id in ids :: multiset(ids)[id] == 1
  }

  lemma RepeatCountsTwice(ids: seq<nat>, i: nat, j: nat)
    requires i < j < |ids| && ids[i] == ids[j]
    ensures multiset(ids)[ids[i]] >= 2
  {
    assert ids == ids[..i] + [ids[i]] + ids[i + 1..j] + [ids[j]] + ids[j + 1..];
  }

  lemma SentAndRevertedAreDisjoint(outcomes: seq<Outcome>, sent: set<nat>, reverted: set<nat>)
    requires Settled(outcomes, sent, reverted) && DistinctIds(Ids(outcomes))
    ensures sent !! reverted
  {
  }

  /** Each claimed wallet is sent or reverted, and no other is; when no wallet was claimed
      twice, none is both. */
  predicate EachSentOrReverted(claimed: seq<nat>, sent: set<nat>, reverted: set<nat>) {
    && (forall id | id in claimed :: id in sent || id in reverted)
    && (forall id | id in sent + reverted :: id in claimed)
    && (NoRepeats(claimed) ==> sent !! reverted)
  }

  lemma EveryWalletSentOrReverted(outcomes: seq<Outcome>, sent: set<nat>, reverted: set<nat>, claimed: seq<nat>)
    requires Settled(outcomes, sent, reverted) && multiset(Ids(outcomes)) == multiset(claimed)
    ensures EachSentOrReverted(claimed, sent, reverted)
  {
    forall id
      ensures id in claimed <==> id in sent || id in reverted
    {
      assert id in claimed <==> id in multiset(claimed);
      assert id in Ids(outcomes) <==> id in multiset(Ids(outcomes));
    }
    if NoRepeats(claimed) {
      forall i, j | 0 <= i < j < |outcomes|
        ensures Ids(outcomes)[i] != Ids(outcomes)[j]
      {
        assert Ids(outcomes)[i] in multiset(claimed);
        if Ids(outcomes)[i] == Ids(outcomes)[j] {
          RepeatCountsTwice(Ids(outcomes), i, j);
        }
      }
      SentAndRevertedAreDisjoint(outcomes, sent, reverted);
    }
  }

  /** Over the cap, or no treasury can cover it alone. */
  predicate RailHit(sources: seq<Source>, spent: nat, cap: nat, reserve: nat, amount: nat) {
    spent + amount > cap || forall s | s in sources :: Spendable(s, reserve) < amount
  }

  /** The amount was drawn from the best treasury, and no other treasury moved. */
  predicate DrawnFromBest(before: seq<Source>, after: seq<Source>, amount: nat, reserve: nat) {
    exists i | 0 <= i < |before| :: IsBestSource(before, amount, reserve, i) && after == before[i := Drawn(before[i], amount)]
  }

  /** What a pass is configured with. */
  datatype Rails = Rails(cap: nat, reserve: nat, dryRun: bool)

  /** Where a pass stands between two transfers. */
  datatype Books = Books(sources: seq<Source>, spent: nat, hasBlockhash: bool, sendsSinceRefresh: nat)

  /** What becomes of a transfer no rail stopped. A blockhash in hand serves when refreshing it
      fails; with none, nothing can be sent. */
  function Delivery(dryRun: bool, hasBlockhash: bool, net: Net): (r: FundResult)
    ensures r == SentOk <==> !dryRun && (hasBlockhash || net.blockhash) && net.submitted
    ensures r == DryRun <==> dryRun
    ensures r == SentOk || r == DryRun || r == Failed
  {
    if dryRun then DryRun
    else if !hasBlockhash && !net.blockhash then Failed
    else if net.submitted then SentOk
    else Failed
  }

  /** One transfer that no rail stopped: the network decides its outcome, what is sent is drawn
      from the best treasury and booked, and what is not sent moves nothing; a blockhash is
      asked for when there is none or after twenty sends. */
  predicate Funds(p: Rails, before: Books, after: Books, t: Transfer, net: Net, o: Outcome) {
    && !RailHit(before.sources, before.spent, p.cap, p.reserve, t.amount)
    && o == Outcome(t.id, t.amount, Delivery(p.dryRun, before.hasBlockhash, net))
    && (if o.result == SentOk then DrawnFromBest(before.sources, after.sources, t.amount, p.reserve) && after.spent == before.spent + t.amount
        else after.sources == before.sources && after.spent == before.spent)
    && (var refreshed := !p.dryRun && net.blockhash && (!before.hasBlockhash || before.sendsSinceRefresh >= 20);
        && after.hasBlockhash == (before.hasBlockhash || refreshed)
        && after.sendsSinceRefresh == (if refreshed then 0 else before.sendsSinceRefresh) + if o.result == SentOk then 1 else 0)
  }

  /** The books after each transfer that was funded, and its outcome. */
  datatype Run = Run(books: seq<Books>, funded: seq<Outcome>)

  predicate RunOf(p: Rails, run: Run, start: Books, end: Books, transfers: seq<Transfer>, net: nat -> Net) {
    && |run.funded| <= |transfers| && |run.books| == |run.funded| + 1
    && run.books[0] == start && run.books[|run.funded|] == end
    && forall k | 0 <= k < |run.funded| :: FundsAt(p, run, transfers, net, k)
  }

  predicate FundsAt(p: Rails, run: Run, transfers: seq<Transfer>, net: nat -> Net, k: nat)
    requires k < |run.funded| <= |transfers| && |run.books| == |run.funded| + 1
  {
    Funds(p, run.books[k], run.books[k + 1], transfers[k], net(k), run.funded[k])
  }

  /** The run ended at a rail, which the next transfer hits. */
  predicate StoppedAt(p: Rails, run: Run, end: Books, transfers: seq<Transfer>) {
    |run.funded| < |transfers| && RailHit(end.sources, end.spent, p.cap, p.reserve, transfers[|run.funded|].amount)
  }

  lemma RunGoesOn(p: Rails, run: Run, start: Books, end: Books, after: Books, transfers: seq<Transfer>, net: nat -> Net, o: Outcome)
    requires RunOf(p, run, start, end, transfers, net) && |run.funded| < |transfers|
    requires Funds(p, end, after, transfers[|run.funded|], net(|run.funded|), o)
    ensures RunOf(p, Run(run.books + [after], run.funded + [o]), start, after, transfers, net)
  {
    var longer := Run(run.books + [after], run.funded + [o]);
    forall k | 0 <= k < |longer.funded|
      ensures FundsAt(p, longer, transfers, net, k)
    {
      assert k < |run.funded| ==> FundsAt(p, run, transfers, net, k);
    }
  }

  function Skipped(transfers: seq<Transfer>): (os: seq<Outcome>)
    ensures |os| == |transfers|
    ensures forall i | 0 <= i < |os| :: os[i] == Outcome(transfers[i].id, transfers[i].amount, SkippedCap)
  {
    seq(|transfers|, i requires 0 <= i < |transfers| => Outcome(transfers[i].id, transfers[i].amount, SkippedCap))
  }

  function BadAddresses(claims: seq<Claim>): seq<Outcome> {
    if claims == [] then []
    else
      var last := claims[|claims| - 1];
      BadAddresses(claims[..|claims| - 1]) + if last.goodAddress then [] else [Outcome(last.id, 0, BadAddress)]
  }

  /** The outcomes of one role: its bad addresses, what was funded, and the rest skipped. */
  function OutcomesOf(claims: seq<Claim>, transfers: seq<Transfer>, run: Run): seq<Outcome>
    requires |run.funded| <= |transfers|
  {
    BadAddresses(claims) + run.funded + Skipped(transfers[|run.funded|..])
  }

  function GoodIds(claims: seq<Claim>): seq<nat> {
    if claims == [] then []
    else GoodIds(claims[..|claims| - 1]) + if claims[|claims| - 1].goodAddress then [claims[|claims| - 1].id] else []
  }

  function BadIds(claims: seq<Claim>): seq<nat> {
    if claims == [] then []
    else BadIds(claims[..|claims| - 1]) + if claims[|claims| - 1].goodAddress then [] else [claims[|claims| - 1].id]
  }

  function ClaimIds(claims: seq<Claim>): (ids: seq<nat>)
    ensures |ids| == |claims| && forall i | 0 <= i < |ids| :: ids[i] == claims[i].id
  {
    seq(|claims|, i requires 0 <= i < |claims| => claims[i].id)
  }

  /** Split by address, the claimed wallets are all still there, each as often as before. */
  lemma {:induction false} SplitKeepsEveryClaim(claims: seq<Claim>)
    ensures multiset(BadIds(claims) + GoodIds(claims)) == multiset(ClaimIds(claims))
  {
    if claims != [] {
      var n := |claims| - 1;
      SplitKeepsEveryClaim(claims[..n]);
      var id := claims[n].id;
      assert ClaimIds(claims) == ClaimIds(claims[..n]) + [id];
      assert multiset(BadIds(claims) + GoodIds(claims)) == multiset(BadIds(claims)) + multiset(GoodIds(claims));
    }
  }

  predicate AmountsFit(transfers: seq<Transfer>) {
    forall i | 0 <= i < |transfers| :: transfers[i].amount < WORD
  }

  /** The transfers a strategy planned for the wallets with a good address, in order. */
  predicate PlannedFor(claims: seq<Claim>, transfers: seq<Transfer>) {
    && |transfers| == |GoodIds(claims)|
    && forall i | 0 <= i < |transfers| :: transfers[i].id == GoodIds(claims)[i] && transfers[i].amount < WORD
  }

  function Last<T>(s: seq<T>): T
    requires s != []
  {
    s[|s| - 1]
  }

  /** The books between the roles, and each role's run. */
  datatype Pass = Pass(books: seq<Books>, runs: seq<Run>)

  type Role = (seq<Claim>, seq<Transfer>)

  predicate RunsFit(roles: seq<Role>, runs: seq<Run>) {
    |runs| <= |roles| && forall k | 0 <= k < |runs| :: |runs[k].funded| <= |roles[k].1|
  }

  predicate AllFunded(roles: seq<Role>, runs: seq<Run>) {
    |runs| <= |roles| && forall k | 0 <= k < |runs| :: |runs[k].funded| == |roles[k].1|
  }

  /** Each role starts from the books the one before it left. Every role but the last funded
      all its transfers; the last did too, or stopped at a rail. */
  predicate PassOf(p: Rails, pass: Pass, start: Books, roles: seq<Role>, net: nat -> nat -> Net) {
    && RunsFit(roles, pass.runs) && |pass.books| == |pass.runs| + 1 && pass.books[0] == start
    && (forall k | 0 <= k < |pass.runs| :: RoleRanAt(p, pass, roles, net, k))
    && (AllFunded(roles, pass.runs) || RailEnded(p, pass, roles))
  }

  predicate RoleRanAt(p: Rails, pass: Pass, roles: seq<Role>, net: nat -> nat -> Net, k: nat)
    requires k < |pass.runs| <= |roles| && |pass.books| == |pass.runs| + 1
  {
    RunOf(p, pass.runs[k], pass.books[k], pass.books[k + 1], roles[k].1, net(k))
  }

  predicate RailEnded(p: Rails, pass: Pass, roles: seq<Role>)
    requires RunsFit(roles, pass.runs) && |pass.books| == |pass.runs| + 1
  {
    var n := |pass.runs|;
    n > 0 && AllFunded(roles, pass.runs[..n - 1]) && StoppedAt(p, pass.runs[n - 1], pass.books[n], roles[n - 1].1)
  }

  function PassOutcomes(roles: seq<Role>, runs: seq<Run>): seq<Outcome>
    requires RunsFit(roles, runs)
  {
    if runs == [] then []
    else
      var n := |runs| - 1;
      PassOutcomes(roles, runs[..n]) + OutcomesOf(roles[n].0, roles[n].1, runs[n])
  }

  function OneMore(pass: Pass, run: Run, end: Books): Pass {
    Pass(pass.books + [end], pass.runs + [run])
  }

  lemma PassGoesOn(p: Rails, pass: Pass, start: Books, end: Books, roles: seq<Role>, net: nat -> nat -> Net, run: Run)
    requires PassOf(p, pass, start, roles, net) && AllFunded(roles, pass.runs) && |pass.runs| < |roles|
    requires RunOf(p, run, Last(pass.books), end, roles[|pass.runs|].1, net(|pass.runs|)) && |run.funded| == |roles[|pass.runs|].1|
    ensures PassOf(p, OneMore(pass, run, end), start, roles, net) && AllFunded(roles, pass.runs + [run])
  {
    EachRoleRan(p, pass, start, end, roles, net, run);
  }

  lemma EachRoleRan(p: Rails, pass: Pass, start: Books, end: Books, roles: seq<Role>, net: nat -> nat -> Net, run: Run)
    requires PassOf(p, pass, start, roles, net) && |pass.runs| < |roles|
    requires RunOf(p, run, Last(pass.books), end, roles[|pass.runs|].1, net(|pass.runs|))
    ensures forall k | 0 <= k <= |pass.runs| :: RoleRanAt(p, OneMore(pass, run, end), roles, net, k)
  {
    forall k | 0 <= k <= |pass.runs|
      ensures RoleRanAt(p, OneMore(pass, run, end), roles, net, k)
    {
      assert k < |pass.runs| ==> RoleRanAt(p, pass, roles, net, k);
    }
  }

  lemma PassStops(p: Rails, pass: Pass, start: Books, end: Books, roles: seq<Role>, net: nat -> nat -> Net, run: Run)
    requires PassOf(p, pass, start, roles, net) && AllFunded(roles, pass.runs) && |pass.runs| < |roles|
    requires RunOf(p, run, Last(pass.books), end, roles[|pass.runs|].1, net(|pass.runs|)) && StoppedAt(p, run, end, roles[|pass.runs|].1)
    ensures RunsFit(roles, pass.runs + [run]) && RailEnded(p, OneMore(pass, run, end), roles)
    ensures PassOf(p, OneMore(pass, run, end), start, roles, net)
  {
    EachRoleRan(p, pass, start, end, roles, net, run);
    assert (pass.runs + [run])[..|pass.runs|] == pass.runs;
  }

  lemma OneMoreRole(roles: seq<Role>, runs: seq<Run>, run: Run)
    requires RunsFit(roles, runs) && |runs| < |roles| && |run.funded| <= |roles[|runs|].1|
    ensures PassOutcomes(roles, runs + [run]) == PassOutcomes(roles, runs) + OutcomesOf(roles[|runs|].0, roles[|runs|].1, run)
  {
    assert (runs + [run])[..|runs|] == runs;
  }

  lemma BadAddressesStep(claims: seq<Claim>, i: nat, first: seq<Outcome>)
    requires i < |claims|
    ensures first + BadAddresses(claims[..i + 1])
            == first + BadAddresses(claims[..i]) + if claims[i].goodAddress then [] else [Outcome(claims[i].id, 0, BadAddress)]
  {
    assert claims[..i + 1][..i] == claims[..i];
  }

  lemma SkippedStep(transfers: seq<Transfer>, from: nat, i: nat, first: seq<Outcome>)
    requires from <= i < |transfers|
    ensures first + Skipped(transfers[from..i + 1])
            == first + Skipped(transfers[from..i]) + [Outcome(transfers[i].id, transfers[i].amount, SkippedCap)]
  {
  }

  lemma RoleOutcomes(first: seq<Outcome>, claims: seq<Claim>, transfers: seq<Transfer>, run: Run)
    requires |run.funded| <= |transfers|
    ensures first + BadAddresses(claims) + run.funded + Skipped(transfers[|run.funded|..]) == first + OutcomesOf(claims, transfers, run)
  {
  }

  // ---- the fees nobody books ------------------------------------------------

  /** What is left on chain once each transfer has cost its treasury a fee. */
  function OnChain(s: Source, fee: nat): int {
    s.balance - s.spent - fee * s.sends
  }

  /** A treasury as it was last picked: what it could spend, and the amount then drawn. */
  datatype Pick = Pick(left: nat, amount: nat)

  predicate PickOk(s: Source, p: Pick, reserve: nat) {
    s.sends > 0 ==> p.amount <= p.left && Spendable(s, reserve) == p.left - p.amount
  }

  /** The pass checks the amount alone. Its treasury still holds the reserve on chain at the
      end exactly when, at its last pick, what it could spend covered that amount and one fee
      for each transfer booked to it by then. */
  predicate SurvivesIffCovered(s: Source, p: Pick, reserve: nat, fee: nat) {
    OnChain(s, fee) >= reserve <==> p.left >= p.amount + fee * s.sends
  }

  lemma FeesComeOutOfTheReserve(s: Source, p: Pick, reserve: nat, fee: nat)
    requires PickOk(s, p, reserve) && s.sends > 0 && fee > 0
    ensures SurvivesIffCovered(s, p, reserve, fee)
  {
    assert fee * s.sends > 0;
  }

  predicate PicksOk(sources: seq<Source>, picks: seq<Pick>, reserve: nat) {
    |picks| == |sources| && forall i | 0 <= i < |sources| :: PickOk(sources[i], picks[i], reserve)
  }

  lemma DrawingKeepsPicks(sources: seq<Source>, picks: seq<Pick>, i: nat, amount: nat, reserve: nat)
    requires PicksOk(sources, picks, reserve) && i < |sources| && Spendable(sources[i], reserve) >= amount
    ensures PicksOk(sources[i := Drawn(sources[i], amount)], picks[i := Pick(Spendable(sources[i], reserve), amount)], reserve)
  {
  }

  /** Run with the reserve raised by a fee for every wallet claimed, no treasury the pass
      spent from ends below the true one. */
  lemma RaisedReserveCoversTheFees(s: Source, floor: nat, fee: nat, reserve: nat, claimed: nat)
    requires KeepsReserve(s, reserve) && s.spent > 0 && s.sends <= claimed
    requires reserve >= floor + fee * claimed
    ensures OnChain(s, fee) >= floor
  {
    MulMono(s.sends, claimed, fee);
  }

  /** The failing side is reached: a treasury drained to the last spendable lamport. */
  lemma ExactDrainEndsBelowReserve(reserve: nat, amount: nat, fee: nat)
    requires fee > 0
    ensures var s := Source(reserve + amount, 0, 0);
            var after := Drawn(s, amount);
            && IsBestSource([s], amount, reserve, 0) && KeepsReserve(after, reserve) && PickOk(after, Pick(amount, amount), reserve)
            && OnChain(after, fee) < reserve
  {
  }

  // ---- the books ------------------------------------------------------------

  /** The spend reported, the spend drawn and the spend sent are one number, at most the cap;
      every treasury drawn from keeps its reserve; every outcome settles its wallet; `picks`
      is the last pick of each treasury. */
  predicate BooksOk(sources: seq<Source>, picks: seq<Pick>, spent: nat, cap: nat, reserve: nat,
                    outcomes: seq<Outcome>, sent: set<nat>, reverted: set<nat>) {
    && TotalSpent(sources) == spent == SentTotal(outcomes)
    && spent <= cap < WORD
    && TotalBalance(sources) < WORD
    && (forall s | s in sources :: KeepsReserve(s, reserve))
    && Settled(outcomes, sent, reverted)
    && TotalSends(sources) == SentCount(outcomes)
    && PicksOk(sources, picks, reserve)
  }

  lemma ReportKeepsBooks(sources: seq<Source>, picks: seq<Pick>, spent: nat, cap: nat, reserve: nat,
                         outcomes: seq<Outcome>, sent: set<nat>, reverted: set<nat>, o: Outcome)
    requires BooksOk(sources, picks, spent, cap, reserve, outcomes, sent, reverted) && o.result != SentOk
    ensures BooksOk(sources, picks, spent, cap, reserve, outcomes + [o], sent, reverted + {o.id})
  {
    OneMoreOutcome(outcomes, o);
    OneMoreSettled(outcomes, sent, reverted, o);
  }

  lemma SendKeepsBooks(sources: seq<Source>, picks: seq<Pick>, spent: nat, cap: nat, reserve: nat,
                       outcomes: seq<Outcome>, sent: set<nat>, reverted: set<nat>, i: nat, o: Outcome)
    requires BooksOk(sources, picks, spent, cap, reserve, outcomes, sent, reverted) && o.result == SentOk
    requires i < |sources| && Spendable(sources[i], reserve) >= o.amount && spent + o.amount <= cap
    ensures |picks| == |sources|
    ensures BooksOk(sources[i := Drawn(sources[i], o.amount)], picks[i := Pick(Spendable(sources[i], reserve), o.amount)],
                    spent + o.amount, cap, reserve, outcomes + [o], sent + {o.id}, reverted)
  {
    OneMoreOutcome(outcomes, o);
    OneMoreSettled(outcomes, sent, reverted, o);
    DrawingAddsUp(sources, i, o.amount);
    DrawingKeepsReserves(sources, i, o.amount, reserve);
    DrawingKeepsPicks(sources, picks, i, o.amount, reserve);
  }

  class FundingPass {
    const cap: nat
    const reserve: nat
    const dryRun: bool
    var sources: seq<Source>
    var spent: nat
    var hasBlockhash: bool
    var sendsSinceRefresh: nat
    var outcomes: seq<Outcome>
    var sent: set<nat>
    var reverted: set<nat>
    ghost var picks: seq<Pick>

    ghost predicate Valid()
      reads this
    {
      BooksOk(sources, picks, spent, cap, reserve, outcomes, sent, reverted)
    }

    ghost function Now(): Books
      reads this
    {
      Books(sources, spent, hasBlockhash, sendsSinceRefresh)
    }

    ghost function Limits(): Rails {
      Rails(cap, reserve, dryRun)
    }

    constructor (balances: seq<nat>, cap: nat, reserve: nat, dryRun: bool)
      requires cap < WORD
      requires TotalBalance(FreshSources(balances)) < WORD
      ensures Valid() && outcomes == [] && sources == FreshSources(balances)
      ensures this.cap == cap && this.reserve == reserve && this.dryRun == dryRun
      ensures Now() == Books(FreshSources(balances), 0, false, 0)
    {
      this.cap := cap;
      this.reserve := reserve;
      this.dryRun := dryRun;
      sources := FreshSources(balances);
      spent := 0;
      hasBlockhash := false;
      sendsSinceRefresh := 0;
      outcomes := [];
      sent := {};
      reverted := {};
      picks := seq(|balances|, _ => Pick(0, 0));
      new;
      NothingSpentYet(balances);
    }

    method Report(o: Outcome)
      requires Valid() && o.result != SentOk
      modifies `outcomes, `reverted
      ensures Valid() && outcomes == old(outcomes) + [o]
    {
      ReportKeepsBooks(sources, picks, spent, cap, reserve, outcomes, sent, reverted, o);
      outcomes := outcomes + [o];
      reverted := reverted + {o.id};
    }

    method BookSend(t: Transfer, i: nat)
      requires Valid() && i < |sources| && Spendable(sources[i], reserve) >= t.amount && spent + t.amount <= cap
      modifies `sources, `spent, `sendsSinceRefresh, `outcomes, `sent, `picks
      ensures Valid() && outcomes == old(outcomes) + [Outcome(t.id, t.amount, SentOk)]
      ensures sources == old(sources)[i := Drawn(old(sources)[i], t.amount)]
      ensures picks == old(picks)[i := Pick(Spendable(old(sources)[i], reserve), t.amount)]
      ensures spent == old(spent) + t.amount && sendsSinceRefresh == old(sendsSinceRefresh) + 1
    {
      var o := Outcome(t.id, t.amount, SentOk);
      SendKeepsBooks(sources, picks, spent, cap, reserve, outcomes, sent, reverted, i, o);
      picks := picks[i := Pick(Spendable(sources[i], reserve), t.amount)];
      sources := sources[i := Drawn(sources[i], t.amount)];
      spent := spent + t.amount;
      sendsSinceRefresh := sendsSinceRefresh + 1;
      sent := sent + {t.id};
      outcomes := outcomes + [o];
    }

    /** The spend check wraps at 64 bits; it is exact because no treasury pool holds that much. */
    method OverCap(amount: nat, source: Option<nat>) returns (stop: bool)
      requires Valid() && amount < WORD
      requires source.Some? ==> source.value < |sources| && Spendable(sources[source.value], reserve) >= amount
      ensures source.Some? ==> (stop <==> spent + amount > cap)
    {
      stop := (spent + amount) % WORD > cap;
      if source.Some? {
        assert sources[source.value] in sources;
        SpentWithinBalances(sources, source.value);
      }
    }

    /** Reuse one blockhash across the pass; refresh it now and then. */
    method RefreshBlockhash(net: Net)
      requires Valid()
      modifies `hasBlockhash, `sendsSinceRefresh
      ensures Valid() && hasBlockhash == (old(hasBlockhash) || net.blockhash)
      ensures sendsSinceRefresh == if net.blockhash && (!old(hasBlockhash) || old(sendsSinceRefresh) >= BLOCKHASH_REFRESH_EVERY) then 0
                                   else old(sendsSinceRefresh)
    {
      if !hasBlockhash || sendsSinceRefresh >= BLOCKHASH_REFRESH_EVERY {
        if net.blockhash {
          hasBlockhash := true;
          sendsSinceRefresh := 0;
        }
      }
    }

    /** Send from the chosen treasury, or revert. */
    method Deliver(t: Transfer, i: nat, net: Net)
      requires Valid() && i < |sources| && Spendable(sources[i], reserve) >= t.amount && spent + t.amount <= cap && !dryRun
      modifies this
      ensures Valid() && outcomes == old(outcomes) + [Outcome(t.id, t.amount, Delivery(false, old(hasBlockhash), net))]
      ensures if Delivery(false, old(hasBlockhash), net) == SentOk
              then sources == old(sources)[i := Drawn(old(sources)[i], t.amount)] && spent == old(spent) + t.amount
              else sources == old(sources) && spent == old(spent)
      ensures var refreshed := net.blockhash && (!old(hasBlockhash) || old(sendsSinceRefresh) >= 20);
              && hasBlockhash == (old(hasBlockhash) || refreshed)
              && sendsSinceRefresh == (if refreshed then 0 else old(sendsSinceRefresh))
                                      + if Delivery(false, old(hasBlockhash), net) == SentOk then 1 else 0
    {
      RefreshBlockhash(net);
      if hasBlockhash && net.submitted {
        BookSend(t, i);
      } else {
        Report(Outcome(t.id, t.amount, Failed));
      }
    }

    /** One transfer: the pass stops exactly when a rail is hit, and then nothing moves; else
        the transfer is funded. */
    method FundOne(t: Transfer, net: Net) returns (stop: bool)
      requires Valid() && t.amount < WORD
      modifies this
      ensures Valid() && (stop <==> RailHit(old(sources), old(spent), cap, reserve, t.amount))
      ensures stop ==> outcomes == old(outcomes) && Now() == old(Now())
      ensures !stop ==> |outcomes| > 0 && outcomes == old(outcomes) + [Last(outcomes)] && Funds(Limits(), old(Now()), Now(), t, net, Last(outcomes))
      ensures dryRun ==> sources == old(sources) && sent == old(sent)
    {
      var source := PickSource(sources, t.amount, reserve);
      var overCap := OverCap(t.amount, source);
      if overCap || source.None? {
        return true;
      }
      stop := false;
      assert sources[source.value] in sources;
      assert DrawnFromBest(sources, sources[source.value := Drawn(sources[source.value], t.amount)], t.amount, reserve);
      if dryRun {
        Report(Outcome(t.id, t.amount, DryRun));
      } else {
        Deliver(t, source.value, net);
      }
    }

    method RevertBadAddresses(claims: seq<Claim>)
      requires Valid()
      modifies `outcomes, `reverted
      ensures Valid() && outcomes == old(outcomes) + BadAddresses(claims)
    {
      ghost var first := outcomes;
      for i := 0 to |claims|
        invariant Valid() && outcomes == first + BadAddresses(claims[..i])
      {
        BadAddressesStep(claims, i, first);
        if !claims[i].goodAddress {
          Report(Outcome(claims[i].id, 0, BadAddress));
        }
      }
      assert claims[..|claims|] == claims;
    }

    /** Revert every transfer from `from` on. */
    method SkipRest(transfers: seq<Transfer>, from: nat)
      requires Valid() && from <= |transfers|
      modifies `outcomes, `reverted
      ensures Valid() && outcomes == old(outcomes) + Skipped(transfers[from..])
    {
      ghost var first := outcomes;
      for i := from to |transfers|
        invariant Valid() && outcomes == first + Skipped(transfers[from..i])
      {
        SkippedStep(transfers, from, i, first);
        Report(Outcome(transfers[i].id, transfers[i].amount, SkippedCap));
      }
      assert transfers[from..|transfers|] == transfers[from..];
    }

    /** The transfers in order, each funded, up to the first that hits a rail. */
    method FundUntilRail(transfers: seq<Transfer>, net: nat -> Net) returns (at: nat, ghost run: Run)
      requires Valid() && AmountsFit(transfers)
      modifies this
      ensures Valid() && RunOf(Limits(), run, old(Now()), Now(), transfers, net)
      ensures at == |run.funded| && outcomes == old(outcomes) + run.funded
      ensures at < |transfers| ==> StoppedAt(Limits(), run, Now(), transfers)
      ensures dryRun ==> sources == old(sources) && sent == old(sent)
    {
      ghost var start, first := Now(), outcomes;
      run := Run([start], []);
      for i := 0 to |transfers|
        invariant Valid() && RunOf(Limits(), run, start, Now(), transfers, net)
        invariant i == |run.funded| && outcomes == first + run.funded
        invariant dryRun ==> sources == old(sources) && sent == old(sent)
      {
        ghost var here := Now();
        var stop := FundOne(transfers[i], net(i));
        if stop {
          return i, run;
        }
        RunGoesOn(Limits(), run, start, here, Now(), transfers, net, Last(outcomes));
        run := Run(run.books + [Now()], run.funded + [Last(outcomes)]);
      }
      at := |transfers|;
    }

    /** The first transfer to hit a rail is skipped, and so are all after it. */
    method FundAll(transfers: seq<Transfer>, net: nat -> Net) returns (stop: bool, ghost run: Run)
      requires Valid() && AmountsFit(transfers)
      modifies this
      ensures Valid() && RunOf(Limits(), run, old(Now()), Now(), transfers, net)
      ensures outcomes == old(outcomes) + run.funded + Skipped(transfers[|run.funded|..])
      ensures if stop then StoppedAt(Limits(), run, Now(), transfers) else |run.funded| == |transfers|
      ensures dryRun ==> sources == old(sources) && sent == old(sent)
    {
      var at;
      at, run := FundUntilRail(transfers, net);
      SkipRest(transfers, at);
      stop := at < |transfers|;
    }

    /** One role: every wallet it claimed gets exactly one outcome, whether the pass goes on
        or stops at a rail. */
    method FundRole(claims: seq<Claim>, transfers: seq<Transfer>, net: nat -> Net) returns (stop: bool, ghost run: Run)
      requires Valid() && PlannedFor(claims, transfers)
      modifies this
      ensures Valid()
      ensures RunOf(Limits(), run, old(Now()), Now(), transfers, net)
      ensures if stop then StoppedAt(Limits(), run, Now(), transfers) else |run.funded| == |transfers|
      ensures outcomes == old(outcomes) + OutcomesOf(claims, transfers, run)
      ensures dryRun ==> sources == old(sources) && sent == old(sent)
    {
      ghost var first := outcomes;
      RevertBadAddresses(claims);
      stop, run := FundAll(transfers, net);
      RoleOutcomes(first, claims, transfers, run);
    }

    /** The roles in turn; a rail ends the pass before the next role claims anything. */
    method FundRoles(roles: seq<Role>, net: nat -> nat -> Net) returns (claimed: seq<nat>, ghost pass: Pass)
      requires Valid() && outcomes == [] && forall r | r in roles :: PlannedFor(r.0, r.1)
      modifies this
      ensures Valid() && PassOf(Limits(), pass, old(Now()), roles, net) && Last(pass.books) == Now()
      ensures |pass.runs| < |roles| ==> RailEnded(Limits(), pass, roles)
      ensures outcomes == PassOutcomes(roles, pass.runs) && claimed == ClaimedBy(roles[..|pass.runs|])
    {
      ghost var start := Now();
      claimed := [];
      pass := Pass([start], []);
      for k := 0 to |roles|
        invariant Valid() && claimed == ClaimedBy(roles[..k])
        invariant |pass.runs| == k && PassOf(Limits(), pass, start, roles, net) && Last(pass.books) == Now()
        invariant AllFunded(roles, pass.runs)
        invariant outcomes == PassOutcomes(roles, pass.runs)
      {
        var stop, run := FundRole(roles[k].0, roles[k].1, net(k));
        OneMoreRole(roles, pass.runs, run);
        OneMoreClaims(roles, k);
        claimed := claimed + ClaimIds(roles[k].0);
        if stop {
          PassStops(Limits(), pass, start, Now(), roles, net, run);
          pass := OneMore(pass, run, Now());
          return;
        }
        PassGoesOn(Limits(), pass, start, Now(), roles, net, run);
        pass := OneMore(pass, run, Now());
      }
    }

    /** A whole pass: the wallets with an outcome are exactly those claimed. */
    method FundOnce(roles: seq<Role>, net: nat -> nat -> Net) returns (claimed: seq<nat>, ghost pass: Pass)
      requires Valid() && outcomes == [] && forall r | r in roles :: PlannedFor(r.0, r.1)
      modifies this
      ensures Valid() && PassOf(Limits(), pass, old(Now()), roles, net) && Last(pass.books) == Now()
      ensures |pass.runs| < |roles| ==> RailEnded(Limits(), pass, roles)
      ensures outcomes == PassOutcomes(roles, pass.runs) && claimed == ClaimedBy(roles[..|pass.runs|])
      ensures multiset(Ids(outcomes)) == multiset(claimed) && EachSentOrReverted(claimed, sent, reverted)
      ensures forall s | s in sources :: s.sends <= |claimed|
      ensures forall i, fee: nat | 0 <= i < |sources| && sources[i].sends > 0 && fee > 0 :: SurvivesIffCovered(sources[i], picks[i], reserve, fee)
    {
      claimed, pass := FundRoles(roles, net);
      EveryClaimHasOneOutcome(Limits(), pass, old(Now()), roles, net);
      CloseBooks(claimed);
    }

    lemma CloseBooks(claimed: seq<nat>)
      requires Valid() && multiset(Ids(outcomes)) == multiset(claimed)
      ensures EachSentOrReverted(claimed, sent, reverted)
      ensures forall s | s in sources :: s.sends <= |claimed|
      ensures forall i, fee: nat | 0 <= i < |sources| && sources[i].sends > 0 && fee > 0 :: SurvivesIffCovered(sources[i], picks[i], reserve, fee)
    {
      EveryWalletSentOrReverted(outcomes, sent, reverted, claimed);
      assert |multiset(Ids(outcomes))| == |outcomes| && |multiset(claimed)| == |claimed|;
      forall s | s in sources
        ensures s.sends <= |claimed|
      {
        var i :| 0 <= i < |sources| && sources[i] == s;
        SendsWithinTotal(sources, i);
      }
      forall i, fee: nat | 0 <= i < |sources| && sources[i].sends > 0 && fee > 0
        ensures SurvivesIffCovered(sources[i], picks[i], reserve, fee)
      {
        FeesComeOutOfTheReserve(sources[i], picks[i], reserve, fee);
      }
    }
  }

  lemma {:induction false} BadAddressIds(claims: seq<Claim>)
    ensures Ids(BadAddresses(claims)) == BadIds(claims)
  {
    if claims != [] {
      BadAddressIds(claims[..|claims| - 1]);
    }
  }

  /** One role: every wallet it claimed has exactly one outcome, whether the run funded all or
      stopped at a rail. */
  lemma OneOutcomeEach(p: Rails, run: Run, start: Books, end: Books, claims: seq<Claim>, transfers: seq<Transfer>, net: nat -> Net)
    requires PlannedFor(claims, transfers) && RunOf(p, run, start, end, transfers, net)
    ensures multiset(Ids(OutcomesOf(claims, transfers, run))) == multiset(ClaimIds(claims))
  {
    BadAddressIds(claims);
    SplitKeepsEveryClaim(claims);
    forall k | 0 <= k < |run.funded|
      ensures run.funded[k].id == transfers[k].id
    {
      assert FundsAt(p, run, transfers, net, k);
    }
    var rest := run.funded + Skipped(transfers[|run.funded|..]);
    assert Ids(rest) == GoodIds(claims);
    assert OutcomesOf(claims, transfers, run) == BadAddresses(claims) + rest;
    assert Ids(BadAddresses(claims) + rest) == Ids(BadAddresses(claims)) + Ids(rest);
  }

  /** So too for the whole pass: its outcomes are those of the wallets it claimed. */
  lemma EveryClaimHasOneOutcome(p: Rails, pass: Pass, start: Books, roles: seq<Role>, net: nat -> nat -> Net)
    requires PassOf(p, pass, start, roles, net) && forall r | r in roles :: PlannedFor(r.0, r.1)
    ensures multiset(Ids(PassOutcomes(roles, pass.runs))) == multiset(ClaimedBy(roles[..|pass.runs|]))
  {
    forall k | 0 <= k < |pass.runs|
      ensures multiset(Ids(OutcomesOf(roles[k].0, roles[k].1, pass.runs[k]))) == multiset(ClaimIds(roles[k].0))
    {
      assert roles[k] in roles && RoleRanAt(p, pass, roles, net, k);
      OneOutcomeEach(p, pass.runs[k], pass.books[k], pass.books[k + 1], roles[k].0, roles[k].1, net(k));
    }
    RolesAddUp(roles, pass.runs);
  }

  lemma {:induction false} RolesAddUp(roles: seq<Role>, runs: seq<Run>)
    requires RunsFit(roles, runs)
    requires forall k | 0 <= k < |runs| :: multiset(Ids(OutcomesOf(roles[k].0, roles[k].1, runs[k]))) == multiset(ClaimIds(roles[k].0))
    ensures multiset(Ids(PassOutcomes(roles, runs))) == multiset(ClaimedBy(roles[..|runs|]))
  {
    if runs != [] {
      var n := |runs| - 1;
      RolesAddUp(roles, runs[..n]);
      OneMoreClaims(roles, n);
      IdsJoin(PassOutcomes(roles, runs[..n]), OutcomesOf(roles[n].0, roles[n].1, runs[n]));
    }
  }

  lemma IdsJoin(a: seq<Outcome>, b: seq<Outcome>)
    ensures multiset(Ids(a + b)) == multiset(Ids(a)) + multiset(Ids(b))
  {
    assert Ids(a + b) == Ids(a) + Ids(b);
  }

  lemma OneMoreClaims(roles: seq<Role>, n: nat)
    requires n < |roles|
    ensures ClaimedBy(roles[..n + 1]) == ClaimedBy(roles[..n]) + ClaimIds(roles[n].0)
  {
    assert roles[..n + 1][..n] == roles[..n];
  }

  function ClaimedBy(roles: seq<Role>): seq<nat> {
    if roles == [] then [] else ClaimedBy(roles[..|roles| - 1]) + ClaimIds(roles[|roles| - 1].0)
  }

  function FreshSources(balances: seq<nat>): (sources: seq<Source>)
    ensures |sources| == |balances| && forall i | 0 <= i < |sources| :: sources[i] == Source(balances[i], 0, 0)
  {
    seq(|balances|, i requires 0 <= i < |balances| => Source(balances[i], 0, 0))
  }

  lemma {:induction false} NothingSpentYet(balances: seq<nat>)
    ensures TotalSpent(FreshSources(balances)) == 0 && TotalSends(FreshSources(balances)) == 0
  {
    if balances != [] {
      var n := |balances| - 1;
      NothingSpentYet(balances[..n]);
      assert FreshSources(balances)[..n] == FreshSources(balances[..n]);
    }
  }
}
