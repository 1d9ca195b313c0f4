/** A rule as a person would write it that is bought and sold on the same reads. */
module AuthoredVeto {
  import opened Metrics
  import opened Rules
  import opened RuleReqs
  import opened Veto
  import opened Compile
  import opened CompileMeaning
  import opened AuthoredDecisions
  import opened AuthoredActions

  /** A deadline leads to a stage, and only a stage that ends has lines for its end. */
  predicate DeadlinesLead(p: Params) {
    forall i | 0 <= i < |p.stages| ::
      var s := p.stages[i];
      (s.atEnd != [] ==> s.ends.Some?) && (s.next.Some? ==> s.ends.Some?) && (s.ends.Some? && s.next.None? ==> i + 1 < |p.stages|)
  }

  const GIVE_UP := AuthoredLine([], Some(AuthoredSell(Some("aged out"), None, false)), None, false)

  /** Buys at once; its first stage ends at a coin age and then sells everything, else a second
      stage follows. */
  function AgedOut(secs: real): Params {
    Params(EnterDef([], [], [], Unlocked, []), None, None, [], [],
           [Stage.Stage("early", Some((Age, secs)), [], [GIVE_UP], None), Stage.Stage("late", None, [], [], None)], None, false)
  }

  lemma AgedOutIsValid(secs: real, env: Env)
    requires env.signals == [] && env.stages == StageNames(AgedOut(secs).stages)
    ensures Named(env, AgedOut(secs)) && DeadlinesLead(AgedOut(secs))
  {
    var p := AgedOut(secs);
    assert p.stages[0].name == "early" && p.stages[1].name == "late";
    assert "early"[0] != "late"[0];
  }

  lemma AgedOutIsBought(secs: real, env: Env, coin: Reads, now: Ts)
    requires Named(env, AgedOut(secs))
    ensures Wf(Compiled(env, AgedOut(secs)))
    ensures TryEnter(Compiled(env, AgedOut(secs)), coin, now, None, false) == Enter
  {
    CompiledEntryIsTheAuthoredOne(env, AgedOut(secs), View(coin, None, now));
    VerdictMeaning(Compiled(env, AgedOut(secs)), coin, now, None, false);
  }

  lemma AgedOutGivesUp(secs: real, env: Env, held: Entered, v: View)
    requires Named(env, AgedOut(secs)) && v.pos == Some(Ctx(held)) && held.stage == 0 && v.coin.ageSec(v.now) >= secs
    ensures AuthoredPick(env, AgedOut(secs), 0, v, None) == Take(GIVE_UP)
  {
    var ls := [GIVE_UP];
    assert AgedOut(secs).stages[0].atEnd == ls && ls[..0] == [];
    assert LineNamed(env, GIVE_UP) && ActsAsAuthored(env, GIVE_UP, 0, v, None);
    assert LinesNamed(env, ls);
    assert FirstAuthored(env, ls, 0, v, None) == Some(GIVE_UP);
  }

  /** A valid rule on the failing side of `BuySellsBackIffTheStageIsOver`: a coin already past
      the age deadline is bought, and sold with the same reads by a line that reads no position. */
  lemma AtEndLineEscapesTheVeto(secs: real, env: Env, coin: Reads, now: Ts, price: real, reserve: Reading)
    requires env.signals == [] && env.stages == StageNames(AgedOut(secs).stages)
    requires coin.ageSec(now) >= secs
    ensures Named(env, AgedOut(secs)) && DeadlinesLead(AgedOut(secs))
    ensures var rule := Compiled(env, AgedOut(secs));
            && Wf(rule) && TryEnter(rule, coin, now, None, false) == Enter
            && HeldStepAction(rule, coin, Fresh(price, now, reserve, None), now) == SellAction(Labelled("aged out"), None, false, None)
  {
    var held := Fresh(price, now, reserve, None);
    var v := View(coin, Some(Ctx(held)), now);
    AgedOutIsValid(secs, env);
    AgedOutIsBought(secs, env, coin, now);
    AgedOutGivesUp(secs, env, held, v);
    CompiledActionIsTheAuthoredOne(env, AgedOut(secs), held, v);
  }
}
