/** What a topic can do that answers an activity with an event it should not: the event goes
    into the log verbatim.  The runs here are reachable ones, through the loop itself. */
module UntrustedTopic {
  import opened Common
  import opened Rfc3339
  import opened Storage
  import opened Queue
  import opened Events
  import opened Items
  import opened IntakeLoop
  import opened LoopWorld
  import opened Transactions
  import opened Replay
  import opened TopicData
  import opened Pipeline
  import opened SettingsRuns

  const CALL := ToolCall("c1", "t.act", Some(JNull))
  const DEFER := ToolCall("c2", HALT_DEFER_TO_HUMAN, Some(JNull))

  /** The model calls one activity of topic `t`, which answers with `e`, and then defers. */
  function AnsweredBy(e: Event): World {
    World("", "", {"t"},
          turn => Choices([Choice(None, Some([if turn == 0 then CALL else DEFER]))]),
          (_, _) => Ok(e))
  }

  function OutcomeOf(e: Event): IntakeOutcome {
    DeferredToHuman(Given("(no reason given)"), Transcript(AnsweredBy(e), 2), [e])
  }

  lemma CallReachesTopic(e: Event, position: nat)
    ensures Dispatch(AnsweredBy(e), 0, position, CALL) == ActivityResult(e)
  {
    var rest := "t.act"[1..];
    assert rest[0] == '.' && TopicPrefix(rest) == Some("");
    assert TopicPrefix("t.act") == Some("t" + "");
    assert "t" + "" == "t";
  }

  lemma FirstTurn(e: Event)
    ensures !Ends(AnsweredBy(e).reply(0)) && TurnEvents(AnsweredBy(e), 0) == [e]
  {
    var w, calls := AnsweredBy(e), CallsOf(AnsweredBy(e).reply(0));
    assert calls == [CALL] && calls[0] == CALL;
    HaltCountIs(calls);
    CallReachesTopic(e, 0);
    assert IntakeLoop.EventsOf(w, 0, calls, 0) == [];
    assert IntakeLoop.EventsOf(w, 0, calls, 1) == [] + [e];
  }

  lemma SecondTurn(e: Event)
    ensures OneHalt(CallsOf(AnsweredBy(e).reply(1)), 0) && TurnEvents(AnsweredBy(e), 1) == []
  {
    var w, calls := AnsweredBy(e), CallsOf(AnsweredBy(e).reply(1));
    assert calls == [DEFER] && calls[0] == DEFER;
    assert calls[..0] == [];
    assert HaltCount(calls) == HaltCount([]) + 1;
    assert Dispatch(w, 1, 0, DEFER).Halt?;
    assert IntakeLoop.EventsOf(w, 1, calls, 0) == [];
    assert IntakeLoop.EventsOf(w, 1, calls, 1) == [];
  }

  /** The loop hands the topic's event on. */
  lemma LoopHandsOn(e: Event, budget: nat)
    requires budget >= 2
    ensures Conclusion(AnsweredBy(e), budget) == Ok(OutcomeOf(e))
  {
    var w := AnsweredBy(e);
    FirstTurn(e);
    SecondTurn(e);
    assert HaltsAt(w, budget, 1, 0);
    HaltConcludes(w, budget, 1, 0);
    assert Audit(w, 1) == [] + [e];
    assert Audit(w, 2) == [e] + [] == [e];
    assert CallsOf(w.reply(1))[0] == DEFER;
  }

  /** From any state where log and tables agree, a finalize with that outcome keeps them in
      agreement exactly when the topic's event is no lifecycle event. */
  lemma ForgedEventBreaksReplay(s: State, item: ItemId, worker: string, e: Event, budget: nat, eventId: string, at: string)
    requires Agrees(s) && budget >= 2
    requires CanFinishIntake(s, item, worker, Processed(Conclusion(AnsweredBy(e), budget)), eventId)
    ensures Agrees(AfterIntake(s, item, Processed(Conclusion(AnsweredBy(e), budget)), eventId, at)) <==> Lifecycle(e).None?
  {
    LoopHandsOn(e, budget);
    IntakeAgreesExactly(s, item, worker, OutcomeOf(e), eventId, at);
    assert OutcomeOf(e).events == [e] && e in [e];
  }

  // ── a whole run ──────────────────────────────────────────────────────

  const ITEM := "i"
  const WORKER := "w"
  const CONTENT := Item("", None, None, None, JNull)

  function WithItem(at: string): State {
    AfterCreate(EMPTY, ITEM, CONTENT, [CreationEvent("c", ITEM, System, map[])], INTAKE, at)
  }

  function ClaimedBy(s: State, at: string, until: string): State
    requires Key(INTAKE, ITEM) in s.rows
  {
    s.(rows := Claimed(s.rows, Key(INTAKE, ITEM), WORKER, at, until))
  }

  function StepsOf(e: Event, at: string, until: string): seq<Step> {
    [Creating(ITEM, CONTENT, "c", map[], at),
     Claiming(INTAKE, WORKER, at, until, Some(ITEM)),
     FinishingIntake(ITEM, WORKER, OutcomeOf(e), "a", at)]
  }

  /** Created and finalized at the texts `at`, claimed from `at` to `until`; each state follows from the one before. */
  ghost predicate ShortRun(states: seq<State>, e: Event, at: string, until: string) {
    |states| == 4 && states[0] == EMPTY && states[1] == WithItem(at)
    && states[2] == ClaimedBy(states[1], at, until)
    && states[3] == AfterIntake(states[2], ITEM, OutcomeOf(e), "a", at)
  }

  lemma CreateStep(at: string)
    ensures Next(EMPTY, Creating(ITEM, CONTENT, "c", map[], at), WithItem(at))
    ensures WithItem(at).rows == map[Key(INTAKE, ITEM) := FreshRow(0, at)]
    ensures WithItem(at).events == [CreationEvent("c", ITEM, System, map[])] && ITEM in WithItem(at).items
  {
  }

  lemma ClaimStep(at: string, until: string)
    ensures Next(WithItem(at), Claiming(INTAKE, WORKER, at, until, Some(ITEM)), ClaimedBy(WithItem(at), at, until))
  {
    var (rows, k) := (WithItem(at).rows, Key(INTAKE, ITEM));
    CreateStep(at);
    assert AvailableKeys(rows, INTAKE, at) == {k};
    if Precedes(rows[k], rows[k]) { PrecedesIsStrict(rows[k], rows[k]); }
  }

  lemma FinishStep(s: State, e: Event, at: string, until: string)
    requires s == ClaimedBy(WithItem(at), at, until) && e.id != "c" && e.id != "a"
    ensures CanFinishIntake(s, ITEM, WORKER, OutcomeOf(e), "a")
    ensures Next(s, FinishingIntake(ITEM, WORKER, OutcomeOf(e), "a", at), AfterIntake(s, ITEM, OutcomeOf(e), "a", at))
  {
    CreateStep(at);
    var analysis := AnalysisEvent("a", ITEM, OutcomeOf(e));
    assert analysis.id == "a" && s.events[0].id == "c";
    assert forall id :: Recorded(s.events, id) <==> id == "c";
    assert Appendable(s.events, [e] + [analysis]);
  }

  /** Every step of a short run is one the server takes. */
  lemma ShortRunSteps(states: seq<State>, e: Event, at: string, until: string)
    requires ShortRun(states, e, at, until) && e.id != "c" && e.id != "a"
    ensures forall i :: 0 <= i < 3 ==> Next(states[i], StepsOf(e, at, until)[i], states[i + 1])
    ensures Agrees(states[2]) && CanFinishIntake(states[2], ITEM, WORKER, OutcomeOf(e), "a")
  {
    var steps := StepsOf(e, at, until);
    CreateStep(at);
    ClaimStep(at, until);
    FinishStep(states[2], e, at, until);
    assert Next(states[0], steps[0], states[1]) && Next(states[1], steps[1], states[2]);
    assert Next(states[2], steps[2], states[3]);
    assert QueueKeys(map[]) == {};
    NextAgrees(states[0], steps[0], states[1]);
    NextAgrees(states[1], steps[1], states[2]);
  }

  /** The item tables and the log part after three steps from the empty database, when the one
      event a topic answered with claims a creation that never was. */
  lemma ForgedRunParts(states: seq<State>, at: string, until: string)
    requires ShortRun(states, CreationEvent("f", "victim", System, map[]), at, until)
    ensures var steps := StepsOf(CreationEvent("f", "victim", System, map[]), at, until);
            forall i :: 0 <= i < 3 ==> Next(states[i], steps[i], states[i + 1])
    ensures Agrees(states[2]) && !Agrees(states[3])
  {
    var e := CreationEvent("f", "victim", System, map[]);
    assert e.id == "f";
    ShortRunSteps(states, e, at, until);
    CreationMeans("f", "victim", System, map[]);
    LoopHandsOn(e, 2);
    ForgedEventBreaksReplay(states[2], ITEM, WORKER, e, 2, "a", at);
  }

  lemma ShortRunIsRun(states: seq<State>, e: Event, at: string, until: string)
    requires ShortRun(states, e, at, until) && e.id != "c" && e.id != "a" && Lifecycle(e).None?
    ensures Run(states, StepsOf(e, at, until))
  {
    ShortRunSteps(states, e, at, until);
    var steps := StepsOf(e, at, until);
    forall i | 0 <= i < 3 ensures TopicsHonest(steps[i]) {
      assert OutcomeOf(e).events == [e];
    }
  }

  /** A finalize that logs a setting the table does not have parts the two. */
  lemma UnstoredWriteParts(s: State, e: Event, at: string, s': State, w: Write)
    requires Next(s, FinishingIntake(ITEM, WORKER, OutcomeOf(e), "a", at), s') && s'.events != s.events
    requires LastWrite([e], w.at) == Some(w.value) && ValueAt(s.topicData, w.at) != Some(w.value)
    ensures !AgreesAt(s', w.at)
  {
    NextAgreesExactly(s, FinishingIntake(ITEM, WORKER, OutcomeOf(e), "a", at), s', w.at);
  }

  /** The failing run for the second way a setting is lost: no table write fails, and the event is
      one the other results allow, but the log now holds a setting the table never had. */
  lemma ForgedSettingParts(states: seq<State>, at: string, until: string)
    requires ShortRun(states, DataEvent("f", "t", "k", JNull), at, until)
    ensures Run(states, StepsOf(DataEvent("f", "t", "k", JNull), at, until))
    ensures Agrees(states[3]) && !AgreesAt(states[3], DataKey("t", "k"))
  {
    var (e, k) := (DataEvent("f", "t", "k", JNull), DataKey("t", "k"));
    ShortRunIsRun(states, e, at, until);
    RunAgrees(states, StepsOf(e, at, until), 3);
    DataEventWrites("f", "t", "k", JNull, k);
    ShortRunSteps(states, e, at, until);
    assert |states[3].events| == |states[2].events| + 2;
    UnstoredWriteParts(states[2], e, at, states[3], Write(k, JNull));
  }
}
