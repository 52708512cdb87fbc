/** One pass of the intake worker with nobody in between: claim, load, run the loop, finalize.
    `Pipeline` takes the same pass apart and lets anything happen between its two transactions. */
module IntakeWorker {
  import opened Common
  import opened Rfc3339
  import opened Storage
  import opened Queue
  import opened Events
  import opened IntakeLoop
  import opened LoopWorld
  import opened Transactions
  import opened Replay
  import opened Pipeline

  const LEASE := 30 * NANOS_PER_SECOND
  const TURN_BUDGET := 8

  /** What the pass needs from outside: the model and the topics for an item, an id, two clock readings. */
  datatype Pass = Pass(world: Item -> World, worker: string, eventId: string, now: Instant, later: Instant)

  function OutcomeFor(pass: Pass, item: Item): IntakeOutcome {
    Processed(Conclusion(pass.world(item), TURN_BUDGET))
  }

  function ClaimedState(s: State, pass: Pass, k: Key): State
    requires k in s.rows && InRange(pass.now + LEASE)
  {
    s.(rows := Claimed(s.rows, k, pass.worker, Encode(pass.now), Encode(pass.now + LEASE)))
  }

  /** From `s`, the pass takes `item` and leaves `s'`. */
  ghost predicate Passes(s: State, pass: Pass, item: ItemId, s': State)
    requires InRange(pass.now + LEASE)
  {
    var k := Key(INTAKE, item);
    Dispatchable(s.rows, INTAKE, Encode(pass.now), k) &&
    var claimed := ClaimedState(s, pass, k);
    if item !in s.items then s' == claimed.(rows := Unclaimed(claimed.rows, k))
    else
      var outcome := OutcomeFor(pass, s.items[item]);
      s' == if CanFinishIntake(claimed, item, pass.worker, outcome, pass.eventId)
            then AfterIntake(claimed, item, outcome, pass.eventId, Encode(pass.later)) else claimed
  }

  /** `process_next`.  A finalize that fails is logged; the claim is left to expire. */
  method ProcessNext(db: Database, pass: Pass) returns (r: Result<bool, QueueError>)
    requires InRange(pass.now + LEASE)
    modifies db
    ensures RowsOk(old(db.rows)) ==> r.Ok?
    ensures r != Ok(true) ==> db.Contents() == old(db.Contents())
    ensures r == Ok(false) ==> AvailableKeys(db.rows, INTAKE, Encode(pass.now)) == {}
    ensures r == Ok(true) ==> exists item :: Passes(old(db.Contents()), pass, item, db.Contents())
  {
    ghost var s := db.Contents();
    var claim := DequeueOne(db, INTAKE, pass.worker, pass.now, LEASE);
    if claim.Err? { return Err(claim.error); }
    if claim.value.None? { return Ok(false); }
    var item := claim.value.value.item;
    assert db.Contents() == ClaimedState(s, pass, Key(INTAKE, item));
    if item !in db.items {
      var released := Release(db, INTAKE, item, pass.worker);
      assert Passes(s, pass, item, db.Contents());
      return Ok(true);
    }
    var outcome, _, _ := RunLoop(pass.world(db.items[item]), TURN_BUDGET);
    var finalized := FinalizeOutcome(db, item, pass.worker, Processed(outcome), pass.eventId, pass.later);
    assert Passes(s, pass, item, db.Contents());
    return Ok(true);
  }

  /** A pass is two steps of the protocol; anything may come between them in a run. */
  lemma PassIsTwoSteps(s: State, pass: Pass, item: ItemId, s': State)
    requires InRange(pass.now + LEASE) && Passes(s, pass, item, s') && item in s.items
    ensures var claimed := ClaimedState(s, pass, Key(INTAKE, item));
            var (now, expires) := (Encode(pass.now), Encode(pass.now + LEASE));
            && Next(s, Claiming(INTAKE, pass.worker, now, expires, Some(item)), claimed)
            && Next(claimed, FinishingIntake(item, pass.worker, OutcomeFor(pass, s.items[item]), pass.eventId,
                                             Encode(pass.later)), s')
  {
  }

  lemma IntakeReplays(s: State, item: ItemId, outcome: IntakeOutcome, eventId: string)
    requires Agrees(s) && Key(INTAKE, item) in s.rows
    requires forall e :: e in outcome.events ==> Lifecycle(e).None?
    ensures Replayed(s.events + (outcome.events + [AnalysisEvent(eventId, item, outcome)]))
         == Some(Replayed(s.events).value[item := if outcome.AutoResolved? then Retired else InHuman])
  {
    var p := Replayed(s.events).value;
    var analysis := AnalysisEvent(eventId, item, outcome);
    StageFromRow(s, Key(INTAKE, item));
    AnalysisMeans(eventId, item, outcome);
    InertReplay(p, outcome.events);
    ReplayAppend(p, outcome.events, analysis);
    ReplayConcat(map[], s.events, outcome.events + [analysis]);
  }

  /** Where log and tables agree, a pass with unused event ids over honest topics always commits:
      the item it takes leaves intake, for good when the loop resolved it and to the human
      otherwise, and the log gains the loop's whole audit trail and one analysis. */
  lemma PassFinishes(s: State, pass: Pass, item: ItemId, s': State)
    requires InRange(pass.now + LEASE) && Agrees(s) && Passes(s, pass, item, s')
    requires item in s.items
    requires var outcome := OutcomeFor(pass, s.items[item]);
             && Appendable(s.events, outcome.events + [AnalysisEvent(pass.eventId, item, outcome)])
             && forall e :: e in outcome.events ==> Lifecycle(e).None?
    ensures Agrees(s')
    ensures var outcome := OutcomeFor(pass, s.items[item]);
            && s'.events == s.events + (outcome.events + [AnalysisEvent(pass.eventId, item, outcome)])
            && Replayed(s'.events).value
               == Replayed(s.events).value[item := if outcome.AutoResolved? then Retired else InHuman]
  {
    var k := Key(INTAKE, item);
    var claimed := ClaimedState(s, pass, k);
    var outcome := OutcomeFor(pass, s.items[item]);
    assert claimed.rows.Keys == s.rows.Keys;
    assert Holds(claimed.rows, k, pass.worker);
    IntakeAgrees(claimed, item, pass.worker, outcome, pass.eventId, Encode(pass.later));
    IntakeReplays(claimed, item, outcome, pass.eventId);
  }

  // ── in the world's own terms ─────────────────────────────────────────

  /** The first reply to stop the loop has one halt call with JSON arguments, and it is `auto_resolved`. */
  ghost predicate Resolves(w: World) {
    exists t: nat, i: nat ::
      HaltsFirst(w, TURN_BUDGET, t, i) && Calls(w.reply(t).choices[0])[i].name == "auto_resolved"
  }

  lemma RowsOf(s: State, item: ItemId)
    requires Agrees(s) && item in s.items
    ensures var stage := Replayed(s.events).value[item];
            forall k :: k in s.rows && k.item == item <==> stage != Retired && k == Key(QueueOf(stage), item)
  {
    var p := Replayed(s.events).value;
    forall k ensures k in s.rows && k.item == item <==> p[item] != Retired && k == Key(QueueOf(p[item]), item) {
      InQueueKeys(p, k);
      assert k in s.rows <==> k in QueueKeys(p);
    }
  }

  /** What a pass does, from the model's replies alone: the item leaves every queue exactly when the
      model resolved it, and is in the human queue otherwise, so too when a model call failed. */
  lemma PassResolvesExactly(s: State, pass: Pass, item: ItemId, s': State)
    requires InRange(pass.now + LEASE) && Agrees(s) && Passes(s, pass, item, s')
    requires item in s.items
    requires var outcome := OutcomeFor(pass, s.items[item]);
             && Appendable(s.events, outcome.events + [AnalysisEvent(pass.eventId, item, outcome)])
             && forall e :: e in outcome.events ==> Lifecycle(e).None?
    ensures Resolves(pass.world(s.items[item])) <==> forall k :: k in s'.rows ==> k.item != item
    ensures !Resolves(pass.world(s.items[item])) ==>
              forall k :: k in s'.rows && k.item == item <==> k == Key("human", item)
  {
    PassFinishes(s, pass, item, s');
    ResolvesExactly(pass.world(s.items[item]), TURN_BUDGET);
    RowsOf(s', item);
    if !Resolves(pass.world(s.items[item])) { assert Key("human", item) in s'.rows; }
  }

  /** The analysis of `item`, with its verdict. */
  predicate IsAnalysis(e: Event, item: ItemId, confident: bool) {
    && e.kind == IntakeLlmAnalysis && e.actor == IntakeLlm
    && e.payload.Get("item_id") == Some(JStr(item)) && e.payload.Get("confident") == Some(JBool(confident))
  }

  lemma AnalysisIs(id: string, item: ItemId, outcome: IntakeOutcome)
    ensures IsAnalysis(AnalysisEvent(id, item, outcome), item, outcome.AutoResolved?)
    ensures AnalysisEvent(id, item, outcome).payload.Get("turn_count") == Some(JInt(|outcome.transcript|))
  {
    var e := AnalysisEvent(id, item, outcome);
    assert e.payload.Get("confident") == Some(JBool(outcome.AutoResolved?));
  }

  /** What a pass adds to the log, from the model's replies: when a model call failed, one analysis
      without confidence; otherwise what topics answered in all the turns asked, in emission order,
      and one analysis whose confidence is whether the model resolved the item. */
  ghost predicate Logs(w: World, item: ItemId, asked: nat, added: seq<Event>, analysis: Event) {
    if exists t: nat :: FailsFirst(w, TURN_BUDGET, t) then
      added == [analysis] && IsAnalysis(analysis, item, false)
    else
      && AskedUntilStop(w, TURN_BUDGET, asked)
      && added == History(w, asked, 0) + [analysis]
      && IsAnalysis(analysis, item, Resolves(w))
  }

  lemma OutcomeLogs(w: World, item: ItemId, eventId: string, outcome: IntakeOutcome)
    requires outcome == Processed(Conclusion(w, TURN_BUDGET))
    ensures var analysis := AnalysisEvent(eventId, item, outcome);
            Logs(w, item, LlmCalls(w, TURN_BUDGET), outcome.events + [analysis], analysis)
  {
    ResolvesExactly(w, TURN_BUDGET);
    HandsOnExactly(w, TURN_BUDGET);
    AnalysisIs(eventId, item, outcome);
  }

  /** What a pass logs, whatever the model and the topics do. */
  lemma PassLogsExactly(s: State, pass: Pass, item: ItemId, s': State) returns (added: seq<Event>, analysis: Event, asked: nat)
    requires InRange(pass.now + LEASE) && Agrees(s) && Passes(s, pass, item, s')
    requires item in s.items
    requires var outcome := OutcomeFor(pass, s.items[item]);
             && Appendable(s.events, outcome.events + [AnalysisEvent(pass.eventId, item, outcome)])
             && forall e :: e in outcome.events ==> Lifecycle(e).None?
    ensures s'.events == s.events + added && Logs(pass.world(s.items[item]), item, asked, added, analysis)
  {
    var w := pass.world(s.items[item]);
    var outcome := OutcomeFor(pass, s.items[item]);
    analysis, asked := AnalysisEvent(pass.eventId, item, outcome), LlmCalls(w, TURN_BUDGET);
    added := outcome.events + [analysis];
    PassFinishes(s, pass, item, s');
    OutcomeLogs(w, item, pass.eventId, outcome);
  }

  lemma UsedIdBlocks(log: seq<Event>, item: ItemId, outcome: IntakeOutcome, eventId: string)
    requires Recorded(log, eventId)
    ensures !Appendable(log, outcome.events + [AnalysisEvent(eventId, item, outcome)])
  {
    var analysis := AnalysisEvent(eventId, item, outcome);
    AppendableSnoc(log, outcome.events, analysis);
    RecordedConcat(log, outcome.events, eventId);
    assert analysis.id == eventId;
  }

  lemma ClaimedIs(s: State, pass: Pass, k: Key)
    requires k in s.rows && InRange(pass.now + LEASE)
    ensures var row := s.rows[k];
            ClaimedState(s, pass, k) == s.(rows := s.rows[k :=
              Row(row.priority, row.enqueuedAt, Some(pass.worker), Some(Encode(pass.now)), Some(Encode(pass.now + 30_000_000_000)))])
  {
  }

  lemma BlockedKeepsClaim(s: State, pass: Pass, item: ItemId, s': State, outcome: IntakeOutcome)
    requires InRange(pass.now + LEASE) && Passes(s, pass, item, s') && item in s.items
    requires outcome == OutcomeFor(pass, s.items[item])
    requires !Appendable(s.events, outcome.events + [AnalysisEvent(pass.eventId, item, outcome)])
    ensures s' == ClaimedState(s, pass, Key(INTAKE, item))
  {
  }

  /** A pass that cannot finalize logs nothing and moves nothing; its claim is left to run out after
      30 seconds. */
  lemma PassBlocked(s: State, pass: Pass, item: ItemId, s': State)
    requires InRange(pass.now + LEASE) && Passes(s, pass, item, s')
    requires item in s.items && Recorded(s.events, pass.eventId)
    ensures Key("intake", item) in s.rows && InRange(pass.now + 30_000_000_000)
    ensures var row := s.rows[Key("intake", item)];
            s' == s.(rows := s.rows[Key("intake", item) :=
              Row(row.priority, row.enqueuedAt, Some(pass.worker), Some(Encode(pass.now)), Some(Encode(pass.now + 30_000_000_000)))])
  {
    var outcome := OutcomeFor(pass, s.items[item]);
    UsedIdBlocks(s.events, item, outcome, pass.eventId);
    BlockedKeepsClaim(s, pass, item, s', outcome);
    ClaimedIs(s, pass, Key(INTAKE, item));
  }

  /** A pass whose row has no item gives its claim back. */
  lemma PassWithoutItem(s: State, pass: Pass, item: ItemId, s': State)
    requires InRange(pass.now + LEASE) && Passes(s, pass, item, s') && item !in s.items
    ensures Key("intake", item) in s.rows
    ensures var row := s.rows[Key("intake", item)];
            s' == s.(rows := s.rows[Key("intake", item) := Row(row.priority, row.enqueuedAt, None, None, None)])
  {
    var k := Key(INTAKE, item);
    assert s'.rows == s.rows[k := s'.rows[k]];
  }
}
