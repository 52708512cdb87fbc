/** The composed transactions of the server: creation, the two finalize steps, the ack.

    Each one runs its steps in order and puts the tables back if any step fails. */
module Transactions {
  import opened Common
  import opened Rfc3339
  import opened Storage
  import opened Queue
  import opened Events
  import opened Items
  import opened IntakeLoop
  import opened LoopWorld

  datatype TxOpError =
    | EventsFailed(events: EventsError)
    | ItemsFailed(items: ItemsError)
    | QueueFailed(queue: QueueError)

  type Outcome = Result<(), TxOpError>

  // ── the events they write ────────────────────────────────────────────

  function CreationEvent(id: string, item: ItemId, actor: Actor, detail: map<string, Json>): Event {
    NewItemEvent(id, item, ItemCreated, actor, detail)
  }

  /** `model`, `auto_action` and `uncertainty_reason` are left out of the payload. */
  function AnalysisEvent(id: string, item: ItemId, outcome: IntakeOutcome): Event {
    NewItemEvent(id, item, IntakeLlmAnalysis, IntakeLlm,
                 map["confident" := JBool(outcome.AutoResolved?), "turn_count" := JInt(|outcome.transcript|)])
  }

  function AckEvent(id: string, item: ItemId): Event {
    NewItemEvent(id, item, ActionTaken, Human, map["activity_id" := JStr("ack")])
  }

  function InvokedEvent(id: string, item: ItemId, activity: string, params: Json): Event {
    NewItemEvent(id, item, ActionTaken, Human, map["activity_id" := JStr(activity), "params" := params])
  }

  function ReviewEvent(id: string, item: ItemId, detail: map<string, Json>): Event {
    NewItemEvent(id, item, ReviewLlmAnalysis, ReviewLlm, detail)
  }

  function EnqueuedEvent(id: string, item: ItemId): Event {
    Event(id, ItemEnqueued, System, JObject(map["item_id" := JStr(item), "queue" := JStr(INTAKE), "priority" := JInt(0)]))
  }

  /** The payload is an object with the item id and these fields, and no others. */
  predicate Carries(e: Event, item: ItemId, detail: map<string, Json>) {
    e.payload == JObject(detail["item_id" := JStr(item)])
  }

  /** The payloads, field by field; a creation and a review carry besides the item id what their
      caller put in. */
  lemma PayloadsAre(id: string, item: ItemId, actor: Actor, detail: map<string, Json>, activity: string, params: Json)
    requires "item_id" !in detail
    ensures var e := CreationEvent(id, item, actor, detail);
            e.id == id && e.kind == ItemCreated && e.actor == actor && Carries(e, item, detail)
    ensures var e := ReviewEvent(id, item, detail);
            e.id == id && e.kind == ReviewLlmAnalysis && e.actor == ReviewLlm && Carries(e, item, detail)
    ensures var e := InvokedEvent(id, item, activity, params);
            e.id == id && e.kind == ActionTaken && e.actor == Human
            && Carries(e, item, map["activity_id" := JStr(activity), "params" := params])
    ensures var e := AckEvent(id, item);
            e.id == id && e.kind == ActionTaken && e.actor == Human && Carries(e, item, map["activity_id" := JStr("ack")])
    ensures var e := EnqueuedEvent(id, item);
            e.id == id && e.kind == ItemEnqueued && e.actor == System
            && Carries(e, item, map["queue" := JStr("intake"), "priority" := JInt(0)])
  {
    var e := EnqueuedEvent(id, item);
    assert e.payload.fields == map["queue" := JStr("intake"), "priority" := JInt(0)]["item_id" := JStr(item)];
  }

  // ── what they do to the tables when they commit ──────────────────────

  predicate Insertable(s: State, id: ItemId, item: Item) {
    id !in s.items && !Duplicates(s.items, item)
  }

  function AfterCreate(s: State, id: ItemId, item: Item, es: seq<Event>, queue: string, at: string): State {
    s.(events := s.events + es, items := s.items[id := item],
       rows := Inserted(s.rows, Key(queue, id), FreshRow(0, at)))
  }

  /** A creation, table by table. */
  lemma CreateIs(s: State, id: ItemId, item: Item, es: seq<Event>, queue: string, at: string)
    requires Key(queue, id) !in s.rows
    ensures AfterCreate(s, id, item, es, queue, at)
         == State(s.events + es, s.items[id := item], s.rows[Key(queue, id) := Row(0, at, None, None, None)], s.topicData)
  {
  }

  /** A moved row needs its item, by the foreign key. */
  predicate Movable(s: State, item: ItemId, to: string) {
    item in s.items || Key(to, item) in s.rows
  }

  predicate CanFinishIntake(s: State, item: ItemId, worker: string, outcome: IntakeOutcome, eventId: string) {
    Holds(s.rows, Key(INTAKE, item), worker)
    && Appendable(s.events, outcome.events + [AnalysisEvent(eventId, item, outcome)])
    && (outcome.AutoResolved? || Movable(s, item, HUMAN))
  }

  function AfterIntake(s: State, item: ItemId, outcome: IntakeOutcome, eventId: string, at: string): State {
    s.(events := s.events + (outcome.events + [AnalysisEvent(eventId, item, outcome)]),
       rows := if outcome.AutoResolved? then s.rows - {Key(INTAKE, item)} else Moved(s.rows, item, INTAKE, HUMAN, at))
  }

  predicate CanAck(s: State, item: ItemId, eventId: string) {
    Key(HUMAN, item) in s.rows && !Recorded(s.events, eventId) && Movable(s, item, OUTTAKE)
  }

  function AfterAck(s: State, item: ItemId, eventId: string, at: string): State {
    s.(events := s.events + [AckEvent(eventId, item)], rows := Moved(s.rows, item, HUMAN, OUTTAKE, at))
  }

  /** The suggestion item a review may spawn. */
  datatype Suggestion = Suggestion(id: ItemId, item: Item, eventId: string, detail: map<string, Json>)

  function SuggestionEvent(g: Suggestion): Event {
    CreationEvent(g.eventId, g.id, ReviewLlm, g.detail)
  }

  function ReviewEvents(review: Event, g: Option<Suggestion>): seq<Event> {
    [review] + (if g.Some? then [SuggestionEvent(g.value)] else [])
  }

  predicate CanFinishReview(s: State, item: ItemId, worker: string, review: Event, g: Option<Suggestion>) {
    Holds(s.rows, Key(OUTTAKE, item), worker) && Appendable(s.events, ReviewEvents(review, g))
    && (g.Some? ==> Insertable(s, g.value.id, g.value.item))
  }

  function AfterReview(s: State, item: ItemId, review: Event, g: Option<Suggestion>, at: string): State {
    var retired := s.(rows := s.rows - {Key(OUTTAKE, item)});
    if g.None? then retired.(events := s.events + [review])
    else AfterCreate(retired, g.value.id, g.value.item, ReviewEvents(review, g), HUMAN, at)
  }

  /** A finalized intake, table by table. */
  lemma IntakeIs(s: State, item: ItemId, outcome: IntakeOutcome, eventId: string, at: string)
    requires Key("intake", item) in s.rows && Key("human", item) !in s.rows
    ensures AfterIntake(s, item, outcome, eventId, at)
         == State(s.events + (outcome.events + [AnalysisEvent(eventId, item, outcome)]),
                  s.items,
                  if outcome.AutoResolved? then s.rows - {Key("intake", item)}
                  else (s.rows - {Key("intake", item)})[Key("human", item) := Row(0, at, None, None, None)],
                  s.topicData)
  {
  }

  // ── the transactions ─────────────────────────────────────────────────

  lemma AppendableOne(log: seq<Event>, e: Event)
    ensures Appendable(log, [e]) <==> !Recorded(log, e.id)
  {
    assert [e][0] == e;
  }

  /** `create_item_tx` and `push_tx`. */
  method CreateItem(db: Database, id: ItemId, item: Item, eventId: string, detail: map<string, Json>, now: Instant)
      returns (r: Outcome)
    modifies db
    ensures r.Ok? <==> !Recorded(old(db.events), eventId) && Insertable(old(db.Contents()), id, item)
    ensures r.Ok? ==> db.Contents() == AfterCreate(old(db.Contents()), id, item,
                                                   [CreationEvent(eventId, id, System, detail)], INTAKE, Encode(now))
    ensures r.Err? ==> db.Contents() == old(db.Contents())
  {
    var begun := db.Contents();
    var appended := Append(db, CreationEvent(eventId, id, System, detail));
    if appended.Err? { db.Rollback(begun); return Err(EventsFailed(appended.error)); }
    var inserted := Insert(db, id, item);
    if inserted.Err? { db.Rollback(begun); return Err(ItemsFailed(inserted.error)); }
    var enqueued := Enqueue(db, INTAKE, id, 0, now);
    assert enqueued.Ok?; // the foreign key holds: the item row is there
    return Ok(());
  }

  function PersistEvents(topic: string, id: ItemId, eventId: string, auditId: string, detail: map<string, Json>): seq<Event> {
    [CreationEvent(eventId, id, Topic(topic), detail)] + [EnqueuedEvent(auditId, id)]
  }

  /** `persist_item_inner`: creation by a topic, with an audit event for the enqueue. */
  method PersistItem(db: Database, topic: string, id: ItemId, item: Item, eventId: string, auditId: string,
                     detail: map<string, Json>, now: Instant)
      returns (r: Outcome)
    modifies db
    ensures r.Ok? <==> Appendable(old(db.events), PersistEvents(topic, id, eventId, auditId, detail))
                       && Insertable(old(db.Contents()), id, item)
    ensures r.Ok? ==> db.Contents() == AfterCreate(old(db.Contents()), id, item,
                                                   PersistEvents(topic, id, eventId, auditId, detail), INTAKE, Encode(now))
    ensures r.Err? ==> db.Contents() == old(db.Contents())
    ensures r == Err(ItemsFailed(DuplicateSource(item.sourceInstanceId, item.externalId)))
       <==> !Recorded(old(db.events), eventId) && id !in old(db.items) && Duplicates(old(db.items), item)
  {
    var begun := db.Contents();
    var creation, audit := CreationEvent(eventId, id, Topic(topic), detail), EnqueuedEvent(auditId, id);
    AppendableSnoc(db.events, [creation], audit);
    AppendableOne(db.events, creation);
    var appended := Append(db, creation);
    if appended.Err? { db.Rollback(begun); return Err(EventsFailed(appended.error)); }
    var inserted := Insert(db, id, item);
    if inserted.Err? { db.Rollback(begun); return Err(ItemsFailed(inserted.error)); }
    var enqueued := Enqueue(db, INTAKE, id, 0, now);
    assert enqueued.Ok?;
    var audited := Append(db, audit);
    if audited.Err? { db.Rollback(begun); return Err(EventsFailed(audited.error)); }
    assert old(db.events) + [creation] + [audit] == old(db.events) + [creation, audit];
    return Ok(());
  }

  /** `finalize_outcome`: the activity events in order, the analysis, then the queue. */
  method FinalizeOutcome(db: Database, item: ItemId, worker: string, outcome: IntakeOutcome, eventId: string, now: Instant)
      returns (r: Outcome)
    modifies db
    ensures r.Ok? <==> CanFinishIntake(old(db.Contents()), item, worker, outcome, eventId)
    ensures r.Ok? ==> db.Contents() == AfterIntake(old(db.Contents()), item, outcome, eventId, Encode(now))
    ensures r.Err? ==> db.Contents() == old(db.Contents())
  {
    var begun := db.Contents();
    var analysis := AnalysisEvent(eventId, item, outcome);
    AppendableSnoc(db.events, outcome.events, analysis);
    var appended := AppendAll(db, outcome.events);
    if appended.Err? { db.Rollback(begun); return Err(EventsFailed(appended.error)); }
    appended := Append(db, analysis);
    if appended.Err? { db.Rollback(begun); return Err(EventsFailed(appended.error)); }
    assert old(db.events) + outcome.events + [analysis] == old(db.events) + (outcome.events + [analysis]);
    var left: Result<(), QueueError>;
    if outcome.AutoResolved? {
      left := Complete(db, INTAKE, item, worker);
    } else {
      left := MoveItem(db, item, INTAKE, HUMAN, worker, now);
    }
    if left.Err? { db.Rollback(begun); return Err(QueueFailed(left.error)); }
    return Ok(());
  }

  /** `ack_item_tx`: claim by force, record the ack, move to outtake. */
  method AckItem(db: Database, item: ItemId, worker: string, eventId: string, now: Instant, lease: int)
      returns (r: Outcome)
    requires InRange(now + lease)
    modifies db
    ensures r.Ok? <==> CanAck(old(db.Contents()), item, eventId)
    ensures r.Ok? ==> db.Contents() == AfterAck(old(db.Contents()), item, eventId, Encode(now))
    ensures r.Err? ==> db.Contents() == old(db.Contents())
  {
    var begun := db.Contents();
    var claimed := ForceClaim(db, HUMAN, item, worker, now, lease);
    if claimed.Err? { db.Rollback(begun); return Err(QueueFailed(claimed.error)); }
    var appended := Append(db, AckEvent(eventId, item));
    if appended.Err? { db.Rollback(begun); return Err(EventsFailed(appended.error)); }
    var moved := MoveItem(db, item, HUMAN, OUTTAKE, worker, now);
    if moved.Err? { db.Rollback(begun); return Err(QueueFailed(moved.error)); }
    return Ok(());
  }

  /** `finalize_review`: retire the item, record the review, spawn the suggestion. */
  method FinalizeReview(db: Database, item: ItemId, worker: string, review: Event, g: Option<Suggestion>, now: Instant)
      returns (r: Outcome)
    modifies db
    ensures r.Ok? <==> CanFinishReview(old(db.Contents()), item, worker, review, g)
    ensures r.Ok? ==> db.Contents() == AfterReview(old(db.Contents()), item, review, g, Encode(now))
    ensures r.Err? ==> db.Contents() == old(db.Contents())
  {
    var begun := db.Contents();
    AppendableOne(db.events, review);
    assert g.None? ==> ReviewEvents(review, g) == [review];
    var completed := Complete(db, OUTTAKE, item, worker);
    if completed.Err? { db.Rollback(begun); return Err(QueueFailed(completed.error)); }
    var appended := Append(db, review);
    if g.Some? { AppendableSnoc(begun.events, [review], SuggestionEvent(g.value)); }
    if appended.Err? { db.Rollback(begun); return Err(EventsFailed(appended.error)); }
    if g.Some? {
      var spawned := g.value;
      var inserted := Insert(db, spawned.id, spawned.item);
      if inserted.Err? { db.Rollback(begun); return Err(ItemsFailed(inserted.error)); }
      appended := Append(db, SuggestionEvent(spawned));
      if appended.Err? { db.Rollback(begun); return Err(EventsFailed(appended.error)); }
      var enqueued := Enqueue(db, HUMAN, spawned.id, 0, now);
      assert enqueued.Ok?;
      assert begun.events + [review] + [SuggestionEvent(spawned)] == begun.events + ReviewEvents(review, g);
    }
    return Ok(());
  }

  /** `invoke_action`: records what the human did; moves nothing. */
  method InvokeAction(db: Database, item: ItemId, activity: string, params: Json, eventId: string) returns (r: Outcome)
    modifies db`events
    ensures r.Ok? <==> !Recorded(old(db.events), eventId)
    ensures db.events == if r.Ok? then old(db.events) + [InvokedEvent(eventId, item, activity, params)] else old(db.events)
  {
    var appended := Append(db, InvokedEvent(eventId, item, activity, params));
    if appended.Err? { return Err(EventsFailed(appended.error)); }
    return Ok(());
  }

  // ── stale workers ────────────────────────────────────────────────────

  /** A finalize by a worker that is no longer the recorded holder cannot commit. */
  lemma StaleFinalizeFails(s: State, item: ItemId, worker: string, outcome: IntakeOutcome, eventId: string,
                           review: Event, g: Option<Suggestion>)
    ensures !Holds(s.rows, Key(INTAKE, item), worker) ==> !CanFinishIntake(s, item, worker, outcome, eventId)
    ensures !Holds(s.rows, Key(OUTTAKE, item), worker) ==> !CanFinishReview(s, item, worker, review, g)
  {
  }

  /** A committed intake finalize puts the whole audit trail in the log, in order, right
      before the one analysis event. */
  lemma AuditReachesLog(s: State, w: World, budget: nat, item: ItemId, eventId: string, at: string)
    requires Conclusion(w, budget).Ok?
    ensures AfterIntake(s, item, Processed(Conclusion(w, budget)), eventId, at).events
         == s.events + Audit(w, LlmCalls(w, budget)) + [AnalysisEvent(eventId, item, Processed(Conclusion(w, budget)))]
  {
    OutcomeAudit(w, budget);
  }
}
