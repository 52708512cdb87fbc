/** One pass of the review worker with nobody in between: claim, load, ask once, finalize. */
module ReviewWorker {
  import opened Common
  import opened Rfc3339
  import opened Storage
  import opened Queue
  import opened Events
  import opened Items
  import opened IntakeLoop
  import opened LoopWorld
  import opened Transactions
  import opened Replay
  import opened Pipeline

  const LEASE := 300 * NANOS_PER_SECOND

  /** The model's answer: the first choice's text, or `{}` without one, and the JSON it reads as. */
  datatype Review = Unanswered(error: string) | Reviewing(text: string, decision: Option<Json>)

  /** What the pass needs from outside; the ids are used only if there is something to name. */
  datatype Pass = Pass(
    answer: Item -> Review,
    worker: string,
    eventId: string,
    suggestionId: ItemId,
    suggestionEventId: string,
    now: Instant,
    later: Instant)

  predicate Suggests(r: Review) {
    r.Reviewing? && r.decision.Some? && r.decision.value.Get("suggest") == Some(JBool(true))
  }

  /** `build_suggestion`. */
  function SuggestionItem(item: Item, id: ItemId, decision: Json): Item {
    Item("[suggestion] " + StrOr(decision, "title", "Queue hygiene suggestion"),
         Some(StrOr(decision, "description", "")),
         Some("review_llm"),
         None,
         JObject(map["triggered_by_item_id" := JStr(id),
                     "source_item_instance" := if item.sourceInstanceId.Some? then JStr(item.sourceInstanceId.value) else JNull,
                     "suggestion" := decision]))
  }

  function SuggestionFor(pass: Pass, item: Item, id: ItemId): Option<Suggestion> {
    var r := pass.answer(item);
    if Suggests(r)
    then Some(Suggestion(pass.suggestionId, SuggestionItem(item, id, r.decision.value), pass.suggestionEventId,
                         map["triggered_by" := JStr(id)]))
    else None
  }

  /** The model name is left out of the payload. */
  function Findings(pass: Pass, item: Item, id: ItemId): map<string, Json> {
    match pass.answer(item)
    case Unanswered(error) => map["error" := JStr(error)]
    case Reviewing(text, _) =>
      var g := SuggestionFor(pass, item, id);
      map["queries_run" := JList([]), "reasoning" := JStr(text),
          "suggestion_item_id" := if g.Some? then JStr(g.value.id) else JNull]
  }

  function ReviewFor(pass: Pass, item: Item, id: ItemId): Event {
    ReviewEvent(pass.eventId, id, Findings(pass, item, id))
  }

  function ClaimedState(s: State, pass: Pass, k: Key): State
    requires k in s.rows && InRange(pass.now + LEASE)
  {
    s.(rows := Claimed(s.rows, k, pass.worker, Encode(pass.now), Encode(pass.now + LEASE)))
  }

  /** From `s`, the pass takes `id` and leaves `s'`. */
  ghost predicate Passes(s: State, pass: Pass, id: ItemId, s': State)
    requires InRange(pass.now + LEASE)
  {
    var k := Key(OUTTAKE, id);
    Dispatchable(s.rows, OUTTAKE, Encode(pass.now), k) &&
    var claimed := ClaimedState(s, pass, k);
    if id !in s.items then s' == claimed.(rows := Unclaimed(claimed.rows, k))
    else
      var (review, g) := (ReviewFor(pass, s.items[id], id), SuggestionFor(pass, s.items[id], id));
      s' == if CanFinishReview(claimed, id, pass.worker, review, g)
            then AfterReview(claimed, id, review, g, Encode(pass.later)) else claimed
  }

  /** `process_next`.  A failed model call is reviewed too, without a suggestion. */
  method ProcessNext(db: Database, pass: Pass) returns (r: Result<bool, QueueError>)
    requires InRange(pass.now + LEASE)
    modifies db
    ensures RowsOk(old(db.rows)) ==> r.Ok?
    ensures r != Ok(true) ==> db.Contents() == old(db.Contents())
    ensures r == Ok(false) ==> AvailableKeys(db.rows, OUTTAKE, Encode(pass.now)) == {}
    ensures r == Ok(true) ==> exists id :: Passes(old(db.Contents()), pass, id, db.Contents())
  {
    ghost var s := db.Contents();
    var claim := DequeueOne(db, OUTTAKE, pass.worker, pass.now, LEASE);
    if claim.Err? { return Err(claim.error); }
    if claim.value.None? { return Ok(false); }
    var id := claim.value.value.item;
    assert db.Contents() == ClaimedState(s, pass, Key(OUTTAKE, id));
    if id !in db.items {
      var released := Release(db, OUTTAKE, id, pass.worker);
      assert Passes(s, pass, id, db.Contents());
      return Ok(true);
    }
    var review, suggestion := ReviewFor(pass, db.items[id], id), SuggestionFor(pass, db.items[id], id);
    var finalized := FinalizeReview(db, id, pass.worker, review, suggestion, pass.later);
    assert Passes(s, pass, id, db.Contents());
    return Ok(true);
  }

  /** Ids nobody has used. */
  predicate FreshPass(s: State, pass: Pass) {
    !Recorded(s.events, pass.eventId) && !Recorded(s.events, pass.suggestionEventId)
    && pass.eventId != pass.suggestionEventId && pass.suggestionId !in s.items
  }

  lemma FreshReviewCommits(s: State, pass: Pass, item: Item, id: ItemId)
    requires FreshPass(s, pass) && Holds(s.rows, Key(OUTTAKE, id), pass.worker)
    ensures CanFinishReview(s, id, pass.worker, ReviewFor(pass, item, id), SuggestionFor(pass, item, id))
  {
    var (review, g) := (ReviewFor(pass, item, id), SuggestionFor(pass, item, id));
    assert review.id == pass.eventId;
    AppendableOne(s.events, review);
    if g.Some? {
      assert SuggestionEvent(g.value).id == pass.suggestionEventId && PairOf(g.value.item).None?;
      AppendableSnoc(s.events, [review], SuggestionEvent(g.value));
      RecordedConcat(s.events, [review], pass.suggestionEventId);
    } else {
      assert ReviewEvents(review, g) == [review];
    }
  }

  lemma AfterReviewLog(s: State, id: ItemId, review: Event, g: Option<Suggestion>, at: string)
    ensures AfterReview(s, id, review, g, at).events == s.events + ReviewEvents(review, g)
  {
    assert g.None? ==> ReviewEvents(review, g) == [review];
  }

  lemma ReviewReplays(s: State, id: ItemId, eventId: string, detail: map<string, Json>, g: Option<Suggestion>)
    requires Agrees(s) && Key(OUTTAKE, id) in s.rows && (g.Some? ==> g.value.id !in s.items)
    ensures var p := Replayed(s.events).value;
            Replayed(s.events + ReviewEvents(ReviewEvent(eventId, id, detail), g))
            == Some(if g.Some? then p[id := Retired][g.value.id := InHuman] else p[id := Retired])
  {
    var (p, review) := (Replayed(s.events).value, ReviewEvent(eventId, id, detail));
    StageFromRow(s, Key(OUTTAKE, id));
    ReviewMeans(eventId, id, detail);
    ReplayOneEvent(p, review);
    if g.Some? {
      CreationMeans(g.value.eventId, g.value.id, ReviewLlm, g.value.detail);
      ReplayAppend(p, [review], SuggestionEvent(g.value));
    } else {
      assert ReviewEvents(review, g) == [review];
    }
    ReplayConcat(map[], s.events, ReviewEvents(review, g));
  }

  lemma ReviewHappens(s: State, pass: Pass, item: Item, id: ItemId)
    requires Agrees(s) && id in s.items
    requires CanFinishReview(s, id, pass.worker, ReviewFor(pass, item, id), SuggestionFor(pass, item, id))
    ensures var s' := AfterReview(s, id, ReviewFor(pass, item, id), SuggestionFor(pass, item, id), Encode(pass.later));
            Agrees(s') && Replayed(s'.events).value
                          == if Suggests(pass.answer(item))
                             then Replayed(s.events).value[id := Retired][pass.suggestionId := InHuman]
                             else Replayed(s.events).value[id := Retired]
  {
    var (findings, g) := (Findings(pass, item, id), SuggestionFor(pass, item, id));
    ReviewAgrees(s, id, pass.worker, pass.eventId, findings, g, Encode(pass.later));
    ReviewReplays(s, id, pass.eventId, findings, g);
    AfterReviewLog(s, id, ReviewFor(pass, item, id), g, Encode(pass.later));
  }

  /** The answer reads as a JSON object whose field `suggest` is the boolean true. */
  predicate AsksForSuggestion(r: Review) {
    match r
    case Reviewing(_, Some(JObject(fields))) => "suggest" in fields && fields["suggest"] == JBool(true)
    case _ => false
  }

  /** Where log and tables agree, a pass with unused ids always commits: the item is retired, and the
      human queue gains a suggestion exactly when the answer asks for one.  A suggestion has no
      external id, so no other item can block it. */
  lemma PassFinishes(s: State, pass: Pass, id: ItemId, s': State)
    requires InRange(pass.now + LEASE) && Agrees(s) && Passes(s, pass, id, s') && FreshPass(s, pass)
    requires id in s.items
    ensures Agrees(s')
    ensures Replayed(s'.events).value
         == if AsksForSuggestion(pass.answer(s.items[id]))
            then Replayed(s.events).value[id := Retired][pass.suggestionId := InHuman]
            else Replayed(s.events).value[id := Retired]
  {
    var k := Key(OUTTAKE, id);
    var claimed := ClaimedState(s, pass, k);
    var (review, g) := (ReviewFor(pass, s.items[id], id), SuggestionFor(pass, s.items[id], id));
    assert claimed.rows.Keys == s.rows.Keys && Holds(claimed.rows, k, pass.worker);
    FreshReviewCommits(claimed, pass, s.items[id], id);
    ReviewHappens(claimed, pass, s.items[id], id);
  }

  // ── what it writes ───────────────────────────────────────────────────

  /** `text` is what the decision says in this field, or the default when it says nothing. */
  predicate Says(decision: Json, field: string, default: string, text: string) {
    match decision
    case JObject(fields) => text == if field in fields && fields[field].JStr? then fields[field].s else default
    case _ => text == default
  }

  /** The review event: its subject and either the error or the model's text and what came of it. */
  predicate IsReview(e: Event, id: ItemId, r: Review, suggestion: Json) {
    && e.kind == ReviewLlmAnalysis && e.actor == ReviewLlm && e.payload.Get("item_id") == Some(JStr(id))
    && match r
       case Unanswered(error) => e.payload.Get("error") == Some(JStr(error))
       case Reviewing(text, _) =>
         e.payload.Get("reasoning") == Some(JStr(text)) && e.payload.Get("suggestion_item_id") == Some(suggestion)
  }

  /** The suggestion item, column by column. */
  predicate IsSuggestion(g: Item, item: Item, id: ItemId, decision: Json) {
    && |g.title| >= 13 && g.title[..13] == "[suggestion] " && Says(decision, "title", "Queue hygiene suggestion", g.title[13..])
    && g.body.Some? && Says(decision, "description", "", g.body.value)
    && g.sourceInstanceId == Some("review_llm") && g.externalId == None
    && g.metadata.Get("triggered_by_item_id") == Some(JStr(id))
    && g.metadata.Get("source_item_instance")
       == Some(match item.sourceInstanceId case Some(source) => JStr(source) case None => JNull)
    && g.metadata.Get("suggestion") == Some(decision)
  }

  lemma SuggestionIs(item: Item, id: ItemId, decision: Json)
    ensures IsSuggestion(SuggestionItem(item, id, decision), item, id, decision)
  {
    var title := StrOr(decision, "title", "Queue hygiene suggestion");
    assert ("[suggestion] " + title)[13..] == title;
  }

  lemma ReviewIs(pass: Pass, item: Item, id: ItemId)
    ensures IsReview(ReviewFor(pass, item, id), id, pass.answer(item),
                     if AsksForSuggestion(pass.answer(item)) then JStr(pass.suggestionId) else JNull)
  {
    var e := ReviewFor(pass, item, id);
    match pass.answer(item)
    case Unanswered(error) => assert e.payload.Get("error") == Some(JStr(error));
    case Reviewing(text, _) => assert e.payload.Get("reasoning") == Some(JStr(text));
  }

  /** All a pass writes when the answer asks for no suggestion: one review event, and no row but its
      own goes. */
  lemma QuietReviewWrites(s: State, pass: Pass, id: ItemId, s': State) returns (review: Event)
    requires InRange(pass.now + LEASE) && Passes(s, pass, id, s') && FreshPass(s, pass) && id in s.items
    requires !AsksForSuggestion(pass.answer(s.items[id]))
    ensures s'.events == s.events + [review] && IsReview(review, id, pass.answer(s.items[id]), JNull)
    ensures s'.items == s.items && s'.rows == s.rows - {Key("outtake", id)}
  {
    var k := Key(OUTTAKE, id);
    review := ReviewFor(pass, s.items[id], id);
    FreshReviewCommits(ClaimedState(s, pass, k), pass, s.items[id], id);
    ReviewIs(pass, s.items[id], id);
    assert ClaimedState(s, pass, k).rows - {k} == s.rows - {k};
  }

  /** A pass whose row has no item gives its claim back. */
  lemma PassWithoutItem(s: State, pass: Pass, id: ItemId, s': State)
    requires InRange(pass.now + LEASE) && Passes(s, pass, id, s') && id !in s.items
    ensures Key("outtake", id) in s.rows
    ensures var row := s.rows[Key("outtake", id)];
            s' == s.(rows := s.rows[Key("outtake", id) := Row(row.priority, row.enqueuedAt, None, None, None)])
  {
    var k := Key(OUTTAKE, id);
    assert s'.rows == s.rows[k := s'.rows[k]];
  }

  lemma ClaimedIs(s: State, pass: Pass, k: Key)
    requires k in s.rows && InRange(pass.now + LEASE)
    ensures var row := s.rows[k];
            ClaimedState(s, pass, k) == s.(rows := s.rows[k :=
              Row(row.priority, row.enqueuedAt, Some(pass.worker), Some(Encode(pass.now)), Some(Encode(pass.now + 300_000_000_000)))])
  {
  }

  lemma UsedIdBlocks(s: State, pass: Pass, item: Item, id: ItemId)
    requires Recorded(s.events, pass.eventId)
    ensures !CanFinishReview(s, id, pass.worker, ReviewFor(pass, item, id), SuggestionFor(pass, item, id))
  {
    assert ReviewEvents(ReviewFor(pass, item, id), SuggestionFor(pass, item, id))[0].id == pass.eventId;
  }

  lemma BlockedKeepsClaim(s: State, pass: Pass, id: ItemId, s': State)
    requires InRange(pass.now + LEASE) && Passes(s, pass, id, s') && id in s.items && Recorded(s.events, pass.eventId)
    ensures s' == ClaimedState(s, pass, Key(OUTTAKE, id))
  {
    UsedIdBlocks(ClaimedState(s, pass, Key(OUTTAKE, id)), pass, s.items[id], id);
  }

  /** A pass that cannot finalize logs nothing and moves nothing; its claim is left to run out after
      five minutes. */
  lemma PassBlocked(s: State, pass: Pass, id: ItemId, s': State)
    requires InRange(pass.now + LEASE) && Passes(s, pass, id, s')
    requires id in s.items && Recorded(s.events, pass.eventId)
    ensures Key("outtake", id) in s.rows && InRange(pass.now + 300_000_000_000)
    ensures var row := s.rows[Key("outtake", id)];
            s' == s.(rows := s.rows[Key("outtake", id) :=
              Row(row.priority, row.enqueuedAt, Some(pass.worker), Some(Encode(pass.now)), Some(Encode(pass.now + 300_000_000_000)))])
  {
    BlockedKeepsClaim(s, pass, id, s');
    ClaimedIs(s, pass, Key(OUTTAKE, id));
  }

  lemma SuggestionFollows(s: State, pass: Pass, id: ItemId, s': State, r: Review, item: Item)
      returns (claimed: State, review: Event, g: Suggestion)
    requires InRange(pass.now + LEASE) && Passes(s, pass, id, s') && FreshPass(s, pass) && id in s.items
    requires item == s.items[id] && r == pass.answer(item) && AsksForSuggestion(r)
    ensures claimed.events == s.events && claimed.items == s.items
    ensures claimed.rows - {Key(OUTTAKE, id)} == s.rows - {Key(OUTTAKE, id)}
    ensures SuggestionFor(pass, item, id) == Some(g) && review == ReviewFor(pass, item, id)
    ensures g.item == SuggestionItem(item, id, r.decision.value)
    ensures s' == AfterReview(claimed, id, review, Some(g), Encode(pass.later))
    ensures s'.events == s.events + [review, SuggestionEvent(g)]
  {
    claimed, review, g := ClaimedState(s, pass, Key(OUTTAKE, id)), ReviewFor(pass, item, id), SuggestionFor(pass, item, id).value;
    FreshReviewCommits(claimed, pass, item, id);
    assert ReviewEvents(review, Some(g)) == [review, SuggestionEvent(g)];
  }

  /** When it does ask: the review event naming the suggestion, then the suggestion's creation naming
      what triggered it. */
  lemma SuggestionLogs(s: State, pass: Pass, id: ItemId, s': State, r: Review) returns (review: Event, creation: Event)
    requires InRange(pass.now + LEASE) && Passes(s, pass, id, s') && FreshPass(s, pass) && id in s.items
    requires r == pass.answer(s.items[id]) && AsksForSuggestion(r)
    ensures s'.events == s.events + [review, creation] && IsReview(review, id, r, JStr(pass.suggestionId))
    ensures creation.kind == ItemCreated && creation.actor == ReviewLlm
            && creation.payload.Get("item_id") == Some(JStr(pass.suggestionId))
            && creation.payload.Get("triggered_by") == Some(JStr(id))
  {
    var item := s.items[id];
    var claimed, review', g := SuggestionFollows(s, pass, id, s', r, item);
    review, creation := review', SuggestionEvent(g);
    ReviewIs(pass, item, id);
  }

  /** And in the tables: the suggestion item, and its row in the human queue, unclaimed and of
      priority 0; no other item changes, and no row but the pass's own goes. */
  lemma SuggestionStored(s: State, pass: Pass, id: ItemId, s': State, r: Review)
    requires InRange(pass.now + LEASE) && Passes(s, pass, id, s') && FreshPass(s, pass) && id in s.items
    requires r == pass.answer(s.items[id]) && AsksForSuggestion(r)
    requires Key("human", pass.suggestionId) !in s.rows
    ensures pass.suggestionId in s'.items && s'.items - {pass.suggestionId} == s.items
            && IsSuggestion(s'.items[pass.suggestionId], s.items[id], id, r.decision.value)
    ensures s'.rows == (s.rows - {Key("outtake", id)})[Key("human", pass.suggestionId) :=
                         Row(0, Encode(pass.later), None, None, None)]
  {
    var item := s.items[id];
    var claimed, review, g := SuggestionFollows(s, pass, id, s', r, item);
    SuggestionIs(item, id, r.decision.value);
  }
}
