/** The server's operations on one database, carried out one after another: what the methods do
    is what the protocol's steps say, so what holds of every run holds of the running tables. */
module Server {
  import opened Common
  import opened Rfc3339
  import opened Storage
  import opened Queue
  import opened LoopWorld
  import opened Transactions
  import opened TopicData
  import opened Replay
  import QueueRuns
  import opened Pipeline

  /** What a worker, a handler or a topic asks of the store. */
  datatype Call =
    | Create(id: ItemId, content: Item, eventId: string, detail: map<string, Json>, now: Instant)
    | Persist(topic: string, id: ItemId, content: Item, eventId: string, auditId: string, detail: map<string, Json>, now: Instant)
    | Claim(queue: string, worker: string, now: Instant, lease: int)
    | Unclaim(queue: string, item: ItemId, worker: string)
    | FinishIntake(item: ItemId, worker: string, outcome: IntakeOutcome, eventId: string, now: Instant)
    | Ack(item: ItemId, worker: string, eventId: string, now: Instant, lease: int)
    | FinishReview(item: ItemId, worker: string, eventId: string, detail: map<string, Json>, g: Option<Suggestion>, now: Instant)
    | Invoke(item: ItemId, activity: string, params: Json, eventId: string)
    | Set(topic: string, key: string, value: Json, eventId: string, upserts: bool)

  /** The clock is in range for the expiry a call writes. */
  predicate WellTimed(call: Call) {
    match call
    case Claim(_, _, now, lease) => InRange(now + lease)
    case Ack(_, _, _, now, lease) => InRange(now + lease)
    case _ => true
  }

  /** No topic answered an activity with an event about where items are. */
  predicate Honest(call: Call) {
    call.FinishIntake? ==> forall e :: e in call.outcome.events ==> Lifecycle(e).None?
  }

  /** The step of the protocol that a call is; a claim is a step for what it got. */
  function StepOf(call: Call, got: Option<ItemId>): Step
    requires WellTimed(call)
  {
    match call
    case Create(id, content, eventId, detail, now) => Creating(id, content, eventId, detail, Encode(now))
    case Persist(topic, id, content, eventId, auditId, detail, now) =>
      Persisting(topic, id, content, eventId, auditId, detail, Encode(now))
    case Claim(queue, worker, now, lease) => Claiming(queue, worker, Encode(now), Encode(now + lease), got)
    case Unclaim(queue, item, worker) => Unclaiming(queue, item, worker)
    case FinishIntake(item, worker, outcome, eventId, now) => FinishingIntake(item, worker, outcome, eventId, Encode(now))
    case Ack(item, _, eventId, now, _) => Acking(item, eventId, Encode(now))
    case FinishReview(item, worker, eventId, detail, g, now) => FinishingReview(item, worker, eventId, detail, g, Encode(now))
    case Invoke(item, activity, params, eventId) => Invoking(item, activity, params, eventId)
    case Set(topic, key, value, eventId, upserts) => SettingData(topic, key, value, eventId, upserts)
  }

  lemma StepsAreStamped(call: Call, got: Option<ItemId>)
    requires WellTimed(call)
    ensures Stamped(StepOf(call, got))
  {
    match call
    case Claim(_, _, now, lease) =>
      QueueRuns.EncodeIsStamp(now);
      QueueRuns.EncodeIsStamp(now + lease);
    case Create(_, _, _, _, now) => QueueRuns.EncodeIsStamp(now);
    case Persist(_, _, _, _, _, _, now) => QueueRuns.EncodeIsStamp(now);
    case FinishIntake(_, _, _, _, now) => QueueRuns.EncodeIsStamp(now);
    case Ack(_, _, _, now, _) => QueueRuns.EncodeIsStamp(now);
    case FinishReview(_, _, _, _, _, now) => QueueRuns.EncodeIsStamp(now);
    case _ =>
  }

  /** Each call, whether it succeeds or fails, is its step of the protocol. */
  method Perform(db: Database, call: Call) returns (got: Option<ItemId>)
    requires WellTimed(call) && RowsOk(db.rows)
    modifies db
    ensures Next(old(db.Contents()), StepOf(call, got), db.Contents())
  {
    got := None;
    match call
    case Create(id, content, eventId, detail, now) =>
      var r := CreateItem(db, id, content, eventId, detail, now);
    case Persist(topic, id, content, eventId, auditId, detail, now) =>
      var r := PersistItem(db, topic, id, content, eventId, auditId, detail, now);
    case Claim(queue, worker, now, lease) =>
      var r := DequeueOne(db, queue, worker, now, lease);
      got := Queue.ItemOf(r.value);
    case Unclaim(queue, item, worker) =>
      var r := Release(db, queue, item, worker);
    case FinishIntake(item, worker, outcome, eventId, now) =>
      var r := FinalizeOutcome(db, item, worker, outcome, eventId, now);
    case Ack(item, worker, eventId, now, lease) =>
      var r := AckItem(db, item, worker, eventId, now, lease);
    case FinishReview(item, worker, eventId, detail, g, now) =>
      var r := FinalizeReview(db, item, worker, ReviewEvent(eventId, item, detail), g, now);
    case Invoke(item, activity, params, eventId) =>
      var r := InvokeAction(db, item, activity, params, eventId);
    case Set(topic, key, value, eventId, upserts) => SetData(db, eventId, topic, key, value, upserts);
  }

  function StepsOf(calls: seq<Call>, got: seq<Option<ItemId>>): (steps: seq<Step>)
    requires |got| == |calls| && forall i :: 0 <= i < |calls| ==> WellTimed(calls[i])
    ensures |steps| == |calls|
    ensures forall i :: 0 <= i < |steps| ==> steps[i] == StepOf(calls[i], got[i])
  {
    seq(|calls|, i requires 0 <= i < |calls| => StepOf(calls[i], got[i]))
  }

  lemma RunExtends(states: seq<State>, calls: seq<Call>, got: seq<Option<ItemId>>, s: State)
    requires |calls| > 0 && |got| == |calls| && forall i :: 0 <= i < |calls| ==> WellTimed(calls[i])
    requires var n := |calls| - 1;
             && AnyRun(states, StepsOf(calls[..n], got[..n]))
             && Next(states[n], StepOf(calls[n], got[n]), s)
    ensures AnyRun(states + [s], StepsOf(calls, got))
  {
    var (n, steps, all) := (|calls| - 1, StepsOf(calls, got), states + [s]);
    var before := StepsOf(calls[..n], got[..n]);
    forall i | 0 <= i < |steps| ensures Next(all[i], steps[i], all[i + 1]) {
      if i < n { assert Next(states[i], before[i], states[i + 1]); }
    }
  }

  lemma HonestRunAgrees(states: seq<State>, calls: seq<Call>, got: seq<Option<ItemId>>)
    requires |got| == |calls| && forall i :: 0 <= i < |calls| ==> WellTimed(calls[i]) && Honest(calls[i])
    requires AnyRun(states, StepsOf(calls, got))
    ensures Agrees(states[|calls|])
  {
    RunAgrees(states, StepsOf(calls, got), |calls|);
  }

  /** Any calls on a fresh database are a run of the protocol, and over honest topics the log
      replays to the items and queue rows in the tables. */
  method Serve(calls: seq<Call>) returns (db: Database, got: seq<Option<ItemId>>, ghost states: seq<State>)
    requires forall i :: 0 <= i < |calls| ==> WellTimed(calls[i])
    ensures |got| == |calls| && AnyRun(states, StepsOf(calls, got)) && states[|calls|] == db.Contents()
    ensures RowsOk(db.rows)
    ensures (forall i :: 0 <= i < |calls| ==> Honest(calls[i])) ==> Agrees(db.Contents())
  {
    db := new Database();
    got, states := [], [EMPTY];
    for n := 0 to |calls|
      invariant |got| == n && AnyRun(states, StepsOf(calls[..n], got)) && states[n] == db.Contents()
      invariant RowsOk(db.rows) && fresh(db)
    {
      var item := Perform(db, calls[n]);
      StepsAreStamped(calls[n], item);
      NextKeepsRowsOk(states[n], StepOf(calls[n], item), db.Contents());
      var before := got;
      got := got + [item];
      assert calls[..n + 1][..n] == calls[..n] && got[..n] == before;
      RunExtends(states, calls[..n + 1], got, db.Contents());
      states := states + [db.Contents()];
    }
    assert calls[..|calls|] == calls;
    if forall i :: 0 <= i < |calls| ==> Honest(calls[i]) { HonestRunAgrees(states, calls, got); }
  }
}
