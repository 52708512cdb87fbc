/** The server as a concurrent protocol: any number of workers, crashes, expired leases,
    late finalizes and human acks, interleaved transaction by transaction.

    The slow work of a worker lies between its claim step and its finalize step.  A
    finalize step is possible at any time, for any item, by any worker id, with any
    outcome, so every interleaving of real workers is among the runs considered; a worker
    that crashes is one whose finalize never comes. */
module Pipeline {
  import opened Common
  import opened Rfc3339
  import opened Storage
  import opened Queue
  import opened Events
  import opened Items
  import opened IntakeLoop
  import opened LoopWorld
  import opened Transactions
  import opened Replay
  import opened TopicData

  datatype Step =
    | Creating(id: ItemId, content: Item, eventId: string, detail: map<string, Json>, at: string)
    | Persisting(topic: string, id: ItemId, content: Item, eventId: string, auditId: string, detail: map<string, Json>, at: string)
    | Claiming(queue: string, worker: string, now: string, expires: string, got: Option<ItemId>)
    | Unclaiming(queue: string, item: ItemId, worker: string)
    | FinishingIntake(item: ItemId, worker: string, outcome: IntakeOutcome, eventId: string, at: string)
    | Acking(item: ItemId, eventId: string, at: string)
    | FinishingReview(item: ItemId, worker: string, eventId: string, detail: map<string, Json>, g: Option<Suggestion>, at: string)
    | Invoking(item: ItemId, activity: string, params: Json, eventId: string)
    | SettingData(topic: string, key: string, value: Json, eventId: string, projected: bool)

  /** What the topics of this server answer with: actions they took themselves. */
  lemma TopicActionsSayNothing(e: Event)
    requires e.kind == ActionTaken && e.actor.Topic?
    ensures Lifecycle(e).None?
  {
  }

  /** One committed transaction, or an attempt that changed nothing. */
  ghost predicate Next(s: State, step: Step, s': State) {
    match step
    case Creating(id, item, eventId, detail, at) =>
      s' == if !Recorded(s.events, eventId) && Insertable(s, id, item)
            then AfterCreate(s, id, item, [CreationEvent(eventId, id, System, detail)], INTAKE, at) else s
    case Persisting(topic, id, item, eventId, auditId, detail, at) =>
      s' == if Appendable(s.events, PersistEvents(topic, id, eventId, auditId, detail)) && Insertable(s, id, item)
            then AfterCreate(s, id, item, PersistEvents(topic, id, eventId, auditId, detail), INTAKE, at) else s
    case Claiming(queue, worker, now, expires, got) =>
      s' == s.(rows := s'.rows) && DequeueStep(s.rows, queue, worker, now, expires, s'.rows, got)
    case Unclaiming(queue, item, worker) =>
      s' == if Holds(s.rows, Key(queue, item), worker) then s.(rows := Unclaimed(s.rows, Key(queue, item))) else s
    case FinishingIntake(item, worker, outcome, eventId, at) =>
      s' == if CanFinishIntake(s, item, worker, outcome, eventId) then AfterIntake(s, item, outcome, eventId, at) else s
    case Acking(item, eventId, at) =>
      s' == if CanAck(s, item, eventId) then AfterAck(s, item, eventId, at) else s
    case FinishingReview(item, worker, eventId, detail, g, at) =>
      var review := ReviewEvent(eventId, item, detail);
      s' == if CanFinishReview(s, item, worker, review, g) then AfterReview(s, item, review, g, at) else s
    case Invoking(item, activity, params, eventId) =>
      s' == if Recorded(s.events, eventId) then s
            else s.(events := s.events + [InvokedEvent(eventId, item, activity, params)])
    case SettingData(topic, key, value, eventId, projected) =>
      s' == AfterSetData(s, eventId, topic, key, value, projected)
  }

  /** Topics answer an activity with an event that claims nothing about where items are. */
  predicate TopicsHonest(step: Step) {
    step.FinishingIntake? ==> forall e :: e in step.outcome.events ==> Lifecycle(e).None?
  }

  /** A run whose topics may answer with anything. */
  ghost predicate AnyRun(states: seq<State>, steps: seq<Step>) {
    |states| == |steps| + 1 && states[0] == EMPTY
    && forall i :: 0 <= i < |steps| ==> Next(states[i], steps[i], states[i + 1])
  }

  /** A run whose topics are honest. */
  ghost predicate Run(states: seq<State>, steps: seq<Step>) {
    |states| == |steps| + 1 && states[0] == EMPTY
    && forall i :: 0 <= i < |steps| ==> Next(states[i], steps[i], states[i + 1]) && TopicsHonest(steps[i])
  }

  // ── what the events built by the server mean ─────────────────────────

  lemma ItemEventItem(e: Event, id: string, item: ItemId, kind: EventType, actor: Actor, extra: map<string, Json>)
    requires e == NewItemEvent(id, item, kind, actor, extra)
    ensures Replay.ItemOf(e) == Some(item)
  {
  }

  lemma CreationMeans(id: string, item: ItemId, actor: Actor, detail: map<string, Json>)
    requires actor.System? || actor.Topic? || actor.ReviewLlm?
    ensures Lifecycle(CreationEvent(id, item, actor, detail))
         == Some(Created(item, if actor.ReviewLlm? then InHuman else InIntake))
  {
    ItemEventItem(CreationEvent(id, item, actor, detail), id, item, ItemCreated, actor, detail);
  }

  lemma AnalysisMeans(id: string, item: ItemId, outcome: IntakeOutcome)
    ensures Lifecycle(AnalysisEvent(id, item, outcome)) == Some(Analyzed(item, outcome.AutoResolved?))
  {
    var e := AnalysisEvent(id, item, outcome);
    assert e.payload.Get("confident") == Some(JBool(outcome.AutoResolved?));
  }

  lemma AckMeans(id: string, item: ItemId)
    ensures Lifecycle(AckEvent(id, item)) == Some(Acked(item))
  {
    var e := AckEvent(id, item);
    assert e.payload.Get("activity_id") == Some(JStr("ack")) && e.payload.Get("params").None?;
  }

  /** An invoked action is no ack, even when its activity is named `ack`: it carries `params`. */
  lemma InvokedMeansNothing(id: string, item: ItemId, activity: string, params: Json)
    ensures Lifecycle(InvokedEvent(id, item, activity, params)).None?
  {
    assert InvokedEvent(id, item, activity, params).payload.Get("params") == Some(params);
  }

  lemma ReviewMeans(id: string, item: ItemId, detail: map<string, Json>)
    ensures Lifecycle(ReviewEvent(id, item, detail)) == Some(Reviewed(item))
  {
    ItemEventItem(ReviewEvent(id, item, detail), id, item, ReviewLlmAnalysis, ReviewLlm, detail);
  }

  // ── the invariant ────────────────────────────────────────────────────

  function QueueOf(s: Stage): string
    requires s != Retired
  {
    match s
    case InIntake => INTAKE
    case InHuman => HUMAN
    case InOuttake => OUTTAKE
  }

  /** The queue rows that a placement calls for. */
  function QueueKeys(p: Placement): set<Key> {
    set id | id in p && p[id] != Retired :: Key(QueueOf(p[id]), id)
  }

  /** The log replays to exactly the item rows and exactly the queue rows; claims play no part. */
  ghost predicate Agrees(s: State) {
    Replayed(s.events).Some?
    && Replayed(s.events).value.Keys == s.items.Keys
    && s.rows.Keys == QueueKeys(Replayed(s.events).value)
  }

  lemma InQueueKeys(p: Placement, k: Key)
    ensures k in QueueKeys(p) <==> k.item in p && p[k.item] != Retired && k.queue == QueueOf(p[k.item])
  {
    if k.item in p && p[k.item] != Retired && k.queue == QueueOf(p[k.item]) {
      assert k == Key(QueueOf(p[k.item]), k.item);
    }
  }

  /** The one item row, event and queue row that change when `item` goes to `to`. */
  lemma MoveAgrees(s: State, s': State, item: ItemId, to: Stage, es: seq<Event>, t: Transition)
    requires Agrees(s) && s'.events == s.events + es
    requires ReplayFrom(Replayed(s.events).value, es) == Advance(Replayed(s.events).value, t)
    requires Advance(Replayed(s.events).value, t) == Some(Replayed(s.events).value[item := to])
    requires s'.items.Keys == s.items.Keys + {item}
    requires s'.rows.Keys == (set k | k in s.rows && k.item != item) + (if to == Retired then {} else {Key(QueueOf(to), item)})
    ensures Agrees(s') && Replayed(s'.events).value == Replayed(s.events).value[item := to]
  {
    ReplayConcat(map[], s.events, es);
    var p := Replayed(s.events).value;
    var q := p[item := to];
    forall k ensures k in s'.rows <==> k in QueueKeys(q) {
      InQueueKeys(p, k);
      InQueueKeys(q, k);
      assert k in s.rows <==> k in QueueKeys(p);
      if k.item == item {
        assert k in s'.rows <==> to != Retired && k == Key(QueueOf(to), item);
      }
    }
  }

  lemma StageFromRow(s: State, k: Key)
    requires Agrees(s) && k in s.rows
    ensures k.item in s.items && k.item in Replayed(s.events).value
    ensures Replayed(s.events).value[k.item] != Retired && QueueOf(Replayed(s.events).value[k.item]) == k.queue
    ensures forall k' :: k' in s.rows && k'.item == k.item ==> k' == k
  {
  }

  lemma ReplayOneEvent(p: Placement, e: Event)
    ensures ReplayFrom(p, [e]) == ReplayOne(p, e)
  {
    assert [e][1..] == [];
  }

  lemma InertEventAgrees(s: State, s': State, e: Event)
    requires Agrees(s) && Lifecycle(e).None?
    requires s'.events == s.events + [e] && s'.items == s.items && s'.rows == s.rows
    ensures Agrees(s')
  {
    ReplayAppend(map[], s.events, e);
  }

  /** A creation appends its event, perhaps after or before events that say nothing. */
  lemma CreateAgrees(s: State, id: ItemId, item: Item, es: seq<Event>, stage: Stage, at: string)
    requires Agrees(s) && id !in s.items && stage != Retired
    requires ReplayFrom(Replayed(s.events).value, es) == Some(Replayed(s.events).value[id := stage])
    ensures Agrees(AfterCreate(s, id, item, es, QueueOf(stage), at))
  {
    var s' := AfterCreate(s, id, item, es, QueueOf(stage), at);
    forall k | k in s.rows ensures k.item != id { StageFromRow(s, k); }
    assert s'.rows.Keys == s.rows.Keys + {Key(QueueOf(stage), id)};
    MoveAgrees(s, s', id, stage, es, Created(id, stage));
  }

  lemma CreatingAgrees(s: State, id: ItemId, item: Item, eventId: string, detail: map<string, Json>, at: string)
    requires Agrees(s) && id !in s.items
    ensures Agrees(AfterCreate(s, id, item, [CreationEvent(eventId, id, System, detail)], INTAKE, at))
  {
    var e := CreationEvent(eventId, id, System, detail);
    CreationMeans(eventId, id, System, detail);
    ReplayOneEvent(Replayed(s.events).value, e);
    CreateAgrees(s, id, item, [e], InIntake, at);
  }

  lemma PersistingAgrees(s: State, topic: string, id: ItemId, item: Item, eventId: string, auditId: string,
                         detail: map<string, Json>, at: string)
    requires Agrees(s) && id !in s.items
    ensures Agrees(AfterCreate(s, id, item, PersistEvents(topic, id, eventId, auditId, detail), INTAKE, at))
  {
    var e := CreationEvent(eventId, id, Topic(topic), detail);
    CreationMeans(eventId, id, Topic(topic), detail);
    ReplayOneEvent(Replayed(s.events).value, e);
    ReplayAppend(Replayed(s.events).value, [e], EnqueuedEvent(auditId, id));
    CreateAgrees(s, id, item, PersistEvents(topic, id, eventId, auditId, detail), InIntake, at);
  }

  lemma IntakeAgrees(s: State, item: ItemId, worker: string, outcome: IntakeOutcome, eventId: string, at: string)
    requires Agrees(s) && CanFinishIntake(s, item, worker, outcome, eventId)
    requires forall e :: e in outcome.events ==> Lifecycle(e).None?
    ensures Agrees(AfterIntake(s, item, outcome, eventId, at))
  {
    var p := Replayed(s.events).value;
    var analysis := AnalysisEvent(eventId, item, outcome);
    var to := if outcome.AutoResolved? then Retired else InHuman;
    StageFromRow(s, Key(INTAKE, item));
    assert p[item] == InIntake;
    AnalysisMeans(eventId, item, outcome);
    InertReplay(p, outcome.events);
    ReplayAppend(p, outcome.events, analysis);
    MoveAgrees(s, AfterIntake(s, item, outcome, eventId, at), item, to, outcome.events + [analysis],
               Analyzed(item, outcome.AutoResolved?));
  }

  lemma AckAgrees(s: State, item: ItemId, eventId: string, at: string)
    requires Agrees(s) && CanAck(s, item, eventId)
    ensures Agrees(AfterAck(s, item, eventId, at))
    ensures Replayed(AfterAck(s, item, eventId, at).events).value == Replayed(s.events).value[item := InOuttake]
  {
    var p := Replayed(s.events).value;
    StageFromRow(s, Key(HUMAN, item));
    assert p[item] == InHuman;
    AckMeans(eventId, item);
    ReplayOneEvent(p, AckEvent(eventId, item));
    MoveAgrees(s, AfterAck(s, item, eventId, at), item, InOuttake, [AckEvent(eventId, item)], Acked(item));
  }

  lemma HumanRow(s: State, item: ItemId)
    requires Agrees(s)
    ensures Key(HUMAN, item) in s.rows <==> item in s.items && Replayed(s.events).value[item] == InHuman
    ensures Key(HUMAN, item) in s.rows ==> Key(OUTTAKE, item) !in s.rows
  {
    InQueueKeys(Replayed(s.events).value, Key(HUMAN, item));
    InQueueKeys(Replayed(s.events).value, Key(OUTTAKE, item));
  }

  /** Where log and tables agree, an ack with an unused id goes through exactly for an item that waits
      for the human, whoever holds its row; the item then waits for its review, unclaimed. */
  lemma AckFinishesExactly(s: State, item: ItemId, eventId: string, at: string, s': State)
    requires Agrees(s) && Next(s, Acking(item, eventId, at), s')
    ensures s' != s <==> item in s.items && Replayed(s.events).value[item] == InHuman && !Recorded(s.events, eventId)
    ensures s' != s ==>
              && Agrees(s') && Replayed(s'.events).value == Replayed(s.events).value[item := InOuttake]
              && s'.items == s.items
              && s'.rows == (s.rows - {Key("human", item)})[Key("outtake", item) := Row(0, at, None, None, None)]
  {
    HumanRow(s, item);
    assert AfterAck(s, item, eventId, at).events[|s.events|] == AckEvent(eventId, item);
    if CanAck(s, item, eventId) { AckAgrees(s, item, eventId, at); }
  }

  lemma ReviewAgrees(s: State, item: ItemId, worker: string, eventId: string, detail: map<string, Json>,
                     g: Option<Suggestion>, at: string)
    requires Agrees(s) && CanFinishReview(s, item, worker, ReviewEvent(eventId, item, detail), g)
    ensures Agrees(AfterReview(s, item, ReviewEvent(eventId, item, detail), g, at))
  {
    var p := Replayed(s.events).value;
    var review := ReviewEvent(eventId, item, detail);
    StageFromRow(s, Key(OUTTAKE, item));
    assert p[item] == InOuttake;
    ReviewMeans(eventId, item, detail);
    ReplayOneEvent(p, review);
    var retired := s.(events := s.events + [review], rows := s.rows - {Key(OUTTAKE, item)});
    MoveAgrees(s, retired, item, Retired, [review], Reviewed(item));
    if g.Some? {
      var e := SuggestionEvent(g.value);
      CreationMeans(g.value.eventId, g.value.id, ReviewLlm, g.value.detail);
      ReplayOneEvent(Replayed(retired.events).value, e);
      CreateAgrees(retired, g.value.id, g.value.item, [e], InHuman, at);
      assert s.events + ReviewEvents(review, g) == retired.events + [e];
    }
  }

  lemma NextAgrees(s: State, step: Step, s': State)
    requires Agrees(s) && Next(s, step, s') && TopicsHonest(step)
    ensures Agrees(s')
  {
    match step {
      case Creating(id, item, eventId, detail, at) =>
        if s' != s { CreatingAgrees(s, id, item, eventId, detail, at); }
      case Persisting(topic, id, item, eventId, auditId, detail, at) =>
        if s' != s { PersistingAgrees(s, topic, id, item, eventId, auditId, detail, at); }
      case FinishingIntake(item, worker, outcome, eventId, at) =>
        if s' != s { IntakeAgrees(s, item, worker, outcome, eventId, at); }
      case Acking(item, eventId, at) =>
        if s' != s { AckAgrees(s, item, eventId, at); }
      case FinishingReview(item, worker, eventId, detail, g, at) =>
        if s' != s { ReviewAgrees(s, item, worker, eventId, detail, g, at); }
      case Invoking(item, activity, params, eventId) =>
        InvokedMeansNothing(eventId, item, activity, params);
        if s' != s { InertEventAgrees(s, s', InvokedEvent(eventId, item, activity, params)); }
      case SettingData(topic, key, value, eventId, _) =>
        if s' != s { InertEventAgrees(s, s', DataEvent(eventId, topic, key, value)); }
      case Claiming(_, _, _, _, _) => assert s'.rows.Keys == s.rows.Keys;
      case Unclaiming(_, _, _) => assert s'.rows.Keys == s.rows.Keys;
    }
  }

  // ── properties of every run ──────────────────────────────────────────

  lemma {:induction false} RunAgrees(states: seq<State>, steps: seq<Step>, n: nat)
    requires Run(states, steps) && n <= |steps|
    ensures Agrees(states[n])
  {
    if n == 0 {
      assert QueueKeys(map[]) == {};
    } else {
      RunAgrees(states, steps, n - 1);
      NextAgrees(states[n - 1], steps[n - 1], states[n]);
    }
  }

  /** Workers run at least once; every item is still finalized at most once, in every interleaving. */
  lemma FinalizedAtMostOnce(states: seq<State>, steps: seq<Step>, n: nat, item: ItemId)
    requires Run(states, steps) && n <= |steps|
    ensures var log := states[n].events;
            Analyses(log, item) <= 1 && Count(log, Acked(item)) <= 1 && Count(log, Reviewed(item)) <= 1
    ensures Creations(states[n].events, item) == (if item in states[n].items then 1 else 0)
  {
    RunAgrees(states, steps, n);
    OncePerItem(states[n].events, item);
  }

  /** The rows of one item: its one queue while it is live, none once it is retired. */
  lemma ItemIsInOnePlace(states: seq<State>, steps: seq<Step>, n: nat, item: ItemId)
    requires Run(states, steps) && n <= |steps| && item in states[n].items
    ensures Replayed(states[n].events).Some? && item in Replayed(states[n].events).value
    ensures var stage := Replayed(states[n].events).value[item];
            forall k :: k in states[n].rows && k.item == item <==> stage != Retired && k == Key(QueueOf(stage), item)
  {
    RunAgrees(states, steps, n);
    var p := Replayed(states[n].events).value;
    forall k ensures k in states[n].rows && k.item == item <==> p[item] != Retired && k == Key(QueueOf(p[item]), item) {
      InQueueKeys(p, k);
      assert k in states[n].rows <==> k in QueueKeys(p);
    }
  }

  /** The log is append-only. */
  lemma NextOnlyAppends(s: State, step: Step, s': State)
    requires Next(s, step, s')
    ensures s.events <= s'.events
  {
  }

  lemma {:induction false} RunOnlyAppends(states: seq<State>, steps: seq<Step>, i: nat, j: nat)
    requires Run(states, steps) && i <= j <= |steps|
    ensures states[i].events <= states[j].events
    decreases j
  {
    if i < j {
      RunOnlyAppends(states, steps, i, j - 1);
      NextOnlyAppends(states[j - 1], steps[j - 1], states[j]);
    }
  }

  /** No item is ever lost and no item ever goes back. */
  lemma StagesNeverGoBack(states: seq<State>, steps: seq<Step>, i: nat, j: nat)
    requires Run(states, steps) && i <= j <= |steps|
    ensures Replayed(states[i].events).Some? && Replayed(states[j].events).Some?
    ensures NoLaterThan(Replayed(states[i].events).value, Replayed(states[j].events).value)
  {
    RunAgrees(states, steps, i);
    RunAgrees(states, steps, j);
    RunOnlyAppends(states, steps, i, j);
    var (before, after) := (states[i].events, states[j].events);
    var tail := after[|before|..];
    assert after == before + tail;
    ReplayConcat(map[], before, tail);
    ReplayOnlyAdvances(Replayed(before).value, tail);
  }

  lemma {:induction false} QueueKeysSize(p: Placement, live: set<ItemId>)
    requires live <= Live(p)
    ensures |set k | k in QueueKeys(p) && k.item in live| == |live|
    ensures live == Live(p) ==> |QueueKeys(p)| == |live|
  {
    var keys := set k | k in QueueKeys(p) && k.item in live;
    if live == {} {
      assert keys == {};
    } else {
      var id :| id in live;
      QueueKeysSize(p, live - {id});
      var rest := set k | k in QueueKeys(p) && k.item in live - {id};
      var key := Key(QueueOf(p[id]), id);
      forall k ensures k in keys <==> k in rest + {key} {
        InQueueKeys(p, k);
        InQueueKeys(p, key);
      }
      assert keys == rest + {key} && key !in rest;
    }
    if live == Live(p) {
      forall k ensures k in QueueKeys(p) <==> k in keys { InQueueKeys(p, k); }
      assert QueueKeys(p) == keys;
    }
  }

  /** Conservation: queue rows are creations less confident intake analyses less reviews. */
  lemma RowsAreConserved(states: seq<State>, steps: seq<Step>, n: nat)
    requires Run(states, steps) && n <= |steps|
    ensures |states[n].rows| == Balance(states[n].events)
  {
    RunAgrees(states, steps, n);
    LiveIsBalance(states[n].events);
    QueueKeysSize(Replayed(states[n].events).value, Live(Replayed(states[n].events).value));
  }

  // ── the two other table invariants ───────────────────────────────────

  /** Every time text a step writes was produced by the encoder. */
  ghost predicate Stamped(step: Step) {
    match step
    case Claiming(_, _, now, expires, _) => IsStamp(now) && IsStamp(expires)
    case Creating(_, _, _, _, at) => IsStamp(at)
    case Persisting(_, _, _, _, _, _, at) => IsStamp(at)
    case FinishingIntake(_, _, _, _, at) => IsStamp(at)
    case Acking(_, _, at) => IsStamp(at)
    case FinishingReview(_, _, _, _, _, at) => IsStamp(at)
    case _ => true
  }

  lemma NextKeepsUnique(s: State, step: Step, s': State)
    requires Unique(s.items) && Next(s, step, s')
    ensures Unique(s'.items)
  {
    match step {
      case Creating(id, content, _, _, _) => if s' != s { InsertKeepsUnique(s.items, id, content); }
      case Persisting(_, id, content, _, _, _, _) => if s' != s { InsertKeepsUnique(s.items, id, content); }
      case FinishingReview(_, _, _, _, g, _) =>
        if s' != s && g.Some? { InsertKeepsUnique(s.items, g.value.id, g.value.item); }
      case _ =>
    }
  }

  lemma {:induction false} RunKeepsUnique(states: seq<State>, steps: seq<Step>, n: nat)
    requires Run(states, steps) && n <= |steps|
    ensures Unique(states[n].items)
  {
    if n == 0 {
    } else {
      RunKeepsUnique(states, steps, n - 1);
      NextKeepsUnique(states[n - 1], steps[n - 1], states[n]);
    }
  }

  lemma FreshRowOk(at: string)
    requires IsStamp(at)
    ensures RowOk(FreshRow(0, at))
  {
  }

  lemma NextKeepsRowsOk(s: State, step: Step, s': State)
    requires RowsOk(s.rows) && Next(s, step, s') && Stamped(step)
    ensures RowsOk(s'.rows)
  {
    match step {
      case Creating(_, _, _, _, at) => FreshRowOk(at);
      case Persisting(_, _, _, _, _, _, at) => FreshRowOk(at);
      case FinishingIntake(_, _, _, _, at) => FreshRowOk(at);
      case Acking(_, _, at) => FreshRowOk(at);
      case FinishingReview(_, _, _, _, _, at) => FreshRowOk(at);
      case _ =>
    }
  }

  /** In every reachable state: no two items share a source pair, rows are well formed,
      and every row has its item. */
  lemma {:induction false} RunKeepsTables(states: seq<State>, steps: seq<Step>, n: nat)
    requires Run(states, steps) && n <= |steps| && forall i :: 0 <= i < n ==> Stamped(steps[i])
    ensures Unique(states[n].items) && RowsOk(states[n].rows)
    ensures forall k :: k in states[n].rows ==> k.item in states[n].items
  {
    if n == 0 {
    } else {
      RunKeepsTables(states, steps, n - 1);
      NextKeepsRowsOk(states[n - 1], steps[n - 1], states[n]);
    }
    RunKeepsUnique(states, steps, n);
    RunAgrees(states, steps, n);
    forall k | k in states[n].rows ensures k.item in states[n].items { StageFromRow(states[n], k); }
  }

  // ── deduplication ────────────────────────────────────────────────────

  function ItemsWith(items: map<ItemId, Item>, p: SourcePair): set<ItemId> {
    set id | id in items && PairOf(items[id]) == Some(p)
  }

  /** How many creation events in the log are of items with this pair. */
  function CreationsWith(log: seq<Event>, items: map<ItemId, Item>, p: SourcePair): nat {
    if log == [] then 0
    else
      var t := Lifecycle(log[|log| - 1]);
      CreationsWith(log[..|log| - 1], items, p)
      + (if t.Some? && t.value.Created? && t.value.item in ItemsWith(items, p) then 1 else 0)
  }

  function IntakeRowsWith(s: State, p: SourcePair): set<Key> {
    set k | k in s.rows && k.queue == INTAKE && k.item in ItemsWith(s.items, p)
  }

  lemma {:induction false} CreationsOfOne(log: seq<Event>, items: map<ItemId, Item>, p: SourcePair, id: ItemId)
    requires ItemsWith(items, p) == {id}
    ensures CreationsWith(log, items, p) == Creations(log, id)
  {
    if log == [] {
    } else {
      CreationsOfOne(log[..|log| - 1], items, p, id);
      var t := Lifecycle(log[|log| - 1]);
      if t.Some? && t.value.Created? { CreatedAtEnds(log[|log| - 1]); }
    }
  }

  lemma {:induction false} CreationsOfNone(log: seq<Event>, items: map<ItemId, Item>, p: SourcePair)
    requires ItemsWith(items, p) == {}
    ensures CreationsWith(log, items, p) == 0
  {
    if log == [] {
    } else {
      CreationsOfNone(log[..|log| - 1], items, p);
    }
  }

  lemma OneItemPerPair(items: map<ItemId, Item>, p: SourcePair)
    requires Unique(items)
    ensures ItemsWith(items, p) == {} || exists id :: ItemsWith(items, p) == {id}
  {
    if ItemsWith(items, p) != {} {
      var id :| id in ItemsWith(items, p);
      assert ItemsWith(items, p) == {id};
    }
  }

  /** Deduplication over runs: whatever creates, retries and interleaves, a source pair has at
      most one item row, as many creation events as item rows, and at most one intake row. */
  lemma PairsAreDeduplicated(states: seq<State>, steps: seq<Step>, n: nat, p: SourcePair)
    requires Run(states, steps) && n <= |steps|
    ensures |ItemsWith(states[n].items, p)| <= 1
    ensures CreationsWith(states[n].events, states[n].items, p) == |ItemsWith(states[n].items, p)|
    ensures |IntakeRowsWith(states[n], p)| <= |ItemsWith(states[n].items, p)|
  {
    var s := states[n];
    RunKeepsUnique(states, steps, n);
    OneItemPerPair(s.items, p);
    if id :| ItemsWith(s.items, p) == {id} {
      assert id in ItemsWith(s.items, p);
      CreationsOfOne(s.events, s.items, p, id);
      FinalizedAtMostOnce(states, steps, n, id);
      assert IntakeRowsWith(s, p) <= {Key(INTAKE, id)};
      SubsetSize(IntakeRowsWith(s, p), {Key(INTAKE, id)});
    } else {
      CreationsOfNone(s.events, s.items, p);
      assert IntakeRowsWith(s, p) == {};
    }
  }

  // ── stale workers ────────────────────────────────────────────────────

  /** The step claims `k` for `worker`. */
  predicate ClaimsFor(step: Step, k: Key, worker: string) {
    step.Claiming? && step.worker == worker && step.got.Some? && Key(step.queue, step.got.value) == k
  }

  /** The step is a finalize of `k` by `worker`. */
  predicate FinalizesFor(step: Step, k: Key, worker: string) {
    (step.FinishingIntake? && step.worker == worker && k == Key(INTAKE, step.item))
    || (step.FinishingReview? && step.worker == worker && k == Key(OUTTAKE, step.item))
  }

  lemma NextKeepsStale(s: State, step: Step, s': State, k: Key, worker: string)
    requires Next(s, step, s') && !Holds(s.rows, k, worker) && !ClaimsFor(step, k, worker)
    ensures !Holds(s'.rows, k, worker)
    ensures FinalizesFor(step, k, worker) ==> s' == s
  {
    match step
    case FinishingIntake(item, holder, outcome, eventId, _) =>
      StaleFinalizeFails(s, item, holder, outcome, eventId, AckEvent(eventId, item), None);
    case FinishingReview(item, holder, eventId, detail, g, _) =>
      StaleFinalizeFails(s, item, holder, DeferredToHuman(LoopFailed, [], []), eventId, ReviewEvent(eventId, item, detail), g);
    case _ =>
  }

  lemma {:induction false} StaysStale(states: seq<State>, steps: seq<Step>, i: nat, n: nat, k: Key, worker: string)
    requires Run(states, steps) && i <= n <= |steps| && !Holds(states[i].rows, k, worker)
    requires forall j :: i <= j < n ==> !ClaimsFor(steps[j], k, worker)
    ensures !Holds(states[n].rows, k, worker)
    decreases n
  {
    if i == n {
    } else {
      StaysStale(states, steps, i, n - 1, k, worker);
      NextKeepsStale(states[n - 1], steps[n - 1], states[n], k, worker);
    }
  }

  /** A worker that lost its claim, to an expired lease, a release or an ack, changes nothing with
      a late finalize, however much happened in between, unless it claimed the row anew. */
  lemma StaleWorkerNeverCommits(states: seq<State>, steps: seq<Step>, i: nat, n: nat, k: Key, worker: string)
    requires Run(states, steps) && i <= n < |steps| && !Holds(states[i].rows, k, worker)
    requires forall j :: i <= j < n ==> !ClaimsFor(steps[j], k, worker)
    requires FinalizesFor(steps[n], k, worker)
    ensures states[n + 1] == states[n]
  {
    StaysStale(states, steps, i, n, k, worker);
    NextKeepsStale(states[n], steps[n], states[n + 1], k, worker);
  }

  // ── what an untrusted topic could do ─────────────────────────────────

  /** The activity events and the analysis replay one after the other. */
  lemma ActivityPart(s: State, item: ItemId, outcome: IntakeOutcome, eventId: string, at: string) returns (p': Placement)
    requires Agrees(s) && Agrees(AfterIntake(s, item, outcome, eventId, at)) && Key(INTAKE, item) in s.rows
    ensures var p, q := Replayed(s.events).value, Replayed(AfterIntake(s, item, outcome, eventId, at).events).value;
            && ReplayFrom(p, outcome.events) == Some(p')
            && item in p && item in p' && item in q && p'[item] == p[item]
            && q == p'[item := q[item]]
  {
    var p := Replayed(s.events).value;
    var analysis := AnalysisEvent(eventId, item, outcome);
    ReplayConcat(map[], s.events, outcome.events + [analysis]);
    ReplayAppend(p, outcome.events, analysis);
    AnalysisMeans(eventId, item, outcome);
    p' := ReplayFrom(p, outcome.events).value;
    StageFromRow(s, Key(INTAKE, item));
  }

  lemma SamePlacement(p: Placement, p': Placement, q: Placement, item: ItemId)
    requires item in p && item in p' && item in q && p'[item] == p[item] && q == p'[item := q[item]]
    requires p.Keys == q.Keys && forall id :: id in p && id != item ==> q[id] == p[id]
    ensures p' == p
  {
    assert p'.Keys == q.Keys;
  }

  /** Rows other than those of the finalized item are as before, so is the stage they stand for. */
  lemma SameStage(s: State, s': State, id: ItemId)
    requires Agrees(s) && Agrees(s') && s'.items == s.items && id in s.items
    requires forall k: Key :: k.item == id ==> (k in s.rows <==> k in s'.rows)
    ensures Replayed(s.events).value[id] == Replayed(s'.events).value[id]
  {
    var p, q := Replayed(s.events).value, Replayed(s'.events).value;
    forall k: Key | k.item == id ensures k in QueueKeys(p) <==> k in QueueKeys(q) {
      assert k in s.rows <==> k in s'.rows;
    }
    if p[id] != Retired { InQueueKeys(p, Key(QueueOf(p[id]), id)); InQueueKeys(q, Key(QueueOf(p[id]), id)); }
    if q[id] != Retired { InQueueKeys(p, Key(QueueOf(q[id]), id)); InQueueKeys(q, Key(QueueOf(q[id]), id)); }
  }

  lemma AgreementForcesInert(s: State, item: ItemId, outcome: IntakeOutcome, eventId: string, at: string)
    requires Agrees(s) && Key(INTAKE, item) in s.rows
    requires Agrees(AfterIntake(s, item, outcome, eventId, at))
    ensures forall e :: e in outcome.events ==> Lifecycle(e).None?
  {
    var s' := AfterIntake(s, item, outcome, eventId, at);
    var p, q := Replayed(s.events).value, Replayed(s'.events).value;
    var p' := ActivityPart(s, item, outcome, eventId, at);
    ReplayOnlyAdvances(p, outcome.events);
    forall id | id in p && id != item ensures q[id] == p[id] {
      SameStage(s, s', id);
    }
    SamePlacement(p, p', q, item);
  }

  /** Agreement survives an intake finalize exactly when no activity event is a lifecycle
      event; the events are appended as the topic sent them. */
  lemma IntakeAgreesExactly(s: State, item: ItemId, worker: string, outcome: IntakeOutcome, eventId: string, at: string)
    requires Agrees(s) && CanFinishIntake(s, item, worker, outcome, eventId)
    ensures Agrees(AfterIntake(s, item, outcome, eventId, at)) <==> forall e :: e in outcome.events ==> Lifecycle(e).None?
  {
    if forall e :: e in outcome.events ==> Lifecycle(e).None? {
      IntakeAgrees(s, item, worker, outcome, eventId, at);
    }
    if Agrees(AfterIntake(s, item, outcome, eventId, at)) {
      AgreementForcesInert(s, item, outcome, eventId, at);
    }
  }

}
