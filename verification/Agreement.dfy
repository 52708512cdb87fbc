/** When the log alone says where every item is, over whole runs and with any topics at all.

    Every lifecycle event moves some item forward.  So what the log has recorded and what the
    tables have done can be measured on one scale, and the gap between them never closes again. */
module Agreement {
  import opened Common
  import opened Storage
  import opened Queue
  import opened Events
  import opened Items
  import opened IntakeLoop
  import opened LoopWorld
  import opened Transactions
  import opened Replay
  import opened Pipeline
  import TopicData

  // ── how far the log is ───────────────────────────────────────────────

  /** How far an event moves its item; a creation brings it in at its stage. */
  function Gain(e: Event): nat {
    match Lifecycle(e)
    case None => 0
    case Some(Created(_, at)) => 1 + Rank(at)
    case Some(Analyzed(_, confident)) => if confident then 3 else 1
    case Some(Acked(_)) => 1
    case Some(Reviewed(_)) => 1
  }

  function Progress(log: seq<Event>): nat {
    if log == [] then 0 else Progress(log[..|log| - 1]) + Gain(log[|log| - 1])
  }

  lemma {:induction false} ProgressConcat(a: seq<Event>, b: seq<Event>)
    ensures Progress(a + b) == Progress(a) + Progress(b)
  {
    if b == [] {
      assert a + b == a;
    } else {
      ProgressConcat(a, b[..|b| - 1]);
      assert (a + b)[..|a + b| - 1] == a + b[..|b| - 1];
    }
  }

  lemma ProgressOne(e: Event)
    ensures Progress([e]) == Gain(e)
  {
    assert [e][..0] == [];
  }

  lemma {:induction false} NoProgressExactly(es: seq<Event>)
    ensures Progress(es) == 0 <==> forall e :: e in es ==> Lifecycle(e).None?
  {
    if es == [] {
    } else {
      NoProgressExactly(es[..|es| - 1]);
      assert es == es[..|es| - 1] + [es[|es| - 1]];
    }
  }

  // ── how far a placement is ───────────────────────────────────────────

  function AtStage(p: Placement, stage: Stage): set<ItemId> {
    set id | id in p && p[id] == stage
  }

  function Placed(p: Placement): int {
    4 * |p| - 3 * |AtStage(p, InIntake)| - 2 * |AtStage(p, InHuman)| - |AtStage(p, InOuttake)|
  }

  /** Size of a set with one element taken out and maybe put in. */
  lemma SizeAfter<T>(all: set<T>, x: T, all': set<T>)
    requires all' - {x} == all - {x}
    ensures |all'| == |all| - (if x in all then 1 else 0) + (if x in all' then 1 else 0)
  {
    var rest := all - {x};
    assert x in all ==> all == rest + {x};
    assert x !in all ==> all == rest;
    assert x in all' ==> all' == rest + {x};
    assert x !in all' ==> all' == rest;
  }

  lemma AtStageAfter(p: Placement, item: ItemId, to: Stage, stage: Stage)
    ensures |AtStage(p[item := to], stage)|
         == |AtStage(p, stage)| - (if item in p && p[item] == stage then 1 else 0) + (if to == stage then 1 else 0)
  {
    SizeAfter(AtStage(p, stage), item, AtStage(p[item := to], stage));
  }

  lemma PlacedAfter(p: Placement, item: ItemId, to: Stage)
    ensures Placed(p[item := to]) == Placed(p) + Rank(to) + 1 - (if item in p then 1 + Rank(p[item]) else 0)
  {
    AtStageAfter(p, item, to, InIntake);
    AtStageAfter(p, item, to, InHuman);
    AtStageAfter(p, item, to, InOuttake);
    assert p[item := to].Keys == p.Keys + {item};
    assert |p[item := to]| == |p| + (if item in p then 0 else 1);
  }

  lemma ReplayOneGains(p: Placement, e: Event)
    requires ReplayOne(p, e).Some?
    ensures Placed(ReplayOne(p, e).value) == Placed(p) + Gain(e)
  {
    match Lifecycle(e)
    case None =>
    case Some(Created(item, at)) => PlacedAfter(p, item, at);
    case Some(Analyzed(item, confident)) => PlacedAfter(p, item, if confident then Retired else InHuman);
    case Some(Acked(item)) => PlacedAfter(p, item, InOuttake);
    case Some(Reviewed(item)) => PlacedAfter(p, item, Retired);
  }

  lemma {:induction false} ReplayedGains(log: seq<Event>)
    requires Replayed(log).Some?
    ensures Placed(Replayed(log).value) == Progress(log)
  {
    if log == [] {
      assert AtStage(map[], InIntake) == AtStage(map[], InHuman) == AtStage(map[], InOuttake) == {};
    } else {
      ReplayInit(log);
      ReplayedGains(log[..|log| - 1]);
      ReplayOneGains(Replayed(log[..|log| - 1]).value, log[|log| - 1]);
    }
  }

  // ── how far the tables are ───────────────────────────────────────────

  function InQueue(rows: Rows, queue: string): set<Key> {
    set k | k in rows && k.queue == queue
  }

  function Level(s: State): int {
    4 * |s.items| - 3 * |InQueue(s.rows, INTAKE)| - 2 * |InQueue(s.rows, HUMAN)| - |InQueue(s.rows, OUTTAKE)|
  }

  lemma StageCount(s: State, stage: Stage)
    requires Agrees(s) && stage != Retired
    ensures |InQueue(s.rows, QueueOf(stage))| == |AtStage(Replayed(s.events).value, stage)|
  {
    var p := Replayed(s.events).value;
    QueueKeysSize(p, AtStage(p, stage));
    var keys := set k | k in QueueKeys(p) && k.item in AtStage(p, stage);
    forall k ensures k in InQueue(s.rows, QueueOf(stage)) <==> k in keys {
      InQueueKeys(p, k);
      assert k in s.rows <==> k in QueueKeys(p);
    }
    assert InQueue(s.rows, QueueOf(stage)) == keys;
  }

  /** Where log and tables agree they are equally far. */
  lemma AgreementIsLevel(s: State)
    requires Agrees(s)
    ensures Progress(s.events) == Level(s)
  {
    ReplayedGains(s.events);
    StageCount(s, InIntake);
    StageCount(s, InHuman);
    StageCount(s, InOuttake);
    assert |s.items| == |s.items.Keys| == |Replayed(s.events).value.Keys| == |Replayed(s.events).value|;
  }

  /** True of the tables whatever the log says: one row an item, and only for items there are. */
  ghost predicate Tidy(s: State) {
    (forall k :: k in s.rows ==> k.item in s.items)
    && (forall j, k :: j in s.rows && k in s.rows && j.item == k.item ==> j == k)
  }

  lemma RowLeaves(rows: Rows, k: Key, queue: string)
    ensures |InQueue(rows - {k}, queue)| == |InQueue(rows, queue)| - (if k in rows && k.queue == queue then 1 else 0)
  {
    SizeAfter(InQueue(rows, queue), k, InQueue(rows - {k}, queue));
  }

  lemma RowComes(rows: Rows, k: Key, row: Row, queue: string)
    ensures |InQueue(rows[k := row], queue)| == |InQueue(rows, queue)| + (if k !in rows && k.queue == queue then 1 else 0)
  {
    SizeAfter(InQueue(rows, queue), k, InQueue(rows[k := row], queue));
  }

  lemma SameKeysSameLevel(s: State, s': State)
    requires s'.items == s.items && s'.rows.Keys == s.rows.Keys && Tidy(s)
    ensures Tidy(s') && Level(s') == Level(s)
  {
    assert forall queue :: InQueue(s'.rows, queue) == InQueue(s.rows, queue);
  }

  lemma OneMoreItem(items: map<ItemId, Item>, id: ItemId, item: Item)
    requires id !in items
    ensures |items[id := item]| == |items| + 1
  {
    assert items[id := item].Keys == items.Keys + {id};
    assert |items[id := item].Keys| == |items.Keys| + 1;
  }

  lemma TidyCreate(s: State, id: ItemId, item: Item, k: Key, row: Row, s': State)
    requires Tidy(s) && id !in s.items && k.item == id
    requires s'.items == s.items[id := item] && s'.rows == s.rows[k := row]
    ensures Tidy(s') && k !in s.rows
  {
  }

  /** An item and its one row are new. */
  lemma CreateLevel(s: State, id: ItemId, item: Item, k: Key, row: Row, s': State)
    requires Tidy(s) && id !in s.items && k.item == id && (k.queue == INTAKE || k.queue == HUMAN)
    requires s'.items == s.items[id := item] && s'.rows == s.rows[k := row]
    ensures Tidy(s') && Level(s') == Level(s) + (if k.queue == INTAKE then 1 else 2)
  {
    TidyCreate(s, id, item, k, row, s');
    RowComes(s.rows, k, row, INTAKE);
    RowComes(s.rows, k, row, HUMAN);
    RowComes(s.rows, k, row, OUTTAKE);
    OneMoreItem(s.items, id, item);
  }

  /** The item's one row goes. */
  lemma RetireLevel(s: State, k: Key, s': State)
    requires Tidy(s) && k in s.rows && s'.items == s.items && s'.rows == s.rows - {k}
    ensures Tidy(s')
    ensures Level(s') == Level(s) + (if k.queue == INTAKE then 3 else if k.queue == HUMAN then 2 else if k.queue == OUTTAKE then 1 else 0)
  {
    RowLeaves(s.rows, k, INTAKE);
    RowLeaves(s.rows, k, HUMAN);
    RowLeaves(s.rows, k, OUTTAKE);
  }

  /** The item's one row goes to the next queue. */
  lemma MoveLevel(s: State, item: ItemId, from: string, to: string, at: string, s': State)
    requires Tidy(s) && Key(from, item) in s.rows && s'.items == s.items && s'.rows == Moved(s.rows, item, from, to, at)
    requires (from == INTAKE && to == HUMAN) || (from == HUMAN && to == OUTTAKE)
    ensures Tidy(s') && Level(s') == Level(s) + 1
  {
    var (here, there, row) := (Key(from, item), Key(to, item), FreshRow(0, at));
    var rest := s.rows - {here};
    assert there !in rest && s'.rows == rest[there := row];
    RetireLevel(s, here, s.(rows := rest));
    RowComes(rest, there, row, INTAKE);
    RowComes(rest, there, row, HUMAN);
    RowComes(rest, there, row, OUTTAKE);
  }

  // ── the gap never closes ─────────────────────────────────────────────

  function Gap(s: State): int {
    Progress(s.events) - Level(s)
  }

  lemma CreatingLevel(s: State, id: ItemId, item: Item, es: seq<Event>, at: string)
    requires Tidy(s) && id !in s.items && Progress(es) == 1
    ensures var s' := AfterCreate(s, id, item, es, INTAKE, at);
            Tidy(s') && Gap(s') == Gap(s)
  {
    var (s', k) := (AfterCreate(s, id, item, es, INTAKE, at), Key(INTAKE, id));
    assert k !in s.rows;
    CreateLevel(s, id, item, k, FreshRow(0, at), s');
    ProgressConcat(s.events, es);
  }

  lemma CreationProgress(eventId: string, id: ItemId, actor: Actor, detail: map<string, Json>)
    requires actor.System? || actor.Topic?
    ensures Progress([CreationEvent(eventId, id, actor, detail)]) == 1
  {
    CreationMeans(eventId, id, actor, detail);
    ProgressOne(CreationEvent(eventId, id, actor, detail));
  }

  lemma PersistProgress(topic: string, id: ItemId, eventId: string, auditId: string, detail: map<string, Json>)
    ensures Progress(PersistEvents(topic, id, eventId, auditId, detail)) == 1
  {
    var audit := EnqueuedEvent(auditId, id);
    CreationProgress(eventId, id, Topic(topic), detail);
    ProgressOne(audit);
    ProgressConcat([CreationEvent(eventId, id, Topic(topic), detail)], [audit]);
  }

  lemma InertLevel(s: State, e: Event, s': State)
    requires Tidy(s) && Lifecycle(e).None?
    requires s'.events == s.events + [e] && s'.items == s.items && s'.rows == s.rows
    ensures Tidy(s') && Gap(s') == Gap(s)
  {
    ProgressOne(e);
    ProgressConcat(s.events, [e]);
  }

  /** What a committed step adds to the log beyond what it does to the tables. */
  function Forged(step: Step): nat {
    if step.FinishingIntake? then Progress(step.outcome.events) else 0
  }

  lemma IntakeLevel(s: State, item: ItemId, worker: string, outcome: IntakeOutcome, eventId: string, at: string)
    requires Tidy(s) && CanFinishIntake(s, item, worker, outcome, eventId)
    ensures var s' := AfterIntake(s, item, outcome, eventId, at);
            && Tidy(s') && Gap(s') == Gap(s) + Progress(outcome.events)
  {
    var (s', analysis) := (AfterIntake(s, item, outcome, eventId, at), AnalysisEvent(eventId, item, outcome));
    AnalysisMeans(eventId, item, outcome);
    ProgressOne(analysis);
    ProgressConcat(outcome.events, [analysis]);
    ProgressConcat(s.events, outcome.events + [analysis]);
    if outcome.AutoResolved? {
      RetireLevel(s, Key(INTAKE, item), s');
    } else {
      MoveLevel(s, item, INTAKE, HUMAN, at, s');
    }
  }

  lemma AckLevel(s: State, item: ItemId, eventId: string, at: string)
    requires Tidy(s) && CanAck(s, item, eventId)
    ensures var s' := AfterAck(s, item, eventId, at);
            Tidy(s') && Gap(s') == Gap(s)
  {
    AckMeans(eventId, item);
    ProgressOne(AckEvent(eventId, item));
    ProgressConcat(s.events, [AckEvent(eventId, item)]);
    MoveLevel(s, item, HUMAN, OUTTAKE, at, AfterAck(s, item, eventId, at));
  }

  lemma ReviewLevel(s: State, item: ItemId, worker: string, eventId: string, detail: map<string, Json>,
                    g: Option<Suggestion>, at: string)
    requires Tidy(s) && CanFinishReview(s, item, worker, ReviewEvent(eventId, item, detail), g)
    ensures var s' := AfterReview(s, item, ReviewEvent(eventId, item, detail), g, at);
            Tidy(s') && Gap(s') == Gap(s)
  {
    var review := ReviewEvent(eventId, item, detail);
    ReviewMeans(eventId, item, detail);
    ProgressOne(review);
    ProgressConcat(s.events, [review]);
    var retired := s.(events := s.events + [review], rows := s.rows - {Key(OUTTAKE, item)});
    RetireLevel(s, Key(OUTTAKE, item), retired);
    if g.Some? {
      var (e, k) := (SuggestionEvent(g.value), Key(HUMAN, g.value.id));
      CreationMeans(g.value.eventId, g.value.id, ReviewLlm, g.value.detail);
      ProgressOne(e);
      ProgressConcat(s.events + [review], [e]);
      assert s.events + ReviewEvents(review, g) == s.events + [review] + [e];
      assert k !in retired.rows;
      CreateLevel(retired, g.value.id, g.value.item, k, FreshRow(0, at), AfterReview(s, item, review, g, at));
    }
  }

  lemma CreationGap(s: State, step: Step, s': State)
    requires Tidy(s) && Next(s, step, s') && (step.Creating? || step.Persisting?)
    ensures Tidy(s') && Gap(s') == Gap(s)
  {
    match step
    case Creating(id, item, eventId, detail, at) =>
      CreationProgress(eventId, id, System, detail);
      if s' != s { CreatingLevel(s, id, item, [CreationEvent(eventId, id, System, detail)], at); }
    case Persisting(topic, id, item, eventId, auditId, detail, at) =>
      PersistProgress(topic, id, eventId, auditId, detail);
      if s' != s { CreatingLevel(s, id, item, PersistEvents(topic, id, eventId, auditId, detail), at); }
  }

  lemma QuietGap(s: State, step: Step, s': State)
    requires Tidy(s) && Next(s, step, s')
    requires step.Claiming? || step.Unclaiming? || step.Invoking? || step.SettingData?
    ensures Tidy(s') && Gap(s') == Gap(s)
  {
    match step
    case Claiming(_, _, _, _, _) => SameKeysSameLevel(s, s');
    case Unclaiming(_, _, _) => SameKeysSameLevel(s, s');
    case Invoking(item, activity, params, eventId) =>
      InvokedMeansNothing(eventId, item, activity, params);
      if s' != s { InertLevel(s, InvokedEvent(eventId, item, activity, params), s'); }
    case SettingData(topic, key, value, eventId, _) =>
      if s' != s { InertLevel(s, TopicData.DataEvent(eventId, topic, key, value), s'); }
  }

  /** Each transaction takes log and tables equally far, but for the lifecycle events that topics
      slipped into an intake finalize: those open the gap. */
  lemma NextGap(s: State, step: Step, s': State)
    requires Tidy(s) && Next(s, step, s')
    ensures Tidy(s') && Gap(s') == Gap(s) + (if s'.events != s.events then Forged(step) else 0)
  {
    match step
    case FinishingIntake(item, worker, outcome, eventId, at) =>
      if s' != s { IntakeLevel(s, item, worker, outcome, eventId, at); }
    case Acking(item, eventId, at) => if s' != s { AckLevel(s, item, eventId, at); }
    case FinishingReview(item, worker, eventId, detail, g, at) =>
      if s' != s { ReviewLevel(s, item, worker, eventId, detail, g, at); }
    case Creating(_, _, _, _, _) => CreationGap(s, step, s');
    case Persisting(_, _, _, _, _, _, _) => CreationGap(s, step, s');
    case _ => QuietGap(s, step, s');
  }

  /** No finalize committed so far put a lifecycle event of a topic's into the log. */
  ghost predicate HonestSoFar(states: seq<State>, steps: seq<Step>, n: nat)
    requires n <= |steps| && |states| == |steps| + 1
  {
    forall i :: 0 <= i < n && states[i + 1].events != states[i].events ==> TopicsHonest(steps[i])
  }

  lemma HonestStep(states: seq<State>, steps: seq<Step>, m: nat)
    requires m < |steps| && |states| == |steps| + 1
    ensures HonestSoFar(states, steps, m + 1) <==>
            HonestSoFar(states, steps, m) && (states[m + 1].events == states[m].events || TopicsHonest(steps[m]))
  {
  }

  lemma StepGap(s: State, step: Step, s': State)
    requires Tidy(s) && Next(s, step, s')
    ensures Tidy(s') && Gap(s') >= Gap(s)
    ensures Gap(s') == Gap(s) <==> s'.events == s.events || TopicsHonest(step)
    ensures Agrees(s) && (s'.events == s.events || TopicsHonest(step)) ==> Agrees(s')
  {
    NextGap(s, step, s');
    if step.FinishingIntake? { NoProgressExactly(step.outcome.events); }
    if Agrees(s) && TopicsHonest(step) { NextAgrees(s, step, s'); }
    if Agrees(s) && s'.events == s.events && !TopicsHonest(step) { assert s' == s; }
  }

  lemma EmptyHasNoGap()
    ensures Tidy(EMPTY) && Gap(EMPTY) == 0 && Agrees(EMPTY)
  {
    assert InQueue(map[], INTAKE) == InQueue(map[], HUMAN) == InQueue(map[], OUTTAKE) == {};
    assert QueueKeys(map[]) == {};
  }

  lemma {:induction false} GapIsForgery(states: seq<State>, steps: seq<Step>, n: nat)
    requires AnyRun(states, steps) && n <= |steps|
    ensures Tidy(states[n]) && Gap(states[n]) >= 0
    ensures Gap(states[n]) == 0 <==> HonestSoFar(states, steps, n)
    ensures HonestSoFar(states, steps, n) ==> Agrees(states[n])
  {
    if n == 0 {
      EmptyHasNoGap();
    } else {
      GapIsForgery(states, steps, n - 1);
      StepGap(states[n - 1], steps[n - 1], states[n]);
      HonestStep(states, steps, n - 1);
    }
  }

  /** In every run, whatever the topics answer, folding the log gives the item rows and each item's
      queue exactly when no committed finalize carried a lifecycle event.  Once one has, log and
      tables never agree again. */
  lemma RunAgreesExactly(states: seq<State>, steps: seq<Step>, n: nat)
    requires AnyRun(states, steps) && n <= |steps|
    ensures Agrees(states[n]) <==> HonestSoFar(states, steps, n)
  {
    GapIsForgery(states, steps, n);
    if Agrees(states[n]) { AgreementIsLevel(states[n]); }
  }
}
