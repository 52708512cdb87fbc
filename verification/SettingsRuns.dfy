/** Topic settings over whole runs of the server: when the table is what the log replays to. */
module SettingsRuns {
  import opened Common
  import opened Storage
  import opened Events
  import opened IntakeLoop
  import opened LoopWorld
  import opened Transactions
  import opened TopicData
  import opened Pipeline

  // ── what one transaction writes ──────────────────────────────────────

  /** The events a step appends when it commits. */
  function Appended(step: Step): seq<Event> {
    match step
    case Creating(id, _, eventId, detail, _) => [CreationEvent(eventId, id, System, detail)]
    case Persisting(topic, id, _, eventId, auditId, detail, _) => PersistEvents(topic, id, eventId, auditId, detail)
    case Claiming(_, _, _, _, _) => []
    case Unclaiming(_, _, _) => []
    case FinishingIntake(item, _, outcome, eventId, _) => outcome.events + [AnalysisEvent(eventId, item, outcome)]
    case Acking(item, eventId, _) => [AckEvent(eventId, item)]
    case FinishingReview(item, _, eventId, detail, g, _) => ReviewEvents(ReviewEvent(eventId, item, detail), g)
    case Invoking(item, activity, params, eventId) => [InvokedEvent(eventId, item, activity, params)]
    case SettingData(topic, key, value, eventId, _) => [DataEvent(eventId, topic, key, value)]
  }

  /** What the events of a step write last to `k`: a setting does, and so may the events that
      topics answered activities with. */
  function Written(step: Step, k: DataKey): Option<Json> {
    match step
    case SettingData(topic, key, value, _, _) => if DataKey(topic, key) == k then Some(value) else None
    case FinishingIntake(_, _, outcome, _, _) => LastWrite(outcome.events, k)
    case _ => None
  }

  lemma NoWrite(e: Event, k: DataKey)
    requires e.kind != TopicDataUpdated
    ensures LastWrite([e], k) == None
  {
    assert [e][..0] == [];
  }

  lemma ReviewWritesNothing(review: Event, g: Option<Suggestion>, k: DataKey)
    requires review.kind == ReviewLlmAnalysis
    ensures LastWrite(ReviewEvents(review, g), k) == None
  {
    NoWrite(review, k);
    if g.Some? {
      LastWriteConcat([review], [SuggestionEvent(g.value)], k);
      NoWrite(SuggestionEvent(g.value), k);
    } else {
      assert ReviewEvents(review, g) == [review];
    }
  }

  lemma WrittenByEvents(step: Step, k: DataKey)
    ensures LastWrite(Appended(step), k) == Written(step, k)
  {
    match step
    case Creating(id, _, eventId, detail, _) => NoWrite(CreationEvent(eventId, id, System, detail), k);
    case Persisting(topic, id, _, eventId, auditId, detail, _) =>
      var creation, audit := CreationEvent(eventId, id, Topic(topic), detail), EnqueuedEvent(auditId, id);
      LastWriteConcat([creation], [audit], k);
      NoWrite(creation, k);
      NoWrite(audit, k);
    case Claiming(_, _, _, _, _) =>
    case Unclaiming(_, _, _) =>
    case FinishingIntake(item, _, outcome, eventId, _) =>
      LastWriteConcat(outcome.events, [AnalysisEvent(eventId, item, outcome)], k);
      NoWrite(AnalysisEvent(eventId, item, outcome), k);
    case Acking(item, eventId, _) => NoWrite(AckEvent(eventId, item), k);
    case FinishingReview(item, _, eventId, detail, g, _) => ReviewWritesNothing(ReviewEvent(eventId, item, detail), g, k);
    case Invoking(item, activity, params, eventId) => NoWrite(InvokedEvent(eventId, item, activity, params), k);
    case SettingData(topic, key, value, eventId, _) => DataEventWrites(eventId, topic, key, value, k);
  }

  /** A step commits all its events or leaves the log alone, and only a setting touches the table. */
  lemma NextAppends(s: State, step: Step, s': State)
    requires Next(s, step, s')
    ensures s'.events == s.events || s'.events == s.events + Appended(step)
    ensures s'.events == s.events ==> s'.topicData == s.topicData
    ensures s'.topicData == if s'.events != s.events && step.SettingData? && step.projected
                            then s.topicData[DataKey(step.topic, step.key) := step.value] else s.topicData
  {
  }

  // ── the exact condition ──────────────────────────────────────────────

  /** Step `i` committed a write to `k`. */
  predicate Writes(states: seq<State>, steps: seq<Step>, i: nat, k: DataKey)
    requires i < |steps| && |states| == |steps| + 1
  {
    states[i + 1].events != states[i].events && Written(steps[i], k).Some?
  }

  /** The write ends up in the table: it is a setting whose table write succeeds, or the table
      has the value already. */
  predicate Kept(s: State, step: Step, k: DataKey) {
    (step.SettingData? && step.projected) || ValueAt(s.topicData, k) == Written(step, k)
  }

  lemma NextAgreesExactly(s: State, step: Step, s': State, k: DataKey)
    requires Next(s, step, s')
    ensures s'.events != s.events && Written(step, k).Some? ==> (AgreesAt(s', k) <==> Kept(s, step, k))
    ensures s'.events == s.events || Written(step, k).None? ==> (AgreesAt(s', k) <==> AgreesAt(s, k))
  {
    NextAppends(s, step, s');
    if s'.events != s.events {
      WrittenByEvents(step, k);
      AppendAgreesExactly(s, Appended(step), s', k);
    }
  }

  ghost predicate LastWriter(states: seq<State>, steps: seq<Step>, n: nat, i: nat, k: DataKey)
    requires n <= |steps| && |states| == |steps| + 1
  {
    i < n && Writes(states, steps, i, k) && forall j: nat :: i < j < n ==> !Writes(states, steps, j, k)
  }

  ghost predicate LastKept(states: seq<State>, steps: seq<Step>, n: nat, k: DataKey)
    requires n <= |steps| && |states| == |steps| + 1
  {
    forall i: nat :: LastWriter(states, steps, n, i, k) ==> Kept(states[i], steps[i], k)
  }

  lemma LastWriterStep(states: seq<State>, steps: seq<Step>, m: nat, k: DataKey)
    requires m < |steps| && |states| == |steps| + 1
    ensures Writes(states, steps, m, k) ==> (LastKept(states, steps, m + 1, k) <==> Kept(states[m], steps[m], k))
    ensures !Writes(states, steps, m, k) ==> (LastKept(states, steps, m + 1, k) <==> LastKept(states, steps, m, k))
  {
    var n := m + 1;
    if Writes(states, steps, m, k) {
      assert LastWriter(states, steps, n, m, k);
      assert forall i: nat :: LastWriter(states, steps, n, i, k) ==> i == m;
    } else {
      assert forall i: nat :: LastWriter(states, steps, n, i, k) <==> LastWriter(states, steps, m, i, k);
    }
  }

  lemma StepAgreesExactly(states: seq<State>, steps: seq<Step>, m: nat, k: DataKey)
    requires AnyRun(states, steps) && m < |steps|
    ensures AgreesAt(states[m + 1], k) <==>
              if Writes(states, steps, m, k) then Kept(states[m], steps[m], k) else AgreesAt(states[m], k)
  {
    NextAgreesExactly(states[m], steps[m], states[m + 1], k);
  }

  /** In every run the table agrees with the log at a key exactly when the last committed write to
      that key was kept; it does at a key never written to. */
  lemma {:induction false} SettingsAgreeExactly(states: seq<State>, steps: seq<Step>, n: nat, k: DataKey)
    requires AnyRun(states, steps) && n <= |steps|
    ensures AgreesAt(states[n], k) <==> LastKept(states, steps, n, k)
  {
    if n == 0 {
      assert ReplayData([]) == map[];
    } else {
      SettingsAgreeExactly(states, steps, n - 1, k);
      StepAgreesExactly(states, steps, n - 1, k);
      LastWriterStep(states, steps, n - 1, k);
    }
  }

  lemma SameEverywhere(s: State)
    ensures s.topicData == ReplayData(s.events) <==> forall k :: AgreesAt(s, k)
  {
    var (table, replayed) := (s.topicData, ReplayData(s.events));
    if forall k :: AgreesAt(s, k) {
      forall k ensures (k in table <==> k in replayed) && (k in table ==> table[k] == replayed[k]) {
        assert AgreesAt(s, k);
      }
      assert table == replayed;
    }
  }

  /** So the whole table is what the log replays to exactly when every key's last write was kept. */
  lemma TableIsReplayExactly(states: seq<State>, steps: seq<Step>, n: nat)
    requires AnyRun(states, steps) && n <= |steps|
    ensures states[n].topicData == ReplayData(states[n].events) <==> forall k :: LastKept(states, steps, n, k)
  {
    SameEverywhere(states[n]);
    forall k ensures AgreesAt(states[n], k) <==> LastKept(states, steps, n, k) {
      SettingsAgreeExactly(states, steps, n, k);
    }
  }

  lemma {:induction false} NothingWritten(es: seq<Event>, k: DataKey)
    requires forall e :: e in es ==> WriteOf(e).None?
    ensures LastWrite(es, k).None?
  {
    if es == [] {
    } else {
      NothingWritten(es[..|es| - 1], k);
    }
  }

  /** When every table write succeeds and no topic answers an activity with a setting event, the
      table is the replayed log in every state. */
  lemma TableIsReplay(states: seq<State>, steps: seq<Step>, n: nat)
    requires AnyRun(states, steps) && n <= |steps|
    requires forall i :: 0 <= i < n && steps[i].SettingData? ==> steps[i].projected
    requires forall i, e :: 0 <= i < n && steps[i].FinishingIntake? && e in steps[i].outcome.events ==> WriteOf(e).None?
    ensures states[n].topicData == ReplayData(states[n].events)
  {
    TableIsReplayExactly(states, steps, n);
    forall k ensures LastKept(states, steps, n, k) {
      forall i: nat | LastWriter(states, steps, n, i, k) ensures Kept(states[i], steps[i], k) {
        if steps[i].FinishingIntake? { NothingWritten(steps[i].outcome.events, k); }
      }
    }
  }

  lemma FirstSetting(key: string, value: Json, s': State)
    requires s' == AfterSetData(EMPTY, "e", "t", key, value, false)
    ensures Next(EMPTY, SettingData("t", key, value, "e", false), s')
    ensures !AgreesAt(s', DataKey("t", key))
  {
    assert !Recorded(EMPTY.events, "e");
    SetDataAgreesExactly(EMPTY, "e", "t", key, value, false);
  }

  lemma OneStepRun(step: Step, s': State)
    requires Next(EMPTY, step, s') && TopicsHonest(step)
    ensures Run([EMPTY, s'], [step])
  {
  }

  /** The failing run for the first way: one setting whose table write fails. */
  lemma FailedUpsertParts(states: seq<State>, steps: seq<Step>)
    requires states == [EMPTY, AfterSetData(EMPTY, "e", "t", "k", JNull, false)]
    requires steps == [SettingData("t", "k", JNull, "e", false)]
    ensures Run(states, steps) && !AgreesAt(states[1], DataKey("t", "k"))
  {
    FirstSetting("k", JNull, states[1]);
    OneStepRun(steps[0], states[1]);
  }

  // ── the table never gets ahead of the log ────────────────────────────

  /** Step `i` committed a setting of `k` and its table write succeeded. */
  predicate Projects(states: seq<State>, steps: seq<Step>, i: nat, k: DataKey)
    requires i < |steps| && |states| == |steps| + 1
  {
    Writes(states, steps, i, k) && steps[i].SettingData? && steps[i].projected
  }

  ghost predicate LastProjection(states: seq<State>, steps: seq<Step>, n: nat, i: nat, k: DataKey)
    requires n <= |steps| && |states| == |steps| + 1
  {
    i < n && Projects(states, steps, i, k) && forall j: nat :: i < j < n ==> !Projects(states, steps, j, k)
  }

  lemma ProjectionStep(states: seq<State>, steps: seq<Step>, m: nat, k: DataKey)
    requires AnyRun(states, steps) && m < |steps|
    ensures ValueAt(states[m + 1].topicData, k)
         == if Projects(states, steps, m, k) then Written(steps[m], k) else ValueAt(states[m].topicData, k)
  {
    NextAppends(states[m], steps[m], states[m + 1]);
  }

  /** In every run the table holds, for each key, the value of the last such setting, and nothing
      where there was none. */
  lemma {:induction false} TableIsLastProjected(states: seq<State>, steps: seq<Step>, n: nat, i: nat, k: DataKey)
    requires AnyRun(states, steps) && n <= |steps|
    ensures LastProjection(states, steps, n, i, k) ==> ValueAt(states[n].topicData, k) == Written(steps[i], k)
    ensures (forall j: nat :: j < n ==> !Projects(states, steps, j, k)) ==> k !in states[n].topicData
  {
    if n == 0 {
    } else {
      TableIsLastProjected(states, steps, n - 1, i, k);
      ProjectionStep(states, steps, n - 1, k);
    }
  }

  predicate SetBy(log: seq<Event>, w: Write) {
    exists i :: 0 <= i < |log| && WriteOf(log[i]) == Some(w)
  }

  /** Every setting in the table was logged. */
  ghost predicate Logged(s: State) {
    forall k :: k in s.topicData ==> SetBy(s.events, Write(k, s.topicData[k]))
  }

  lemma DataEventSets(log: seq<Event>, id: string, topic: string, key: string, value: Json)
    ensures SetBy(log + [DataEvent(id, topic, key, value)], Write(DataKey(topic, key), value))
  {
    var e := DataEvent(id, topic, key, value);
    assert e.payload.Get("topic_id") == Some(JStr(topic)) && e.payload.Get("key") == Some(JStr(key));
    assert (log + [e])[|log|] == e;
  }

  lemma SetByPrefix(log: seq<Event>, log': seq<Event>, w: Write)
    requires log <= log' && SetBy(log, w)
    ensures SetBy(log', w)
  {
    var i :| 0 <= i < |log| && WriteOf(log[i]) == Some(w);
    assert log'[i] == log[i];
  }

  lemma NextKeepsLogged(s: State, step: Step, s': State)
    requires Logged(s) && Next(s, step, s')
    ensures Logged(s')
  {
    NextOnlyAppends(s, step, s');
    NextAppends(s, step, s');
    forall k | k in s'.topicData ensures SetBy(s'.events, Write(k, s'.topicData[k])) {
      if k in s.topicData && s.topicData[k] == s'.topicData[k] {
        SetByPrefix(s.events, s'.events, Write(k, s.topicData[k]));
      } else {
        DataEventSets(s.events, step.eventId, step.topic, step.key, step.value);
      }
    }
  }

  /** The table never holds what the log does not: the event comes first, in every run. */
  lemma {:induction false} ProjectionIsLogged(states: seq<State>, steps: seq<Step>, n: nat)
    requires AnyRun(states, steps) && n <= |steps|
    ensures Logged(states[n])
  {
    if n == 0 {
    } else {
      ProjectionIsLogged(states, steps, n - 1);
      NextKeepsLogged(states[n - 1], steps[n - 1], states[n]);
    }
  }
}
