/** The example topic as it is deployed: its lines are those of the topic loop, its settings go
    through the server's sink into the tables, and a new subprocess is hydrated from them.
    Every step of it is a step of `Counter`, so restart safety holds of the whole chain. */
module CounterTopic {
  import opened Common
  import opened Storage
  import opened Events
  import opened TopicProto
  import opened TopicSdk
  import opened TopicData
  import Counter

  const ID := "example"
  const COUNTER_KEY := "counter"

  datatype Process = Process(counter: int, phase: Counter.Phase, request: Request)

  /** `lines` are the topic's output that the host has not read, `writing` a setting whose event is
      appended and whose table write is not done, `answers` the responses the host received. */
  datatype Deployment = Deployment(
    db: State,
    writing: Option<Setting>,
    connected: bool,
    topic: Option<Process>,
    lines: seq<Line>,
    answers: seq<Response>)

  datatype Step =
    | Spawn(init: Request)
    | StartIngest(request: Request)
    | SendSetting
    | FinishIngest
    | Execute(request: Request, value: int, event: Json)
    | Refuse(request: Request, handling: Handling)
    | TopicDies(kept: nat)
    | ReadSetting(eventId: string)
    | WriteTable
    | ReadResponse
    | HostDies
    | Elsewhere(db: State)

  // ── what travels ─────────────────────────────────────────────────────

  function CounterSetting(n: int): Setting {
    Setting(COUNTER_KEY, JInt(n))
  }

  /** The ingest payload, but for its texts: one item whose metadata has the counter. */
  function TickPayload(n: int): Json {
    JObject(map["items" := JList([JObject(map["metadata" := JObject(map[COUNTER_KEY := JInt(n)])])])])
  }

  function IngestHandling(n: int): Handling {
    Handling(false, [CounterSetting(n)], Ok(TickPayload(n)), "")
  }

  function ExecuteHandling(n: int, event: Json): Handling {
    Handling(false, [CounterSetting(n)], Ok(JObject(map["event" := event])), "")
  }

  /** The tick in a payload, if it is one. */
  function TickIn(payload: Json): Option<int> {
    match payload.Get("items")
    case Some(JList(items)) =>
      if |items| == 1 then
        match items[0].Get("metadata")
        case Some(metadata) =>
          (match metadata.Get(COUNTER_KEY)
           case Some(JInt(n)) => Some(n)
           case _ => None)
        case None => None
      else None
    case _ => None
  }

  function TickOf(r: Response): Option<int> {
    if r.Success? then TickIn(r.result) else None
  }

  /** The counter in the tables, which is what `init` resumes from. */
  function StoredOf(db: State): Option<int> {
    match ValueAt(db.topicData, DataKey(ID, COUNTER_KEY))
    case Some(JInt(n)) => Some(n)
    case _ => None
  }

  function StartOf(db: State): int {
    if StoredOf(db).Some? then StoredOf(db).value else 0
  }

  /** Hydration: the snapshot is read from the tables and `init` looks its key up. */
  method Hydrate(db: Database) returns (counter: int)
    ensures counter == StartOf(db.Contents())
  {
    var data := GetAll(db, ID);
    counter := 0;
    if COUNTER_KEY in data && data[COUNTER_KEY].JInt? {
      counter := data[COUNTER_KEY].n;
    }
  }

  // ── the deployment's steps ───────────────────────────────────────────

  predicate InPhase(d: Deployment, phase: Counter.Phase) {
    d.topic.Some? && d.topic.value.phase == phase
  }

  predicate Reads(d: Deployment) {
    d.connected && d.writing.None? && d.lines != []
  }

  predicate Enabled(d: Deployment, step: Step) {
    match step
    case Spawn(init) => !d.connected && init.verb == INIT
    case StartIngest(request) => InPhase(d, Counter.Idle) && request.verb == INGEST
    case SendSetting => InPhase(d, Counter.Counted)
    case FinishIngest => InPhase(d, Counter.Told)
    case Execute(request, _, _) => InPhase(d, Counter.Idle) && request.verb == EXECUTE
    case Refuse(request, h) =>
      InPhase(d, Counter.Idle) && request.verb != SHUTDOWN && Effects(request, h) == [] && (h.badParams || h.answer.Err?)
    case TopicDies(kept) => d.topic.Some? && kept <= |d.lines|
    case ReadSetting(eventId) => Reads(d) && d.lines[0].Notify? && !Recorded(d.db.events, eventId)
    case WriteTable => d.writing.Some?
    case ReadResponse => Reads(d) && d.lines[0].Reply?
    case HostDies => d.connected
    case Elsewhere(db) => ValueAt(db.topicData, DataKey(ID, COUNTER_KEY)) == ValueAt(d.db.topicData, DataKey(ID, COUNTER_KEY))
  }

  function After(d: Deployment, step: Step): Deployment
    requires Enabled(d, step)
  {
    match step
    case Spawn(init) => d.(connected := true, topic := Some(Process(StartOf(d.db), Counter.Idle, init)))
    case StartIngest(request) => d.(topic := Some(Process(d.topic.value.counter + 1, Counter.Counted, request)))
    case SendSetting =>
      d.(topic := Some(d.topic.value.(phase := Counter.Told)), lines := d.lines + [Notify(CounterSetting(d.topic.value.counter))])
    case FinishIngest =>
      var topic := d.topic.value;
      d.(topic := Some(topic.(phase := Counter.Idle)),
         lines := d.lines + [Reply(Respond(topic.request, IngestHandling(topic.counter)))])
    case Execute(request, value, event) =>
      d.(topic := Some(Process(value, Counter.Idle, request)), lines := d.lines + Turn(request, ExecuteHandling(value, event)))
    case Refuse(request, h) => d.(lines := d.lines + [Reply(Respond(request, h))])
    case TopicDies(kept) => d.(topic := None, lines := d.lines[..kept])
    case ReadSetting(eventId) =>
      var setting := d.lines[0].setting;
      d.(db := AfterSetData(d.db, eventId, ID, setting.key, setting.value, false), writing := Some(setting), lines := d.lines[1..])
    case WriteTable =>
      var setting := d.writing.value;
      d.(db := d.db.(topicData := d.db.topicData[DataKey(ID, setting.key) := setting.value]), writing := None)
    case ReadResponse => d.(answers := d.answers + [d.lines[0].response], lines := d.lines[1..])
    case HostDies => d.(writing := None, connected := false, topic := None, lines := [])
    case Elsewhere(db) => d.(db := db)
  }

  predicate Next(d: Deployment, step: Step, d': Deployment) {
    Enabled(d, step) && d' == After(d, step)
  }

  // ── each step is one of the counter's ────────────────────────────────

  function MessageOf(line: Line): seq<Counter.Message> {
    match line
    case Notify(setting) =>
      if setting.key == COUNTER_KEY && setting.value.JInt? then [Counter.Set(setting.value.n)] else []
    case Reply(r) => if TickOf(r).Some? then [Counter.Tick(TickOf(r).value)] else []
    case Garbage => []
  }

  function Messages(lines: seq<Line>): seq<Counter.Message> {
    if lines == [] then [] else MessageOf(lines[0]) + Messages(lines[1..])
  }

  function TicksOf(answers: seq<Response>): seq<int> {
    if answers == [] then []
    else
      var tick := TickOf(answers[|answers| - 1]);
      TicksOf(answers[..|answers| - 1]) + (if tick.Some? then [tick.value] else [])
  }

  function Abstract(d: Deployment): Counter.System {
    Counter.System(
      StoredOf(d.db),
      if d.writing.Some? && d.writing.value.value.JInt? then Some(d.writing.value.value.n) else None,
      d.connected,
      if d.topic.Some? then Some(Counter.Subprocess(d.topic.value.counter, d.topic.value.phase)) else None,
      Messages(d.lines),
      TicksOf(d.answers))
  }

  predicate CounterOnly(setting: Setting) {
    setting.key == COUNTER_KEY && setting.value.JInt?
  }

  /** Only counter settings are sent, and an open ingest stays one. */
  predicate Clean(d: Deployment) {
    && (forall i :: 0 <= i < |d.lines| && d.lines[i].Notify? ==> CounterOnly(d.lines[i].setting))
    && (d.writing.Some? ==> CounterOnly(d.writing.value))
    && (d.topic.Some? && d.topic.value.phase != Counter.Idle ==> d.topic.value.request.verb == INGEST)
  }

  lemma TailOfConcat(a: seq<Line>, b: seq<Line>)
    requires a != []
    ensures (a + b)[0] == a[0] && (a + b)[1..] == a[1..] + b
  {
  }

  lemma Associates(a: seq<Counter.Message>, b: seq<Counter.Message>, c: seq<Counter.Message>)
    ensures (a + b) + c == a + (b + c)
  {
  }

  lemma {:induction false} MessagesConcat(a: seq<Line>, b: seq<Line>)
    ensures Messages(a + b) == Messages(a) + Messages(b)
  {
    if a == [] {
      assert a + b == b;
    } else {
      MessagesConcat(a[1..], b);
      TailOfConcat(a, b);
      Associates(MessageOf(a[0]), Messages(a[1..]), Messages(b));
    }
  }

  lemma OneMessage(line: Line)
    ensures Messages([line]) == MessageOf(line)
  {
    assert [line][1..] == [];
  }

  lemma {:induction false} MessagesPrefix(lines: seq<Line>, kept: nat)
    requires kept <= |lines|
    ensures |Messages(lines[..kept])| <= |Messages(lines)|
    ensures Messages(lines[..kept]) == Messages(lines)[..|Messages(lines[..kept])|]
  {
    MessagesConcat(lines[..kept], lines[kept..]);
    assert lines[..kept] + lines[kept..] == lines;
  }

  lemma TickPayloadIsTick(n: int)
    ensures TickIn(TickPayload(n)) == Some(n)
  {
    var payload := TickPayload(n);
    var metadata := JObject(map[COUNTER_KEY := JInt(n)]);
    assert metadata.Get(COUNTER_KEY) == Some(JInt(n));
    assert JObject(map["metadata" := metadata]).Get("metadata") == Some(metadata);
    assert payload.Get("items") == Some(JList([JObject(map["metadata" := metadata])]));
  }

  lemma ExecuteIsNoTick(event: Json)
    ensures TickIn(JObject(map["event" := event])) == None
  {
    assert JObject(map["event" := event]).Get("items") == None;
  }

  /** The counter's own name for a step; the steps not listed change nothing there. */
  function CounterStep(d: Deployment, step: Step): Option<Counter.Step>
    requires Enabled(d, step)
  {
    match step
    case Spawn(_) => Some(Counter.Spawn)
    case StartIngest(_) => Some(Counter.Raise)
    case SendSetting => Some(Counter.Persist)
    case FinishIngest => Some(Counter.Answer)
    case Execute(_, value, _) => Some(Counter.Adjust(value))
    case TopicDies(kept) => Some(Counter.TopicDies(|Messages(d.lines[..kept])|))
    case ReadSetting(_) => Some(Counter.AppendSetting)
    case WriteTable => Some(Counter.UpsertSetting)
    case ReadResponse => if TickOf(d.lines[0].response).Some? then Some(Counter.TakeTick) else None
    case HostDies => Some(Counter.HostDies)
    case _ => None
  }

  /** The step is the counter's, or no step at all there. */
  predicate Refines(d: Deployment, step: Step, d': Deployment)
    requires Enabled(d, step)
  {
    match CounterStep(d, step)
    case Some(c) => Counter.Next(Abstract(d), c, Abstract(d'))
    case None => Abstract(d') == Abstract(d)
  }

  lemma SendRefines(d: Deployment, d': Deployment)
    requires Clean(d) && Next(d, SendSetting, d')
    ensures Clean(d') && Refines(d, SendSetting, d')
  {
    var line := Notify(CounterSetting(d.topic.value.counter));
    MessagesConcat(d.lines, [line]);
    OneMessage(line);
  }

  lemma IngestMessage(request: Request, n: int)
    requires request.verb == INGEST
    ensures Messages([Reply(Respond(request, IngestHandling(n)))]) == [Counter.Tick(n)]
  {
    TickPayloadIsTick(n);
    OneMessage(Reply(Respond(request, IngestHandling(n))));
  }

  lemma FinishRefines(d: Deployment, d': Deployment)
    requires Clean(d) && Next(d, FinishIngest, d')
    ensures Clean(d') && Refines(d, FinishIngest, d')
  {
    var topic := d.topic.value;
    IngestMessage(topic.request, topic.counter);
    MessagesConcat(d.lines, [Reply(Respond(topic.request, IngestHandling(topic.counter)))]);
  }

  lemma ExecuteMessages(request: Request, value: int, event: Json)
    requires request.verb == EXECUTE
    ensures Messages(Turn(request, ExecuteHandling(value, event))) == [Counter.Set(value)]
    ensures forall line :: line in Turn(request, ExecuteHandling(value, event)) && line.Notify? ==> CounterOnly(line.setting)
  {
    var setting, reply := Notify(CounterSetting(value)), Reply(Respond(request, ExecuteHandling(value, event)));
    ExecuteIsNoTick(event);
    assert Turn(request, ExecuteHandling(value, event)) == [setting] + [reply];
    MessagesConcat([setting], [reply]);
    OneMessage(setting);
    OneMessage(reply);
  }

  lemma ExecuteRefines(d: Deployment, request: Request, value: int, event: Json, d': Deployment)
    requires Clean(d) && Next(d, Execute(request, value, event), d')
    ensures Clean(d') && Refines(d, Execute(request, value, event), d')
  {
    var turn := Turn(request, ExecuteHandling(value, event));
    ExecuteMessages(request, value, event);
    MessagesConcat(d.lines, turn);
    forall i | 0 <= i < |d'.lines| && d'.lines[i].Notify? ensures CounterOnly(d'.lines[i].setting) {
      if i >= |d.lines| { assert d'.lines[i] == turn[i - |d.lines|]; }
    }
  }

  lemma RefuseMessages(request: Request, h: Handling)
    requires request.verb != SHUTDOWN && (h.badParams || h.answer.Err?)
    ensures Messages([Reply(Respond(request, h))]) == []
  {
    OneMessage(Reply(Respond(request, h)));
  }

  lemma RefuseRefines(d: Deployment, request: Request, h: Handling, d': Deployment)
    requires Clean(d) && Next(d, Refuse(request, h), d')
    ensures Clean(d') && Refines(d, Refuse(request, h), d')
  {
    RefuseMessages(request, h);
    MessagesConcat(d.lines, [Reply(Respond(request, h))]);
  }

  lemma TableHas(db: State, n: int)
    ensures StoredOf(db.(topicData := db.topicData[DataKey(ID, COUNTER_KEY) := JInt(n)])) == Some(n)
  {
  }

  lemma TicksOfAppend(answers: seq<Response>, r: Response)
    ensures TicksOf(answers + [r]) == TicksOf(answers) + (if TickOf(r).Some? then [TickOf(r).value] else [])
  {
    assert (answers + [r])[..|answers|] == answers;
  }

  lemma ReadRefines(d: Deployment, step: Step, d': Deployment)
    requires Clean(d) && Next(d, step, d') && (step.ReadSetting? || step.ReadResponse?)
    ensures Clean(d') && Refines(d, step, d')
  {
    assert Messages(d.lines) == MessageOf(d.lines[0]) + Messages(d.lines[1..]);
    if step.ReadResponse? { TicksOfAppend(d.answers, d.lines[0].response); }
  }

  lemma DeathRefines(d: Deployment, kept: nat, d': Deployment)
    requires Clean(d) && Next(d, TopicDies(kept), d')
    ensures Clean(d') && Refines(d, TopicDies(kept), d')
  {
    MessagesPrefix(d.lines, kept);
  }

  lemma WriteRefines(d: Deployment, d': Deployment)
    requires Clean(d) && Next(d, WriteTable, d')
    ensures Clean(d') && Refines(d, WriteTable, d')
  {
    TableHas(d.db, d.writing.value.value.n);
  }

  /** Every step of the deployment is one of the counter's or changes nothing there. */
  lemma StepRefines(d: Deployment, step: Step, d': Deployment)
    requires Clean(d) && Next(d, step, d')
    ensures Clean(d') && Refines(d, step, d')
  {
    match step
    case SendSetting => SendRefines(d, d');
    case FinishIngest => FinishRefines(d, d');
    case Execute(request, value, event) => ExecuteRefines(d, request, value, event, d');
    case Refuse(request, h) => RefuseRefines(d, request, h, d');
    case ReadSetting(_) => ReadRefines(d, step, d');
    case ReadResponse => ReadRefines(d, step, d');
    case TopicDies(kept) => DeathRefines(d, kept, d');
    case WriteTable => WriteRefines(d, d');
    case _ =>
  }

  /** One ingest is one turn of the topic's loop. */
  lemma IngestIsATurn(d: Deployment, request: Request)
    requires InPhase(d, Counter.Idle) && request.verb == INGEST
    ensures After(After(After(d, StartIngest(request)), SendSetting), FinishIngest).lines
         == d.lines + Turn(request, IngestHandling(d.topic.value.counter + 1))
  {
    var n := d.topic.value.counter + 1;
    var told := After(After(d, StartIngest(request)), SendSetting);
    assert told.lines == d.lines + [Notify(CounterSetting(n))];
    assert Turn(request, IngestHandling(n)) == [Notify(CounterSetting(n))] + [Reply(Respond(request, IngestHandling(n)))];
  }

  /** One execute writes the counter's new value and then the event it answers with. */
  lemma ExecuteWrites(d: Deployment, request: Request, value: int, event: Json)
    requires Enabled(d, Execute(request, value, event))
    ensures After(d, Execute(request, value, event)).lines
         == d.lines + [Notify(CounterSetting(value)), Reply(Success(request.id, JObject(map["event" := event])))]
  {
    var handling := ExecuteHandling(value, event);
    assert Turn(request, handling) == [Notify(CounterSetting(value)), Reply(Respond(request, handling))];
  }

  /** Reading a setting and then writing the table is one `set_data` with both its writes. */
  lemma ReadingIsSetData(d: Deployment, eventId: string)
    requires Enabled(d, ReadSetting(eventId))
    ensures var setting := d.lines[0].setting;
            After(After(d, ReadSetting(eventId)), WriteTable).db
            == AfterSetData(d.db, eventId, ID, setting.key, setting.value, true)
  {
  }

  // ── restart safety, end to end ───────────────────────────────────────

  /** No activity leaves the counter below the last tick answered. */
  predicate NeverBelow(d: Deployment, step: Step) {
    step.Execute? ==> Counter.NeverBelow(Abstract(d), Counter.Adjust(step.value))
  }

  ghost predicate Run(ds: seq<Deployment>, steps: seq<Step>) {
    |ds| == |steps| + 1 && ds[0] == Deployment(ds[0].db, None, false, None, [], [])
    && forall n :: 0 <= n < |steps| ==> Next(ds[n], steps[n], ds[n + 1]) && NeverBelow(ds[n], steps[n])
  }

  lemma StepKeepsSafe(d: Deployment, step: Step, d': Deployment)
    requires Clean(d) && Counter.Safe(Abstract(d)) && Next(d, step, d') && NeverBelow(d, step)
    ensures Clean(d') && Counter.Safe(Abstract(d'))
  {
    StepRefines(d, step, d');
    var c := CounterStep(d, step);
    if c.Some? { Counter.NextKeepsSafe(Abstract(d), c.value, Abstract(d')); }
  }

  lemma {:induction false} RunIsSafe(ds: seq<Deployment>, steps: seq<Step>, n: nat)
    requires Run(ds, steps) && n <= |steps|
    ensures Clean(ds[n]) && Counter.Safe(Abstract(ds[n]))
  {
    if n == 0 {
      assert Counter.Last([]) == None;
    } else {
      RunIsSafe(ds, steps, n - 1);
      StepKeepsSafe(ds[n - 1], steps[n - 1], ds[n]);
    }
  }

  /** From any tables, over any crashes of topic or server at any point, with anything else going on
      in the tables: the ticks in the responses the host receives strictly increase, and the counter
      the next subprocess will resume from is at least each of them. */
  lemma TicksStrictlyIncrease(ds: seq<Deployment>, steps: seq<Step>, n: nat)
    requires Run(ds, steps) && n <= |steps|
    ensures Counter.Increasing(TicksOf(ds[n].answers))
    ensures forall tick :: tick in TicksOf(ds[n].answers) ==> tick <= StartOf(ds[n].db)
  {
    RunIsSafe(ds, steps, n);
    Counter.SafeTicks(Abstract(ds[n]));
  }
}
