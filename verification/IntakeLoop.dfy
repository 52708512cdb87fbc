/** The bounded agentic loop of the intake worker, for every world. */
module IntakeLoop {
  import opened Common
  import opened Storage
  import opened LoopWorld

  const HALT_AUTO_RESOLVED := "auto_resolved"
  const HALT_DEFER_TO_HUMAN := "defer_to_human"

  // ── dispatch ─────────────────────────────────────────────────────────

  predicate IsReserved(name: string) {
    name == HALT_AUTO_RESOLVED || name == HALT_DEFER_TO_HUMAN
  }

  /** The part of `name` before its first dot. */
  function TopicPrefix(name: string): Option<string> {
    if name == "" then None
    else if name[0] == '.' then Some("")
    else
      match TopicPrefix(name[1..])
      case None => None
      case Some(rest) => Some([name[0]] + rest)
  }

  /** The prefix ends at the first dot, and only a name without one has none. */
  lemma {:induction false} TopicPrefixIs(name: string)
    ensures TopicPrefix(name).None? <==> '.' !in name
    ensures TopicPrefix(name).Some? ==>
              var prefix := TopicPrefix(name).value;
              '.' !in prefix && |prefix| < |name| && name[..|prefix|] == prefix && name[|prefix|] == '.'
  {
    if name != "" && name[0] != '.' { TopicPrefixIs(name[1..]); }
  }

  function StrOr(args: Json, field: string, default: string): string {
    match args.Get(field)
    case Some(JStr(s)) => s
    case _ => default
  }

  /** Does this call get as far as `Topic::execute`? */
  predicate ReachesTopic(w: World, call: ToolCall) {
    call.arguments.Some? && !IsReserved(call.name)
    && TopicPrefix(call.name).Some? && TopicPrefix(call.name).value in w.topics
  }

  function Dispatch(w: World, turn: nat, position: nat, call: ToolCall): DispatchResult {
    if call.arguments.None? then ToolError(BadArguments(call.name))
    else if call.name == HALT_AUTO_RESOLVED then
      Halt(HaltAutoResolved(StrOr(call.arguments.value, "summary", "")))
    else if call.name == HALT_DEFER_TO_HUMAN then
      Halt(HaltDeferred(StrOr(call.arguments.value, "reason", "(no reason given)")))
    else if TopicPrefix(call.name).None? then ToolError(UnknownTool(call.name))
    else if TopicPrefix(call.name).value !in w.topics then ToolError(NoTopic(call.name))
    else
      match w.execute(turn, position)
      case Ok(event) => ActivityResult(event)
      case Err(e) => ToolError(ActivityFailed(call.name, e))
  }

  /** A call yields an event exactly when it reaches a topic and the topic answers, and then it is the
      topic's event; it halts exactly when it is reserved with JSON arguments. */
  lemma DispatchExactly(w: World, turn: nat, position: nat, call: ToolCall)
    ensures var r := Dispatch(w, turn, position, call);
            && (r.ActivityResult? <==> ReachesTopic(w, call) && w.execute(turn, position).Ok?)
            && (r.ActivityResult? ==> r.event == w.execute(turn, position).value)
            && (r.Halt? <==> IsReserved(call.name) && call.arguments.Some?)
  {
  }

  function ResultContent(r: DispatchResult): Content {
    match r
    case Halt(_) => Halted
    case ActivityResult(event) => Succeeded(event.id, event.payload)
    case ToolError(fault) => Failed(fault)
  }

  const REJECTED := Failed(SeveralHalts)

  // ── what one turn is ─────────────────────────────────────────────────

  function CallsOf(reply: Reply): seq<ToolCall> {
    if reply.Choices? && reply.choices != [] && reply.choices[0].toolCalls.Some?
    then reply.choices[0].toolCalls.value else []
  }

  /** How many calls of the batch are reserved. */
  function HaltCount(calls: seq<ToolCall>): nat {
    if calls == [] then 0
    else HaltCount(calls[..|calls| - 1]) + (if IsReserved(calls[|calls| - 1].name) then 1 else 0)
  }

  /** `i` is the only halt call of the batch, and its arguments are JSON. */
  predicate OneHalt(calls: seq<ToolCall>, i: nat) {
    i < |calls| && HaltCount(calls) == 1 && IsReserved(calls[i].name) && calls[i].arguments.Some?
  }

  predicate HasOneHalt(calls: seq<ToolCall>) {
    exists i: nat | i < |calls| :: OneHalt(calls, i)
  }

  predicate Rejected(calls: seq<ToolCall>) {
    HaltCount(calls) > 1
  }

  /** The loop does not go on after this reply. */
  predicate Ends(reply: Reply) {
    reply.LlmFailed? || reply.choices == [] || CallsOf(reply) == [] || HasOneHalt(CallsOf(reply))
  }

  /** Events of the successful activities among the first `n` calls, in the order the model emitted them. */
  function EventsOf(w: World, turn: nat, calls: seq<ToolCall>, n: nat): seq<Event>
    requires n <= |calls|
  {
    if n == 0 then []
    else
      var last := Dispatch(w, turn, n - 1, calls[n - 1]);
      EventsOf(w, turn, calls, n - 1) + (if last.ActivityResult? then [last.event] else [])
  }

  function TurnEvents(w: World, turn: nat): seq<Event> {
    var calls := CallsOf(w.reply(turn));
    if Rejected(calls) then [] else EventsOf(w, turn, calls, |calls|)
  }

  /** One tool result for each of the first `n` calls. */
  function ResultsOf(w: World, turn: nat, calls: seq<ToolCall>, n: nat): (ms: seq<Message>)
    requires n <= |calls|
    ensures |ms| == n
  {
    if n == 0 then []
    else
      ResultsOf(w, turn, calls, n - 1)
      + [ToolResult(calls[n - 1].id,
                    if Rejected(calls) then REJECTED else ResultContent(Dispatch(w, turn, n - 1, calls[n - 1])))]
  }

  function ResultMessages(w: World, turn: nat): seq<Message> {
    var calls := CallsOf(w.reply(turn));
    ResultsOf(w, turn, calls, |calls|)
  }

  /** What a turn adds to the transcript: the assistant's message and one result per call. */
  function Exchange(w: World, turn: nat): seq<Message> {
    var reply := w.reply(turn);
    if reply.LlmFailed? || reply.choices == [] then []
    else [Assistant(reply.choices[0].content, CallsOf(reply))] + ResultMessages(w, turn)
  }

  // ── what the whole loop is ───────────────────────────────────────────

  function Prompt(w: World): seq<Message> {
    [SystemMessage(w.system), UserMessage(w.user)]
  }

  function Transcript(w: World, turns: nat): seq<Message> {
    if turns == 0 then Prompt(w) else Transcript(w, turns - 1) + Exchange(w, turns - 1)
  }

  function Audit(w: World, turns: nat): seq<Event> {
    if turns == 0 then [] else Audit(w, turns - 1) + TurnEvents(w, turns - 1)
  }

  /** The first turn that ends the loop, or the budget when none does. */
  function LastTurn(w: World, budget: nat): (t: nat)
    ensures t <= budget
    ensures t < budget ==> Ends(w.reply(t))
  {
    if budget == 0 then 0
    else
      var t := LastTurn(w, budget - 1);
      if t < budget - 1 || Ends(w.reply(t)) then t else budget
  }

  lemma {:induction false} HaltCountIs(calls: seq<ToolCall>)
    ensures HaltCount(calls) == 0 <==> forall i :: 0 <= i < |calls| ==> !IsHalt(calls[i].name)
    ensures HaltCount(calls) >= 2 <==> TwoHalts(calls)
  {
    if calls == [] {
    } else {
      var (init, n) := (calls[..|calls| - 1], |calls| - 1);
      HaltCountIs(init);
      if i, j :| 0 <= i < j < |init| && IsHalt(init[i].name) && IsHalt(init[j].name) {
        assert calls[i] == init[i] && calls[j] == init[j];
      }
      if i :| 0 <= i < |init| && IsHalt(init[i].name) { assert calls[i] == init[i]; }
      if i, j :| 0 <= i < j < |calls| && IsHalt(calls[i].name) && IsHalt(calls[j].name) {
        assert init[i] == calls[i];
        if j < n { assert init[j] == calls[j]; }
      }
    }
  }

  lemma RejectedExactly(calls: seq<ToolCall>)
    ensures Rejected(calls) <==> TwoHalts(calls)
  {
    HaltCountIs(calls);
  }

  lemma OneHaltExactly(calls: seq<ToolCall>, i: nat)
    ensures OneHalt(calls, i) <==> LoneHalt(calls, i)
  {
    HaltCountIs(calls);
  }

  lemma OneHaltIsUnique(calls: seq<ToolCall>)
    ensures forall i: nat, j: nat | i < |calls| && j < |calls| :: OneHalt(calls, i) && OneHalt(calls, j) ==> i == j
  {
    forall i: nat, j: nat | i < |calls| && j < |calls| && OneHalt(calls, i) && OneHalt(calls, j) ensures i == j {
      OneHaltExactly(calls, i);
      OneHaltExactly(calls, j);
    }
  }

  /** The halt of a batch that has exactly one. */
  function HaltOf(w: World, turn: nat, calls: seq<ToolCall>): HaltReason
    requires HasOneHalt(calls)
  {
    OneHaltIsUnique(calls);
    var i: nat :| i < |calls| && OneHalt(calls, i);
    Dispatch(w, turn, i, calls[i]).reason
  }

  function HaltOutcome(halt: HaltReason, transcript: seq<Message>, events: seq<Event>): IntakeOutcome {
    match halt
    case HaltAutoResolved(summary) => AutoResolved(summary, transcript, events)
    case HaltDeferred(reason) => DeferredToHuman(Given(reason), transcript, events)
  }

  /** The result of a loop whose turn `t` ends it. */
  function ConclusionAt(w: World, t: nat): Result<IntakeOutcome, LoopError>
    requires Ends(w.reply(t))
  {
    var calls := CallsOf(w.reply(t));
    if w.reply(t).LlmFailed? then Err(Llm)
    else if w.reply(t).choices == [] then Ok(DeferredToHuman(NoChoices(t), Transcript(w, t), Audit(w, t)))
    else if calls == [] then Ok(DeferredToHuman(NoToolCalls(t), Transcript(w, t + 1), Audit(w, t)))
    else Ok(HaltOutcome(HaltOf(w, t, calls), Transcript(w, t + 1), Audit(w, t + 1)))
  }

  function Conclusion(w: World, budget: nat): Result<IntakeOutcome, LoopError> {
    var t := LastTurn(w, budget);
    if t == budget then Ok(DeferredToHuman(BudgetExceeded(budget), Transcript(w, t), Audit(w, t)))
    else ConclusionAt(w, t)
  }

  /** How many times the model is asked. */
  function LlmCalls(w: World, budget: nat): nat {
    var t := LastTurn(w, budget);
    if t == budget then budget else t + 1
  }

  function Listed<T>(f: nat -> T, n: nat): (r: seq<T>)
    ensures |r| == n
  {
    if n == 0 then [] else Listed(f, n - 1) + [f(n - 1)]
  }

  lemma {:induction false} ListedAt<T>(f: nat -> T, n: nat, i: nat)
    requires i < n
    ensures Listed(f, n)[i] == f(i)
  {
    if i < n - 1 { ListedAt(f, n - 1, i); }
  }

  function Reaching(w: World, calls: seq<ToolCall>): set<nat> {
    set i: nat | i < |calls| && ReachesTopic(w, calls[i])
  }

  /** The calls of one turn whose activity a topic really executes, by position. */
  function TurnExecutions(w: World, turn: nat): set<nat> {
    var calls := CallsOf(w.reply(turn));
    if Rejected(calls) then {} else Reaching(w, calls)
  }

  // ── in the world's own terms ─────────────────────────────────────────

  lemma CallsAre(reply: Reply)
    ensures reply.Choices? && reply.choices != [] ==> CallsOf(reply) == Calls(reply.choices[0])
  {
  }

  lemma EndsExactly(reply: Reply)
    ensures Ends(reply) <==> Stops(reply)
  {
    if reply.Choices? && reply.choices != [] {
      var calls := Calls(reply.choices[0]);
      CallsAre(reply);
      if i: nat :| i < |calls| && OneHalt(calls, i) { OneHaltExactly(calls, i); }
      if i: nat :| LoneHalt(calls, i) { OneHaltExactly(calls, i); }
    }
  }

  lemma FirstDot(name: string, m: nat, n: nat)
    requires m < |name| && n <= |name|
    ensures name[m] == '.' && '.' !in name[..n] ==> n <= m
  {
    if m < n { assert name[..n][m] == name[m]; }
  }

  lemma PrefixIsTopic(w: World, name: string)
    ensures TopicPrefix(name).Some? && TopicPrefix(name).value in w.topics <==> NamesTopic(w, name)
  {
    if NamesTopic(w, name) {
      var n: nat :| n < |name| && name[n] == '.' && '.' !in name[..n] && name[..n] in w.topics;
      assert '.' in name;
      TopicPrefixIs(name);
      FirstDot(name, n, |TopicPrefix(name).value|);
      FirstDot(name, |TopicPrefix(name).value|, n);
    }
    TopicPrefixIs(name);
    if TopicPrefix(name).Some? && TopicPrefix(name).value in w.topics {
      assert name[..|TopicPrefix(name).value|] == TopicPrefix(name).value;
    }
  }

  lemma ReachesExactly(w: World, call: ToolCall)
    ensures ReachesTopic(w, call) <==> ForTopic(w, call)
  {
    PrefixIsTopic(w, call.name);
  }

  lemma ResultIs(w: World, turn: nat, calls: seq<ToolCall>, i: nat)
    requires i < |calls|
    ensures ResultFor(w, turn, calls, i,
                      ToolResult(calls[i].id,
                                 if Rejected(calls) then REJECTED else ResultContent(Dispatch(w, turn, i, calls[i]))))
  {
    RejectedExactly(calls);
    PrefixIsTopic(w, calls[i].name);
    TopicPrefixIs(calls[i].name);
  }

  lemma {:induction false} ResultsAre(w: World, turn: nat, calls: seq<ToolCall>, n: nat, i: nat)
    requires i < n <= |calls|
    ensures ResultFor(w, turn, calls, i, ResultsOf(w, turn, calls, n)[i])
  {
    if i == n - 1 {
      ResultIs(w, turn, calls, i);
    } else {
      ResultsAre(w, turn, calls, n - 1, i);
    }
  }

  lemma ConcatParts(before: seq<Message>, said: Message, results: seq<Message>)
    ensures var after := before + ([said] + results);
            after[..|before|] == before && after[|before|] == said && after[|before| + 1..] == results
  {
  }

  lemma TranscriptGrows(w: World, turn: nat)
    requires w.reply(turn).Choices? && w.reply(turn).choices != []
    ensures TurnAdds(w, turn, Transcript(w, turn), Transcript(w, turn + 1))
  {
    var (c, before) := (w.reply(turn).choices[0], Transcript(w, turn));
    var calls := Calls(c);
    CallsAre(w.reply(turn));
    assert Exchange(w, turn) == [Assistant(c.content, calls)] + ResultsOf(w, turn, calls, |calls|);
    var (after, results) := (before + Exchange(w, turn), ResultsOf(w, turn, calls, |calls|));
    ConcatParts(before, Assistant(c.content, calls), results);
    forall i: nat | i < |calls| ensures ResultFor(w, turn, calls, i, results[i]) {
      ResultsAre(w, turn, calls, |calls|, i);
    }
  }

  lemma ExecutionsExactly(w: World, turn: nat, i: nat)
    ensures i in TurnExecutions(w, turn) <==> Runs(w, turn, i)
  {
    var calls := CallsOf(w.reply(turn));
    CallsAre(w.reply(turn));
    RejectedExactly(calls);
    if i < |calls| { ReachesExactly(w, calls[i]); }
  }

  lemma HaltIs(w: World, turn: nat, calls: seq<ToolCall>, i: nat, transcript: seq<Message>, events: seq<Event>)
    requires LoneHalt(calls, i)
    ensures HasOneHalt(calls) && HaltSays(calls[i], HaltOutcome(HaltOf(w, turn, calls), transcript, events))
  {
    OneHaltExactly(calls, i);
    OneHaltIsUnique(calls);
    assert HaltOf(w, turn, calls) == Dispatch(w, turn, i, calls[i]).reason;
  }

  lemma HaltOutcomeParts(halt: HaltReason, transcript: seq<Message>, events: seq<Event>)
    ensures HaltOutcome(halt, transcript, events).transcript == transcript
    ensures HaltOutcome(halt, transcript, events).events == events
  {
  }

  lemma StopConcludes(w: World, budget: nat, t: nat)
    requires Ends(w.reply(t))
    ensures Concludes(w, budget, t, Transcript(w, t), ConclusionAt(w, t))
  {
    var calls := CallsOf(w.reply(t));
    EndsExactly(w.reply(t));
    CallsAre(w.reply(t));
    if w.reply(t).Choices? && w.reply(t).choices != [] {
      TranscriptGrows(w, t);
      forall i: nat | LoneHalt(calls, i) ensures HaltSays(calls[i], ConclusionAt(w, t).value) {
        HaltIs(w, t, calls, i, Transcript(w, t + 1), Audit(w, t + 1));
      }
      if calls != [] { HaltOutcomeParts(HaltOf(w, t, calls), Transcript(w, t + 1), Audit(w, t + 1)); }
    }
  }

  lemma ExhaustedConcludes(w: World, budget: nat)
    requires budget > 0 && LastTurn(w, budget) == budget && !Ends(w.reply(budget - 1))
    ensures Concludes(w, budget, budget - 1, Transcript(w, budget - 1), Conclusion(w, budget))
  {
    EndsExactly(w.reply(budget - 1));
    TranscriptGrows(w, budget - 1);
  }

  // ── the loop ─────────────────────────────────────────────────────────

  function Indices(n: nat): (r: set<nat>)
    ensures forall i :: i in r <==> 0 <= i < n
  {
    if n == 0 then {} else Indices(n - 1) + {n - 1}
  }

  /** `join_all`: the calls complete in any order, the results come back in input order. */
  method DispatchAll(w: World, turn: nat, calls: seq<ToolCall>)
      returns (results: seq<DispatchResult>, executed: set<nat>)
    ensures |results| == |calls|
    ensures forall i: nat :: i < |calls| ==> results[i] == Dispatch(w, turn, i, calls[i])
    ensures executed == Reaching(w, calls)
  {
    var slots := new Option<DispatchResult>[|calls|](_ => None);
    var running := Indices(|calls|);
    executed := {};
    while running != {}
      invariant running <= Indices(|calls|)
      invariant forall i: nat :: i < |calls| && i !in running ==> slots[i] == Some(Dispatch(w, turn, i, calls[i]))
      invariant executed == Reaching(w, calls) - running
    {
      var i :| i in running;
      if ReachesTopic(w, calls[i]) { executed := executed + {i}; }
      slots[i] := Some(Dispatch(w, turn, i, calls[i]));
      running := running - {i};
    }
    results := seq(|calls|, i requires 0 <= i < |calls| && slots[i].Some? reads slots => slots[i].value);
  }

  lemma OneHaltIsSeen(w: World, turn: nat, calls: seq<ToolCall>)
    ensures HasOneHalt(calls) ==> exists i: nat :: i < |calls| && Dispatch(w, turn, i, calls[i]).Halt?
  {
    if HasOneHalt(calls) {
      var i: nat :| i < |calls| && OneHalt(calls, i);
      assert Dispatch(w, turn, i, calls[i]).Halt?;
    }
  }

  lemma HaltIsTheOne(w: World, turn: nat, calls: seq<ToolCall>, at: nat)
    requires at < |calls| && !Rejected(calls) && Dispatch(w, turn, at, calls[at]).Halt?
    ensures HasOneHalt(calls) && HaltOf(w, turn, calls) == Dispatch(w, turn, at, calls[at]).reason
  {
    HaltCountIs(calls);
    assert IsHalt(calls[at].name);
    assert OneHalt(calls, at);
    OneHaltIsUnique(calls);
  }

  lemma HaltIsRecorded(w: World, turn: nat, calls: seq<ToolCall>, results: seq<DispatchResult>,
                       halt: Option<HaltReason>, at: nat)
    requires !Rejected(calls) && |results| == |calls|
    requires forall i: nat :: i < |calls| ==> results[i] == Dispatch(w, turn, i, calls[i])
    requires halt.Some? ==> at < |calls| && results[at] == Halt(halt.value)
    requires halt.None? ==> forall j :: 0 <= j < |calls| ==> !results[j].Halt?
    ensures halt == if HasOneHalt(calls) then Some(HaltOf(w, turn, calls)) else None
  {
    OneHaltIsSeen(w, turn, calls);
    if halt.Some? {
      HaltIsTheOne(w, turn, calls, at);
    }
  }

  /** Bookkeeping over one batch in emission order. */
  method Record(w: World, turn: nat, calls: seq<ToolCall>, results: seq<DispatchResult>)
      returns (messages: seq<Message>, events: seq<Event>, halt: Option<HaltReason>)
    requires calls == CallsOf(w.reply(turn)) && !Rejected(calls) && |results| == |calls|
    requires forall i: nat :: i < |calls| ==> results[i] == Dispatch(w, turn, i, calls[i])
    ensures messages == ResultMessages(w, turn) && events == TurnEvents(w, turn)
    ensures halt == if HasOneHalt(calls) then Some(HaltOf(w, turn, calls)) else None
  {
    messages, events, halt := [], [], None;
    ghost var at := 0;
    for i := 0 to |calls|
      invariant messages == ResultsOf(w, turn, calls, i)
      invariant events == EventsOf(w, turn, calls, i)
      invariant halt.Some? ==> 0 <= at < i && results[at] == Halt(halt.value)
      invariant halt.None? ==> forall j :: 0 <= j < i ==> !results[j].Halt?
    {
      var content := ResultContent(results[i]);
      match results[i] {
        case Halt(reason) =>
          halt := Some(reason);
          at := i;
        case ActivityResult(event) => events := events + [event];
        case ToolError(_) =>
      }
      messages := messages + [ToolResult(calls[i].id, content)];
    }
    HaltIsRecorded(w, turn, calls, results, halt, at);
  }

  lemma RejectedIsNotOneHalt(calls: seq<ToolCall>)
    requires Rejected(calls)
    ensures !HasOneHalt(calls)
  {
  }

  /** One reply with at least one call: reject the batch, or dispatch it and keep its books. */
  method Batch(w: World, turn: nat, calls: seq<ToolCall>)
      returns (messages: seq<Message>, events: seq<Event>, halt: Option<HaltReason>, executed: set<nat>)
    requires calls == CallsOf(w.reply(turn))
    ensures messages == ResultMessages(w, turn) && events == TurnEvents(w, turn)
    ensures executed == TurnExecutions(w, turn)
    ensures halt == if HasOneHalt(calls) then Some(HaltOf(w, turn, calls)) else None
  {
    if HaltCount(calls) > 1 {
      messages := [];
      for i := 0 to |calls|
        invariant messages == ResultsOf(w, turn, calls, i)
      {
        messages := messages + [ToolResult(calls[i].id, REJECTED)];
      }
      RejectedIsNotOneHalt(calls);
      return messages, [], None, {};
    }
    var results, ran := DispatchAll(w, turn, calls);
    executed := ran;
    messages, events, halt := Record(w, turn, calls, results);
  }

  /** A reply without calls executes nothing. */
  lemma QuietTurn(w: World, turn: nat)
    ensures CallsOf(w.reply(turn)) == [] ==> TurnExecutions(w, turn) == {}
  {
  }

  /** One turn: ask, echo the answer, act on it.  `end` is set when the loop stops here. */
  method Turn(w: World, turn: nat, transcript: seq<Message>, events: seq<Event>)
      returns (end: Option<Result<IntakeOutcome, LoopError>>, transcript': seq<Message>, events': seq<Event>,
               executed: set<nat>)
    requires transcript == Transcript(w, turn) && events == Audit(w, turn)
    ensures end == if Ends(w.reply(turn)) then Some(ConclusionAt(w, turn)) else None
    ensures end.None? ==> transcript' == Transcript(w, turn + 1) && events' == Audit(w, turn + 1)
    ensures executed == TurnExecutions(w, turn)
  {
    var reply := w.reply(turn);
    QuietTurn(w, turn);
    transcript', events', executed := transcript, events, {};
    if reply.LlmFailed? { return Some(Err(Llm)), transcript', events', executed; }
    if reply.choices == [] {
      return Some(Ok(DeferredToHuman(NoChoices(turn), transcript, events))), transcript', events', executed;
    }
    var calls := CallsOf(reply);
    var said := [Assistant(reply.choices[0].content, calls)];
    if calls == [] {
      assert Exchange(w, turn) == said;
      return Some(Ok(DeferredToHuman(NoToolCalls(turn), transcript + said, events))), transcript', events', executed;
    }
    var messages, produced, halt, ran := Batch(w, turn, calls);
    assert transcript + said + messages == transcript + Exchange(w, turn);
    transcript', events', executed := transcript + said + messages, events + produced, ran;
    end := if halt.Some? then Some(Ok(HaltOutcome(halt.value, transcript', events'))) else None;
  }

  lemma {:induction false} LastTurnExtends(w: World, budget: nat, t: nat)
    requires t < budget && LastTurn(w, t) == t && Ends(w.reply(t))
    ensures LastTurn(w, budget) == t
  {
    if t < budget - 1 { LastTurnExtends(w, budget - 1, t); }
  }

  /** `LastTurn` is the least turn that ends the loop. */
  lemma {:induction false} LastTurnIsLeast(w: World, budget: nat, t: nat)
    requires t <= budget && (t < budget ==> Ends(w.reply(t)))
    ensures LastTurn(w, budget) == t <==> forall u :: 0 <= u < t ==> !Ends(w.reply(u))
  {
    if budget == 0 {
    } else {
      var t' := LastTurn(w, budget - 1);
      LastTurnIsLeast(w, budget - 1, t');
    }
  }

  lemma NoEarlierStop(w: World, budget: nat, t: nat)
    requires t < LastTurn(w, budget)
    ensures !Stops(w.reply(t))
  {
    LastTurnIsLeast(w, budget, LastTurn(w, budget));
    EndsExactly(w.reply(t));
  }

  lemma LastConcludes(w: World, budget: nat)
    requires budget > 0
    ensures var last := LlmCalls(w, budget) - 1;
            last >= 0 && Concludes(w, budget, last, Transcript(w, last), Conclusion(w, budget))
    ensures LlmCalls(w, budget) < budget ==> Stops(w.reply(LlmCalls(w, budget) - 1))
  {
    var t := LastTurn(w, budget);
    if t < budget {
      StopConcludes(w, budget, t);
      EndsExactly(w.reply(t));
    } else {
      NoEarlierStop(w, budget, budget - 1);
      EndsExactly(w.reply(budget - 1));
      ExhaustedConcludes(w, budget);
    }
  }

  lemma TurnIs(w: World, budget: nat, t: nat)
    requires t + 1 < LlmCalls(w, budget)
    ensures !Stops(w.reply(t)) && TurnAdds(w, t, Transcript(w, t), Transcript(w, t + 1))
  {
    NoEarlierStop(w, budget, t);
    TranscriptGrows(w, t);
  }

  /** The events handed on are those of every turn the model was asked, whichever way the loop ended. */
  lemma OutcomeAudit(w: World, budget: nat)
    requires Conclusion(w, budget).Ok?
    ensures Conclusion(w, budget).value.events == Audit(w, LlmCalls(w, budget))
  {
    var t := LastTurn(w, budget);
    if t < budget && CallsOf(w.reply(t)) == [] {
      assert TurnEvents(w, t) == [];
      assert Audit(w, t + 1) == Audit(w, t) + [];
    }
  }

  lemma CallYields(w: World, turn: nat, calls: seq<ToolCall>, i: nat)
    requires i < |calls| && calls == CallsOf(w.reply(turn))
    ensures var r := Dispatch(w, turn, i, calls[i]);
            && (Runs(w, turn, i) && w.execute(turn, i).Ok? <==> !Rejected(calls) && r.ActivityResult?)
            && (r.ActivityResult? ==> w.execute(turn, i) == Ok(r.event))
  {
    CallsAre(w.reply(turn));
    RejectedExactly(calls);
    ReachesExactly(w, calls[i]);
    DispatchExactly(w, turn, i, calls[i]);
  }

  lemma HistoryStep(w: World, turn: nat, calls: seq<ToolCall>, i: nat)
    requires i < |calls| && calls == CallsOf(w.reply(turn))
    ensures var r := Dispatch(w, turn, i, calls[i]);
            History(w, turn, i + 1) == if !Rejected(calls) && r.ActivityResult? then History(w, turn, i) + [r.event]
                                       else History(w, turn, i)
  {
    CallYields(w, turn, calls, i);
  }

  lemma {:induction false} HistoryOfTurn(w: World, turn: nat, calls: seq<ToolCall>, n: nat)
    requires n <= |calls| && calls == CallsOf(w.reply(turn))
    ensures History(w, turn, n) == History(w, turn, 0) + (if Rejected(calls) then [] else EventsOf(w, turn, calls, n))
  {
    if n == 0 {
    } else {
      HistoryOfTurn(w, turn, calls, n - 1);
      HistoryStep(w, turn, calls, n - 1);
    }
  }

  lemma CountIs(reply: Reply)
    ensures CallCount(reply) == |CallsOf(reply)|
  {
  }

  lemma AuditStep(w: World, turn: nat, events: seq<Event>)
    requires events == TurnEvents(w, turn) && Audit(w, turn) == History(w, turn, 0)
    ensures Audit(w, turn + 1) == History(w, turn + 1, 0)
  {
    var calls := CallsOf(w.reply(turn));
    CountIs(w.reply(turn));
    HistoryOfTurn(w, turn, calls, |calls|);
    assert Audit(w, turn + 1) == Audit(w, turn) + events;
  }

  lemma {:induction false} AuditIs(w: World, turns: nat)
    ensures Audit(w, turns) == History(w, turns, 0)
  {
    if turns == 0 {
    } else {
      AuditIs(w, turns - 1);
      AuditStep(w, turns - 1, TurnEvents(w, turns - 1));
    }
  }

  lemma OutcomeHistory(w: World, budget: nat)
    requires Conclusion(w, budget).Ok?
    ensures Conclusion(w, budget).value.events == History(w, LlmCalls(w, budget), 0)
  {
    OutcomeAudit(w, budget);
    AuditIs(w, LlmCalls(w, budget));
  }

  lemma AskedSo(w: World, budget: nat)
    ensures AskedUntilStop(w, budget, LlmCalls(w, budget))
  {
    forall t: nat | t + 1 < LlmCalls(w, budget) ensures !Stops(w.reply(t)) { NoEarlierStop(w, budget, t); }
    if budget > 0 { LastConcludes(w, budget); }
  }

  lemma SentSo(w: World, budget: nat, requests: seq<seq<Message>>)
    requires |requests| == LlmCalls(w, budget)
    requires forall t: nat :: t < |requests| ==> requests[t] == Transcript(w, t)
    ensures SentInFull(w, requests)
  {
    forall t: nat, u: nat | t < u < |requests| && u == t + 1 ensures TurnAdds(w, t, requests[t], requests[u]) {
      TurnIs(w, budget, t);
    }
  }

  lemma ExecutedSo(w: World, executed: seq<set<nat>>)
    requires forall t: nat :: t < |executed| ==> executed[t] == TurnExecutions(w, t)
    ensures ExecutedExactly(w, executed)
  {
    forall t: nat, i: nat | t < |executed| ensures i in executed[t] <==> Runs(w, t, i) { ExecutionsExactly(w, t, i); }
  }

  lemma LoopIsSo(w: World, budget: nat, requests: seq<seq<Message>>, executed: seq<set<nat>>)
    requires requests == Listed(n => Transcript(w, n), LlmCalls(w, budget))
    requires executed == Listed(n => TurnExecutions(w, n), LlmCalls(w, budget))
    ensures LoopIs(w, budget, Conclusion(w, budget), requests, executed)
  {
    var n := LlmCalls(w, budget);
    forall t: nat | t < n ensures requests[t] == Transcript(w, t) && executed[t] == TurnExecutions(w, t) {
      ListedAt(n => Transcript(w, n), n, t);
      ListedAt(n => TurnExecutions(w, n), n, t);
    }
    AskedSo(w, budget);
    SentSo(w, budget, requests);
    ExecutedSo(w, executed);
    if budget > 0 { LastConcludes(w, budget); }
    if Conclusion(w, budget).Ok? { OutcomeHistory(w, budget); }
  }

  /** `requests` are the transcripts the model was sent; `executed` the activities that ran, turn by turn. */
  method RunLoop(w: World, budget: nat)
      returns (r: Result<IntakeOutcome, LoopError>, requests: seq<seq<Message>>, executed: seq<set<nat>>)
    ensures r == Conclusion(w, budget)
    ensures requests == Listed(n => Transcript(w, n), LlmCalls(w, budget)) && |requests| <= budget
    ensures executed == Listed(n => TurnExecutions(w, n), LlmCalls(w, budget))
    ensures LoopIs(w, budget, r, requests, executed)
  {
    var transcript := [SystemMessage(w.system), UserMessage(w.user)];
    var events: seq<Event> := [];
    requests, executed := [], [];
    for turn := 0 to budget
      invariant transcript == Transcript(w, turn) && events == Audit(w, turn)
      invariant requests == Listed(n => Transcript(w, n), turn)
      invariant executed == Listed(n => TurnExecutions(w, n), turn)
      invariant LastTurn(w, turn) == turn
    {
      requests := requests + [transcript];
      var end, transcript', events', ran := Turn(w, turn, transcript, events);
      executed := executed + [ran];
      if end.Some? {
        LastTurnExtends(w, budget, turn);
        assert LlmCalls(w, budget) == turn + 1;
        LoopIsSo(w, budget, requests, executed);
        return end.value, requests, executed;
      }
      transcript, events := transcript', events';
    }
    assert LlmCalls(w, budget) == budget;
    LoopIsSo(w, budget, requests, executed);
    return Ok(DeferredToHuman(BudgetExceeded(budget), transcript, events)), requests, executed;
  }

  // ── what the loop guarantees ─────────────────────────────────────────

  /** The messages start with one result per call, same ids, same order. */
  predicate Answered(ms: seq<Message>, calls: seq<ToolCall>) {
    |ms| >= |calls| && forall i :: 0 <= i < |calls| ==> ms[i].ToolResult? && ms[i].callId == calls[i].id
  }

  /** Every assistant message is followed at once by the results of its calls. */
  predicate Paired(ms: seq<Message>) {
    ms == []
    || (ms[0].Assistant? && Answered(ms[1..], ms[0].calls) && Paired(ms[1 + |ms[0].calls|..]))
  }

  predicate WellFormed(ms: seq<Message>) {
    |ms| >= 2 && ms[0].SystemMessage? && ms[1].UserMessage? && Paired(ms[2..])
  }

  lemma AnsweredGrows(a: seq<Message>, b: seq<Message>, calls: seq<ToolCall>)
    requires Answered(a, calls)
    ensures Answered(a + b, calls)
  {
  }

  lemma ConcatSlices(a: seq<Message>, b: seq<Message>, n: nat)
    requires 1 <= n <= |a|
    ensures (a + b)[0] == a[0] && (a + b)[1..] == a[1..] + b && (a + b)[n..] == a[n..] + b
  {
  }

  lemma {:induction false} PairedConcat(a: seq<Message>, b: seq<Message>)
    requires Paired(a) && Paired(b)
    ensures Paired(a + b)
  {
    if a == [] {
      assert a + b == b;
    } else {
      var n := 1 + |a[0].calls|;
      PairedConcat(a[n..], b);
      AnsweredGrows(a[1..], b, a[0].calls);
      ConcatSlices(a, b, n);
    }
  }

  lemma {:induction false} ResultsAnswer(w: World, turn: nat, calls: seq<ToolCall>, n: nat)
    requires n <= |calls|
    ensures Answered(ResultsOf(w, turn, calls, n), calls[..n])
    ensures Rejected(calls) ==> forall m :: m in ResultsOf(w, turn, calls, n) ==> m.ToolResult? && m.result == REJECTED
  {
    if n == 0 {
    } else {
      ResultsAnswer(w, turn, calls, n - 1);
    }
  }

  lemma ExchangePaired(w: World, turn: nat)
    ensures Paired(Exchange(w, turn))
  {
    var (ms, calls) := (Exchange(w, turn), CallsOf(w.reply(turn)));
    ResultsAnswer(w, turn, calls, |calls|);
    assert calls[..|calls|] == calls;
    if ms != [] {
      assert ms[1..] == ResultMessages(w, turn);
      assert ms[1 + |ms[0].calls|..] == [];
    }
  }

  lemma WellFormedGrows(a: seq<Message>, b: seq<Message>)
    requires WellFormed(a) && Paired(b)
    ensures WellFormed(a + b)
  {
    PairedConcat(a[2..], b);
    ConcatSlices(a, b, 2);
  }

  lemma {:induction false} TranscriptWellFormed(w: World, turns: nat)
    ensures WellFormed(Transcript(w, turns))
  {
    if turns == 0 {
    } else {
      var (before, exchange) := (Transcript(w, turns - 1), Exchange(w, turns - 1));
      TranscriptWellFormed(w, turns - 1);
      ExchangePaired(w, turns - 1);
      WellFormedGrows(before, exchange);
    }
  }

  /** Every transcript the model is sent is well formed. */
  lemma RequestsWellFormed(w: World, calls: nat, i: nat)
    requires i < calls
    ensures WellFormed(Listed(n => Transcript(w, n), calls)[i])
  {
    ListedAt(n => Transcript(w, n), calls, i);
    TranscriptWellFormed(w, i);
  }

  lemma ConclusionAtTranscript(w: World, t: nat)
    requires Ends(w.reply(t)) && !w.reply(t).LlmFailed?
    ensures ConclusionAt(w, t).Ok?
    ensures ConclusionAt(w, t).value.transcript == if w.reply(t).choices == [] then Transcript(w, t) else Transcript(w, t + 1)
  {
    var calls := CallsOf(w.reply(t));
    if calls != [] { HaltOutcomeParts(HaltOf(w, t, calls), Transcript(w, t + 1), Audit(w, t + 1)); }
  }

  lemma ConclusionAtWellFormed(w: World, t: nat)
    requires Ends(w.reply(t)) && !w.reply(t).LlmFailed?
    ensures ConclusionAt(w, t).Ok? && WellFormed(ConclusionAt(w, t).value.transcript)
  {
    ConclusionAtTranscript(w, t);
    TranscriptWellFormed(w, t);
    TranscriptWellFormed(w, t + 1);
  }

  /** On every way out, the transcript handed back is well formed. */
  lemma OutcomeWellFormed(w: World, budget: nat)
    requires Conclusion(w, budget).Ok?
    ensures WellFormed(Conclusion(w, budget).value.transcript)
  {
    var t := LastTurn(w, budget);
    if t < budget { ConclusionAtWellFormed(w, t); } else { TranscriptWellFormed(w, t); }
  }

  /** The first turn that ends the loop is `t`, and it ends it by the one halt at position `i`. */
  ghost predicate HaltsAt(w: World, budget: nat, t: nat, i: nat) {
    t < budget && (forall u :: 0 <= u < t ==> !Ends(w.reply(u))) && OneHalt(CallsOf(w.reply(t)), i)
  }

  lemma HaltConcludes(w: World, budget: nat, t: nat, i: nat)
    requires HaltsAt(w, budget, t, i)
    ensures i < |CallsOf(w.reply(t))| && Dispatch(w, t, i, CallsOf(w.reply(t))[i]).Halt?
    ensures Conclusion(w, budget)
         == Ok(HaltOutcome(Dispatch(w, t, i, CallsOf(w.reply(t))[i]).reason, Transcript(w, t + 1), Audit(w, t + 1)))
  {
    var calls := CallsOf(w.reply(t));
    assert HasOneHalt(calls);
    LastTurnIsLeast(w, budget, t);
    OneHaltIsUnique(calls);
  }

  lemma HaltExists(w: World, budget: nat) returns (t: nat, i: nat)
    requires Conclusion(w, budget).Ok?
    requires Conclusion(w, budget).value.AutoResolved? || Conclusion(w, budget).value.reason.Given?
    ensures HaltsAt(w, budget, t, i)
  {
    t := LastTurn(w, budget);
    LastTurnIsLeast(w, budget, t);
    assert HasOneHalt(CallsOf(w.reply(t)));
    i :| i < |CallsOf(w.reply(t))| && OneHalt(CallsOf(w.reply(t)), i);
  }

  predicate Resolves(call: ToolCall, summary: string) {
    call.name == HALT_AUTO_RESOLVED && call.arguments.Some? && StrOr(call.arguments.value, "summary", "") == summary
  }

  /** The loop resolves an item on its own, with some summary, exactly when the first turn that
      ends it carries one reserved call, that call is `auto_resolved`, its arguments are JSON,
      and the summary is the one they give. */
  lemma AutoResolvedExactly(w: World, budget: nat, summary: string)
    ensures (Conclusion(w, budget).Ok? && Conclusion(w, budget).value.AutoResolved?
             && Conclusion(w, budget).value.summary == summary)
       <==> exists t: nat, i: nat :: HaltsAt(w, budget, t, i) && Resolves(CallsOf(w.reply(t))[i], summary)
  {
    if Conclusion(w, budget).Ok? && Conclusion(w, budget).value.AutoResolved? {
      var t, i := HaltExists(w, budget);
      HaltConcludes(w, budget, t, i);
    }
    forall t: nat, i: nat | HaltsAt(w, budget, t, i) && Resolves(CallsOf(w.reply(t))[i], summary)
      ensures Conclusion(w, budget).Ok? && Conclusion(w, budget).value.AutoResolved?
              && Conclusion(w, budget).value.summary == summary
    {
      HaltConcludes(w, budget, t, i);
    }
  }

  predicate Defers(call: ToolCall, reason: string) {
    call.name == HALT_DEFER_TO_HUMAN && call.arguments.Some?
    && StrOr(call.arguments.value, "reason", "(no reason given)") == reason
  }

  /** It passes on the model's own reason exactly when that one reserved call is `defer_to_human`. */
  lemma DeferredByModelExactly(w: World, budget: nat, reason: string)
    ensures (Conclusion(w, budget).Ok? && Conclusion(w, budget).value.DeferredToHuman?
             && Conclusion(w, budget).value.reason == Given(reason))
       <==> exists t: nat, i: nat :: HaltsAt(w, budget, t, i) && Defers(CallsOf(w.reply(t))[i], reason)
  {
    if Conclusion(w, budget).Ok? && Conclusion(w, budget).value.DeferredToHuman?
       && Conclusion(w, budget).value.reason == Given(reason) {
      var t, i := HaltExists(w, budget);
      HaltConcludes(w, budget, t, i);
    }
    forall t: nat, i: nat | HaltsAt(w, budget, t, i) && Defers(CallsOf(w.reply(t))[i], reason)
      ensures Conclusion(w, budget).Ok? && Conclusion(w, budget).value.DeferredToHuman?
              && Conclusion(w, budget).value.reason == Given(reason)
    {
      HaltConcludes(w, budget, t, i);
    }
  }

  /** What `process_next` finalizes: a failed loop defers the item and drops its events. */
  function Processed(r: Result<IntakeOutcome, LoopError>): IntakeOutcome {
    match r
    case Ok(outcome) => outcome
    case Err(_) => DeferredToHuman(LoopFailed, [], [])
  }

  lemma HaltsFirstExactly(w: World, budget: nat, t: nat, i: nat)
    ensures HaltsAt(w, budget, t, i) <==> HaltsFirst(w, budget, t, i)
  {
    forall u: nat | u <= t ensures Ends(w.reply(u)) <==> Stops(w.reply(u)) { EndsExactly(w.reply(u)); }
    CallsAre(w.reply(t));
    OneHaltExactly(CallsOf(w.reply(t)), i);
  }

  /** What `process_next` finalizes resolves the item exactly when the first reply to stop the loop
      has one halt call with JSON arguments and that call is `auto_resolved`. */
  lemma ResolvesExactly(w: World, budget: nat)
    ensures Processed(Conclusion(w, budget)).AutoResolved? <==>
            exists t: nat, i: nat :: HaltsFirst(w, budget, t, i) && Calls(w.reply(t).choices[0])[i].name == "auto_resolved"
  {
    var r := Conclusion(w, budget);
    if r.Ok? && r.value.AutoResolved? {
      AutoResolvedExactly(w, budget, r.value.summary);
      var t: nat, i: nat :| HaltsAt(w, budget, t, i) && Resolves(CallsOf(w.reply(t))[i], r.value.summary);
      HaltsFirstExactly(w, budget, t, i);
      CallsAre(w.reply(t));
    }
    if t: nat, i: nat :| HaltsFirst(w, budget, t, i) && Calls(w.reply(t).choices[0])[i].name == "auto_resolved" {
      HaltsFirstExactly(w, budget, t, i);
      CallsAre(w.reply(t));
      var summary := StrOr(CallsOf(w.reply(t))[i].arguments.value, "summary", "");
      assert Resolves(CallsOf(w.reply(t))[i], summary);
      AutoResolvedExactly(w, budget, summary);
    }
  }

  /** The model call of turn `t` is the first thing to stop the loop, by failing. */
  ghost predicate FailsFirst(w: World, budget: nat, t: nat) {
    t < budget && w.reply(t).LlmFailed? && forall u: nat :: u < t ==> !Stops(w.reply(u))
  }

  /** Then the item is deferred and nothing the loop did is handed on; in every other case all of it is. */
  lemma HandsOnExactly(w: World, budget: nat)
    ensures (exists t: nat :: FailsFirst(w, budget, t)) ==>
              Processed(Conclusion(w, budget)).DeferredToHuman? && Processed(Conclusion(w, budget)).events == []
    ensures !(exists t: nat :: FailsFirst(w, budget, t)) ==>
              AskedUntilStop(w, budget, LlmCalls(w, budget))
              && Processed(Conclusion(w, budget)).events == History(w, LlmCalls(w, budget), 0)
  {
    AskedSo(w, budget);
    if t: nat :| FailsFirst(w, budget, t) {
      forall u: nat | u <= t ensures Ends(w.reply(u)) <==> Stops(w.reply(u)) { EndsExactly(w.reply(u)); }
      LastTurnIsLeast(w, budget, t);
    } else {
      var t := LastTurn(w, budget);
      forall u: nat | u < t ensures !Stops(w.reply(u)) { NoEarlierStop(w, budget, u); }
      assert t < budget ==> !FailsFirst(w, budget, t);
      OutcomeHistory(w, budget);
    }
  }

  /** A batch with two or more halts executes nothing and records nothing. */
  lemma RejectedBatchDoesNothing(w: World, turn: nat)
    requires Rejected(CallsOf(w.reply(turn)))
    ensures TurnEvents(w, turn) == [] && TurnExecutions(w, turn) == {} && !Ends(w.reply(turn))
    ensures forall m :: m in ResultMessages(w, turn) ==> m.ToolResult? && m.result == REJECTED
  {
    var calls := CallsOf(w.reply(turn));
    RejectedIsNotOneHalt(calls);
    ResultsAnswer(w, turn, calls, |calls|);
  }

  // ── the audit trail ──────────────────────────────────────────────────

  predicate Succeeds(w: World, turn: nat, i: nat) {
    var calls := CallsOf(w.reply(turn));
    i < |calls| && !Rejected(calls) && Dispatch(w, turn, i, calls[i]).ActivityResult?
  }

  /** Where the event of call `i` of turn `turn` sits in the audit trail. */
  function AuditIndex(w: World, turn: nat, i: nat): nat
    requires i <= |CallsOf(w.reply(turn))|
  {
    |Audit(w, turn)| + |EventsOf(w, turn, CallsOf(w.reply(turn)), i)|
  }

  lemma {:induction false} EventAt(w: World, turn: nat, calls: seq<ToolCall>, n: nat, i: nat)
    requires i < n <= |calls| && Dispatch(w, turn, i, calls[i]).ActivityResult?
    ensures |EventsOf(w, turn, calls, i)| < |EventsOf(w, turn, calls, n)|
    ensures EventsOf(w, turn, calls, n)[|EventsOf(w, turn, calls, i)|] == Dispatch(w, turn, i, calls[i]).event
  {
    if i < n - 1 { EventAt(w, turn, calls, n - 1, i); }
  }

  lemma {:induction false} AuditPrefix(w: World, turn: nat, turns: nat)
    requires turn <= turns
    ensures |Audit(w, turn)| <= |Audit(w, turns)| && Audit(w, turns)[..|Audit(w, turn)|] == Audit(w, turn)
    decreases turns
  {
    if turn < turns { AuditPrefix(w, turn, turns - 1); }
  }

  lemma TurnEventAt(w: World, turn: nat, i: nat)
    requires Succeeds(w, turn, i)
    ensures var (calls, k) := (CallsOf(w.reply(turn)), |EventsOf(w, turn, CallsOf(w.reply(turn)), i)|);
            k < |TurnEvents(w, turn)| && TurnEvents(w, turn)[k] == Dispatch(w, turn, i, calls[i]).event
  {
    var calls := CallsOf(w.reply(turn));
    EventAt(w, turn, calls, |calls|, i);
  }

  lemma AtOffset(a: seq<Event>, b: seq<Event>, k: nat)
    requires k < |b|
    ensures (a + b)[|a| + k] == b[k]
  {
  }

  /** Each successful activity has its own event in the trail. */
  lemma AuditAt(w: World, turns: nat, turn: nat, i: nat)
    requires turn < turns && Succeeds(w, turn, i)
    ensures AuditIndex(w, turn, i) < |Audit(w, turns)|
    ensures Audit(w, turns)[AuditIndex(w, turn, i)] == Dispatch(w, turn, i, CallsOf(w.reply(turn))[i]).event
  {
    var k := |EventsOf(w, turn, CallsOf(w.reply(turn)), i)|;
    TurnEventAt(w, turn, i);
    AuditPrefix(w, turn + 1, turns);
    AtOffset(Audit(w, turn), TurnEvents(w, turn), k);
  }

  /** The trail is in emission order: earlier turns first, and within a turn the model's own order. */
  lemma AuditInEmissionOrder(w: World, turn: nat, i: nat, turn': nat, i': nat)
    requires Succeeds(w, turn, i) && Succeeds(w, turn', i')
    requires turn < turn' || (turn == turn' && i < i')
    ensures AuditIndex(w, turn, i) < AuditIndex(w, turn', i')
  {
    if turn < turn' {
      AuditAt(w, turn', turn, i);
    } else {
      EventAt(w, turn, CallsOf(w.reply(turn)), i', i);
    }
  }

  lemma {:induction false} EventFrom(w: World, turn: nat, calls: seq<ToolCall>, n: nat, k: nat) returns (i: nat)
    requires n <= |calls| && k < |EventsOf(w, turn, calls, n)|
    ensures i < n && Dispatch(w, turn, i, calls[i]).ActivityResult? && |EventsOf(w, turn, calls, i)| == k
  {
    if k < |EventsOf(w, turn, calls, n - 1)| { i := EventFrom(w, turn, calls, n - 1, k); } else { i := n - 1; }
  }

  /** Nothing else is in the trail. */
  lemma {:induction false} AuditFrom(w: World, turns: nat, k: nat) returns (turn: nat, i: nat)
    requires k < |Audit(w, turns)|
    ensures turn < turns && Succeeds(w, turn, i) && AuditIndex(w, turn, i) == k
  {
    if k < |Audit(w, turns - 1)| {
      turn, i := AuditFrom(w, turns - 1, k);
    } else {
      turn := turns - 1;
      var calls := CallsOf(w.reply(turn));
      i := EventFrom(w, turn, calls, |calls|, k - |Audit(w, turn)|);
    }
  }
}
