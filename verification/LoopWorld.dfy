/** What the intake loop sees, and what happens to it, said in those terms alone.

    The model's replies, and what each topic answers to each activity call, are
    arbitrary: a `World` fixes them for one run. */
module LoopWorld {
  import opened Common
  import opened Storage

  /** `arguments` is `None` when the text the model sent is not JSON. */
  datatype ToolCall = ToolCall(id: string, name: string, arguments: Option<Json>)

  datatype Fault =
    | BadArguments(name: string)
    | UnknownTool(name: string)
    | NoTopic(name: string)
    | ActivityFailed(name: string, error: string)
    | SeveralHalts

  /** What a tool result says; the JSON text around it is not modelled. */
  datatype Content = Halted | Succeeded(eventId: string, payload: Json) | Failed(fault: Fault)

  datatype Message =
    | SystemMessage(text: string)
    | UserMessage(text: string)
    | Assistant(content: Option<string>, calls: seq<ToolCall>)
    | ToolResult(callId: string, result: Content)

  datatype Choice = Choice(content: Option<string>, toolCalls: Option<seq<ToolCall>>)

  datatype Reply = LlmFailed | Choices(choices: seq<Choice>)

  datatype Reason =
    | Given(text: string)
    | NoChoices(turn: nat)
    | NoToolCalls(turn: nat)
    | BudgetExceeded(budget: nat)
    | LoopFailed

  datatype IntakeOutcome =
    | AutoResolved(summary: string, transcript: seq<Message>, events: seq<Event>)
    | DeferredToHuman(reason: Reason, transcript: seq<Message>, events: seq<Event>)

  datatype LoopError = Llm

  datatype HaltReason = HaltAutoResolved(summary: string) | HaltDeferred(reason: string)

  datatype DispatchResult =
    | Halt(reason: HaltReason)
    | ActivityResult(event: Event)
    | ToolError(fault: Fault)

  datatype World = World(
    system: string,
    user: string,
    topics: set<string>,
    reply: nat -> Reply,
    execute: (nat, nat) -> Result<Event, string>)

  // ── one reply ────────────────────────────────────────────────────────

  /** The tool calls of the first choice. */
  function Calls(c: Choice): seq<ToolCall> {
    if c.toolCalls.Some? then c.toolCalls.value else []
  }

  predicate IsHalt(name: string) {
    name == "auto_resolved" || name == "defer_to_human"
  }

  ghost predicate TwoHalts(calls: seq<ToolCall>) {
    exists i, j :: 0 <= i < j < |calls| && IsHalt(calls[i].name) && IsHalt(calls[j].name)
  }

  /** Call `i` halts, no other call of the batch would, and its arguments are JSON. */
  ghost predicate LoneHalt(calls: seq<ToolCall>, i: nat) {
    i < |calls| && IsHalt(calls[i].name) && calls[i].arguments.Some?
    && forall j :: 0 <= j < |calls| && j != i ==> !IsHalt(calls[j].name)
  }

  /** The loop does not go on after this reply: the model failed, offered nothing, called
      nothing, or halted. */
  ghost predicate Stops(r: Reply) {
    r.LlmFailed? || r.choices == [] || Calls(r.choices[0]) == []
    || exists i: nat :: LoneHalt(Calls(r.choices[0]), i)
  }

  /** What stands before the first dot of the name is the id of a topic. */
  ghost predicate NamesTopic(w: World, name: string) {
    exists n: nat :: n < |name| && name[n] == '.' && '.' !in name[..n] && name[..n] in w.topics
  }

  ghost predicate ForTopic(w: World, call: ToolCall) {
    call.arguments.Some? && !IsHalt(call.name) && NamesTopic(w, call.name)
  }

  /** `text` is what the arguments say in this field, or the default when they say nothing. */
  ghost predicate Reads(args: Json, field: string, default: string, text: string) {
    if args.JObject? && field in args.fields && args.fields[field].JStr? then text == args.fields[field].s
    else text == default
  }

  // ── one turn ─────────────────────────────────────────────────────────

  /** `m` is the result the model is shown for call `i` of this batch. */
  ghost predicate ResultFor(w: World, turn: nat, calls: seq<ToolCall>, i: nat, m: Message)
    requires i < |calls|
  {
    var call := calls[i];
    && m.ToolResult? && m.callId == call.id
    && if TwoHalts(calls) then m.result == Failed(SeveralHalts)
       else if call.arguments.None? then m.result == Failed(BadArguments(call.name))
       else if IsHalt(call.name) then m.result == Halted
       else if '.' !in call.name then m.result == Failed(UnknownTool(call.name))
       else if !NamesTopic(w, call.name) then m.result == Failed(NoTopic(call.name))
       else
         match w.execute(turn, i)
         case Ok(e) => m.result == Succeeded(e.id, e.payload)
         case Err(x) => m.result == Failed(ActivityFailed(call.name, x))
  }

  /** One result per call, in order. */
  ghost predicate ResultsFor(w: World, turn: nat, calls: seq<ToolCall>, results: seq<Message>) {
    |results| == |calls| && forall i: nat :: i < |calls| ==> ResultFor(w, turn, calls, i, results[i])
  }

  /** `after` is `before`, then the model's message as it came, then one result per call. */
  ghost predicate TurnAdds(w: World, turn: nat, before: seq<Message>, after: seq<Message>) {
    w.reply(turn).Choices? && w.reply(turn).choices != [] &&
    var (c, calls, n) := (w.reply(turn).choices[0], Calls(w.reply(turn).choices[0]), |before|);
    && |after| > n
    && after[..n] == before
    && after[n] == Assistant(c.content, calls)
    && ResultsFor(w, turn, calls, after[n + 1..])
  }

  /** Call `i` of turn `turn` is one a topic executes. */
  ghost predicate Runs(w: World, turn: nat, i: nat) {
    w.reply(turn).Choices? && w.reply(turn).choices != [] &&
    var calls := Calls(w.reply(turn).choices[0]);
    i < |calls| && !TwoHalts(calls) && ForTopic(w, calls[i])
  }

  ghost function CallCount(r: Reply): nat {
    if r.LlmFailed? || r.choices == [] then 0 else |Calls(r.choices[0])|
  }

  /** What topics answered to the activities executed in all turns before `turn` and in the first
      `n` calls of it, in emission order. */
  ghost function History(w: World, turn: nat, n: nat): seq<Event>
    decreases turn, n
  {
    if n > 0 then
      History(w, turn, n - 1)
      + (if Runs(w, turn, n - 1) && w.execute(turn, n - 1).Ok? then [w.execute(turn, n - 1).value] else [])
    else if turn > 0 then History(w, turn - 1, CallCount(w.reply(turn - 1)))
    else []
  }

  // ── the whole loop ───────────────────────────────────────────────────

  /** Turn `t` is the first to stop, and it stops by the halt at position `i`. */
  ghost predicate HaltsFirst(w: World, budget: nat, t: nat, i: nat) {
    && t < budget && (forall u: nat :: u < t ==> !Stops(w.reply(u)))
    && w.reply(t).Choices? && w.reply(t).choices != [] && LoneHalt(Calls(w.reply(t).choices[0]), i)
  }

  /** The outcome is the one the halt call asks for, in the words it gives. */
  ghost predicate HaltSays(call: ToolCall, outcome: IntakeOutcome)
    requires call.arguments.Some?
  {
    if call.name == "auto_resolved" then
      outcome.AutoResolved? && Reads(call.arguments.value, "summary", "", outcome.summary)
    else
      outcome.DeferredToHuman? && outcome.reason.Given?
      && Reads(call.arguments.value, "reason", "(no reason given)", outcome.reason.text)
  }

  /** What the loop returns when `last` is the last turn asked, with `sent` the transcript sent. */
  ghost predicate Concludes(w: World, budget: nat, last: nat, sent: seq<Message>, r: Result<IntakeOutcome, LoopError>) {
    if w.reply(last).LlmFailed? then r == Err(Llm)
    else if w.reply(last).choices == [] then
      r.Ok? && r.value.DeferredToHuman? && r.value.reason == NoChoices(last) && r.value.transcript == sent
    else
      var calls := Calls(w.reply(last).choices[0]);
      r.Ok? && TurnAdds(w, last, sent, r.value.transcript)
      && (calls == [] ==> r.value.DeferredToHuman? && r.value.reason == NoToolCalls(last))
      && (forall i: nat :: LoneHalt(calls, i) ==> HaltSays(calls[i], r.value))
      && (!Stops(w.reply(last)) ==> r.value.DeferredToHuman? && r.value.reason == BudgetExceeded(budget))
  }

  /** The model is asked turn after turn until a reply stops the loop or the budget is spent. */
  ghost predicate AskedUntilStop(w: World, budget: nat, asked: nat) {
    && asked <= budget
    && (forall t: nat :: t + 1 < asked ==> !Stops(w.reply(t)))
    && (asked < budget ==> asked > 0 && Stops(w.reply(asked - 1)))
  }

  /** First the prompt, then each time what the turn before added. */
  ghost predicate SentInFull(w: World, requests: seq<seq<Message>>) {
    && (requests != [] ==> requests[0] == [SystemMessage(w.system), UserMessage(w.user)])
    && (forall t: nat, u: nat :: t < u < |requests| && u == t + 1 ==> TurnAdds(w, t, requests[t], requests[u]))
  }

  ghost predicate ExecutedExactly(w: World, executed: seq<set<nat>>) {
    forall t: nat, i: nat :: t < |executed| ==> (i in executed[t] <==> Runs(w, t, i))
  }

  /** A whole loop: which turns are asked, what the model is sent each time, which activities a
      topic executes, and what comes of it. */
  ghost predicate LoopIs(w: World, budget: nat, r: Result<IntakeOutcome, LoopError>, requests: seq<seq<Message>>,
                         executed: seq<set<nat>>)
  {
    && AskedUntilStop(w, budget, |requests|) && |executed| == |requests|
    && SentInFull(w, requests)
    && ExecutedExactly(w, executed)
    && (r.Ok? ==> r.value.events == History(w, |requests|, 0))
    && if requests == [] then
         r == Ok(DeferredToHuman(BudgetExceeded(0), [SystemMessage(w.system), UserMessage(w.user)], []))
       else Concludes(w, budget, |requests| - 1, requests[|requests| - 1], r)
  }
}
