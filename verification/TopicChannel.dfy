/** Host and topic joined by two first-in-first-out pipes, while the connection is up.  The
    host never sends `shutdown`, so every request is one the topic handles. */
module TopicChannel {
  import opened Common
  import opened TopicProto
  import TopicHost
  import TopicSdk

  /** `back` is everything the topic has put on its writer channel that the host has not read;
      the first `written` lines of it are on the wire already.  `emitted`, `issued`, `handled`
      and `emittedBefore` are history: every setting sent, each request by id, what the topic
      did with it, and how many settings had been sent before its response. */
  datatype Channel = Channel(
    world: TopicHost.World,
    wire: seq<Request>,
    hand: Option<Request>,
    back: seq<Line>,
    written: nat,
    emitted: seq<Setting>,
    issued: map<nat, Request>,
    handled: map<nat, TopicSdk.Handling>,
    emittedBefore: map<nat, nat>)

  const UP := Channel(TopicHost.START, [], None, [], 0, [], map[], map[], map[])

  datatype Step =
    | Draw(id: nat)
    | Register(id: nat)
    | Send(request: Request)
    | HostWrite
    | TopicRead
    | TopicNotify(setting: Setting)
    | TopicReply(handling: TopicSdk.Handling)
    | TopicWrite
    | HostRead

  predicate Enabled(c: Channel, step: Step) {
    match step
    case Draw(id) => TopicHost.Enabled(c.world, TopicHost.Draw(id))
    case Register(id) => TopicHost.Enabled(c.world, TopicHost.Register(id))
    case Send(request) => TopicHost.Enabled(c.world, TopicHost.Send(request)) && TopicSdk.Handles(request.verb)
    case HostWrite => c.world.host.outbound != []
    case TopicRead => c.wire != [] && c.hand.None?
    case TopicNotify(_) => true
    case TopicReply(_) => c.hand.Some?
    case TopicWrite => c.written < |c.back|
    case HostRead => c.written > 0 && c.back != [] && TopicHost.Enabled(c.world, TopicHost.Receive(c.back[0]))
  }

  function HostStep(c: Channel, step: TopicHost.Step): Channel {
    c.(world := TopicHost.After(c.world, step))
  }

  function After(c: Channel, step: Step): Channel
    requires Enabled(c, step)
  {
    match step
    case Draw(id) => HostStep(c, TopicHost.Draw(id))
    case Register(id) => HostStep(c, TopicHost.Register(id))
    case Send(request) => HostStep(c, TopicHost.Send(request)).(issued := c.issued[request.id := request])
    case HostWrite =>
      var outbound := c.world.host.outbound;
      c.(world := c.world.(host := c.world.host.(outbound := outbound[1..])), wire := c.wire + [outbound[0]])
    case TopicRead => c.(wire := c.wire[1..], hand := Some(c.wire[0]))
    case TopicNotify(setting) => c.(back := c.back + [Notify(setting)], emitted := c.emitted + [setting])
    case TopicReply(handling) =>
      var request := c.hand.value;
      c.(hand := None,
         back := c.back + [Reply(TopicSdk.Respond(request, handling))],
         handled := c.handled[request.id := handling],
         emittedBefore := c.emittedBefore[request.id := |c.emitted|])
    case TopicWrite => c.(written := c.written + 1)
    case HostRead => HostStep(c, TopicHost.Receive(c.back[0])).(back := c.back[1..], written := c.written - 1)
  }

  predicate Next(c: Channel, step: Step, c': Channel) {
    Enabled(c, step) && c' == After(c, step)
  }

  ghost predicate Run(channels: seq<Channel>, steps: seq<Step>) {
    |channels| == |steps| + 1 && channels[0] == UP
    && forall n :: 0 <= n < |steps| ==> Next(channels[n], steps[n], channels[n + 1])
  }

  function NotifyAll(c: Channel, settings: seq<Setting>): (r: Channel)
    ensures r.hand == c.hand
  {
    if settings == [] then c
    else After(NotifyAll(c, settings[..|settings| - 1]), TopicNotify(settings[|settings| - 1]))
  }

  lemma {:induction false} NotifyAllAppends(c: Channel, settings: seq<Setting>)
    ensures NotifyAll(c, settings).back == c.back + TopicSdk.Notifications(settings)
  {
    if settings == [] {
    } else {
      var init := settings[..|settings| - 1];
      NotifyAllAppends(c, init);
      assert TopicSdk.Notifications(settings) == TopicSdk.Notifications(init) + [Notify(settings[|settings| - 1])];
    }
  }

  lemma ReplyAppends(c: Channel, handling: TopicSdk.Handling, r: Response)
    requires c.hand.Some? && r == TopicSdk.Respond(c.hand.value, handling)
    ensures After(c, TopicReply(handling)).back == c.back + [Reply(r)]
  {
  }

  lemma TurnEnds(back: seq<Line>, notifications: seq<Line>, reply: Line)
    ensures (back + notifications) + [reply] == back + (notifications + [reply])
  {
  }

  /** One turn of the SDK loop is these steps: each setting the handler sends, then the reply. */
  lemma TurnIsSteps(c: Channel, handling: TopicSdk.Handling)
    requires c.hand.Some?
    ensures var request := c.hand.value;
            After(NotifyAll(c, TopicSdk.Effects(request, handling)), TopicReply(handling)).back
            == c.back + TopicSdk.Turn(request, handling)
  {
    var effects := TopicSdk.Effects(c.hand.value, handling);
    NotifyAllAppends(c, effects);
    ReplyAppends(NotifyAll(c, effects), handling, TopicSdk.Respond(c.hand.value, handling));
    TurnEnds(c.back, TopicSdk.Notifications(effects), Reply(TopicSdk.Respond(c.hand.value, handling)));
  }

  // ── where requests are ───────────────────────────────────────────────

  function Asked(requests: seq<Request>, id: nat): nat {
    if requests == [] then 0 else (if requests[0].id == id then 1 else 0) + Asked(requests[1..], id)
  }

  function Held(hand: Option<Request>, id: nat): nat {
    if hand.Some? && hand.value.id == id then 1 else 0
  }

  function Replies(lines: seq<Line>, id: nat): nat {
    if lines == [] then 0
    else (if lines[0].Reply? && lines[0].response.id == id then 1 else 0) + Replies(lines[1..], id)
  }

  lemma {:induction false} AskedAppend(requests: seq<Request>, r: Request, id: nat)
    ensures Asked(requests + [r], id) == Asked(requests, id) + (if r.id == id then 1 else 0)
  {
    if requests == [] {
      assert (requests + [r])[1..] == [];
    } else {
      AskedAppend(requests[1..], r, id);
      assert (requests + [r])[1..] == requests[1..] + [r];
    }
  }

  lemma {:induction false} RepliesAppend(lines: seq<Line>, line: Line, id: nat)
    ensures Replies(lines + [line], id) == Replies(lines, id) + (if line.Reply? && line.response.id == id then 1 else 0)
  {
    if lines == [] {
      assert (lines + [line])[1..] == [];
    } else {
      RepliesAppend(lines[1..], line, id);
      assert (lines + [line])[1..] == lines[1..] + [line];
    }
  }

  /** How often `id` occurs in the places a sent request or its response can be. */
  function Places(c: Channel, id: nat): nat {
    Asked(c.world.host.outbound, id) + Asked(c.wire, id) + Held(c.hand, id) + Replies(c.back, id)
  }

  /** A pending call that has been sent is in exactly one place; no other id is anywhere. */
  predicate InOnePlace(c: Channel, id: nat) {
    && (id in c.world.unsent ==> id in c.world.host.pending)
    && Places(c, id) == if id in c.world.host.pending && id !in c.world.unsent then 1 else 0
  }

  ghost predicate Open(c: Channel) {
    && TopicHost.Sound(c.world)
    && c.world.reading && c.world.writing && c.world.failed == {}
    && c.written <= |c.back|
  }

  lemma NextKeepsOpen(c: Channel, step: Step, c': Channel)
    requires Open(c) && Next(c, step, c')
    ensures Open(c')
  {
    match step
    case Draw(id) => TopicHost.NextKeepsSound(c.world, TopicHost.Draw(id), c'.world);
    case Register(id) => TopicHost.NextKeepsSound(c.world, TopicHost.Register(id), c'.world);
    case Send(request) => TopicHost.NextKeepsSound(c.world, TopicHost.Send(request), c'.world);
    case HostRead => TopicHost.NextKeepsSound(c.world, TopicHost.Receive(c.back[0]), c'.world);
    case _ =>
  }

  lemma NextKeepsInOnePlace(c: Channel, step: Step, c': Channel, id: nat)
    requires Open(c) && InOnePlace(c, id) && Next(c, step, c')
    ensures InOnePlace(c', id)
  {
    var outbound := c.world.host.outbound;
    match step
    case Send(request) => AskedAppend(outbound, request, id);
    case HostWrite => AskedAppend(c.wire, outbound[0], id);
    case TopicNotify(setting) => RepliesAppend(c.back, Notify(setting), id);
    case TopicReply(handling) => RepliesAppend(c.back, Reply(TopicSdk.Respond(c.hand.value, handling)), id);
    case _ =>
  }

  lemma {:induction false} RunIsOpen(channels: seq<Channel>, steps: seq<Step>, n: nat)
    requires Run(channels, steps) && n <= |steps|
    ensures Open(channels[n])
  {
    if n == 0 {
    } else {
      RunIsOpen(channels, steps, n - 1);
      NextKeepsOpen(channels[n - 1], steps[n - 1], channels[n]);
    }
  }

  /** Request conservation, in every run. */
  lemma {:induction false} EachCallInOnePlace(channels: seq<Channel>, steps: seq<Step>, n: nat, id: nat)
    requires Run(channels, steps) && n <= |steps|
    ensures InOnePlace(channels[n], id)
  {
    if n == 0 {
    } else {
      EachCallInOnePlace(channels, steps, n - 1, id);
      RunIsOpen(channels, steps, n - 1);
      NextKeepsInOnePlace(channels[n - 1], steps[n - 1], channels[n], id);
    }
  }

  /** No response ever finds its id unregistered. */
  lemma ResponsesAreExpected(channels: seq<Channel>, steps: seq<Step>, n: nat)
    requires Run(channels, steps) && n <= |steps|
    requires channels[n].back != [] && channels[n].back[0].Reply?
    ensures channels[n].back[0].response.id in channels[n].world.host.pending
  {
    EachCallInOnePlace(channels, steps, n, channels[n].back[0].response.id);
  }

  /** With nothing in the pipes and nothing unsent, no call is pending. */
  lemma QuietMeansAnswered(channels: seq<Channel>, steps: seq<Step>, n: nat)
    requires Run(channels, steps) && n <= |steps|
    requires var c := channels[n];
             c.world.host.outbound == [] && c.wire == [] && c.hand.None? && c.back == [] && c.world.unsent == {}
    ensures channels[n].world.host.pending == {}
  {
    forall id ensures id !in channels[n].world.host.pending { EachCallInOnePlace(channels, steps, n, id); }
  }

  // ── who gets which answer ────────────────────────────────────────────

  /** `r` is the topic's response to the request that was issued with its id. */
  predicate IsAnswer(c: Channel, r: Response) {
    && r.id in c.issued && r.id in c.handled && r.id in c.emittedBefore
    && c.issued[r.id].id == r.id && TopicSdk.Handles(c.issued[r.id].verb)
    && r == TopicSdk.Respond(c.issued[r.id], c.handled[r.id])
  }

  predicate IsIssued(c: Channel, request: Request) {
    request.id in c.issued && c.issued[request.id] == request && TopicSdk.Handles(request.verb)
  }

  ghost predicate Matched(c: Channel) {
    && (forall i :: 0 <= i < |c.world.host.outbound| ==> IsIssued(c, c.world.host.outbound[i]))
    && (forall i :: 0 <= i < |c.wire| ==> IsIssued(c, c.wire[i]))
    && (c.hand.Some? ==> IsIssued(c, c.hand.value))
    && (forall i :: 0 <= i < |c.back| && c.back[i].Reply? ==> IsAnswer(c, c.back[i].response))
    && (forall id :: id in c.world.host.resolved ==>
          c.world.host.resolved[id].Answered? && IsAnswer(c, c.world.host.resolved[id].response))
  }

  lemma {:induction false} NotAsked(requests: seq<Request>, id: nat)
    requires Asked(requests, id) == 0
    ensures forall i :: 0 <= i < |requests| ==> requests[i].id != id
  {
    if requests == [] {
    } else {
      NotAsked(requests[1..], id);
      forall i | 0 <= i < |requests| ensures requests[i].id != id {
        if i > 0 { assert requests[i] == requests[1..][i - 1]; }
      }
    }
  }

  lemma {:induction false} NotReplied(lines: seq<Line>, id: nat)
    requires Replies(lines, id) == 0
    ensures forall i :: 0 <= i < |lines| && lines[i].Reply? ==> lines[i].response.id != id
  {
    if lines == [] {
    } else {
      NotReplied(lines[1..], id);
      forall i | 0 <= i < |lines| && lines[i].Reply? ensures lines[i].response.id != id {
        if i > 0 { assert lines[i] == lines[1..][i - 1]; }
      }
    }
  }

  lemma SendKeepsMatched(c: Channel, request: Request, c': Channel)
    requires Open(c) && InOnePlace(c, request.id) && Matched(c) && Next(c, Send(request), c')
    ensures Matched(c')
  {
    NotAsked(c.world.host.outbound, request.id);
    NotAsked(c.wire, request.id);
    NotReplied(c.back, request.id);
  }

  lemma ReplyKeepsMatched(c: Channel, handling: TopicSdk.Handling, c': Channel)
    requires Open(c) && c.hand.Some? && InOnePlace(c, c.hand.value.id) && Matched(c)
    requires Next(c, TopicReply(handling), c')
    ensures Matched(c')
  {
    NotReplied(c.back, c.hand.value.id);
  }

  lemma ReadKeepsMatched(c: Channel, c': Channel)
    requires Matched(c) && Next(c, HostRead, c')
    ensures Matched(c')
  {
    var resolved := c'.world.host.resolved;
    forall id | id in resolved ensures resolved[id].Answered? && IsAnswer(c', resolved[id].response) {
      assert id in c.world.host.resolved || c.back[0] == Reply(resolved[id].response);
    }
  }

  lemma NextKeepsMatched(c: Channel, step: Step, c': Channel)
    requires Open(c) && (forall id :: InOnePlace(c, id)) && Matched(c) && Next(c, step, c')
    ensures Matched(c')
  {
    match step
    case Send(request) => SendKeepsMatched(c, request, c');
    case TopicReply(handling) => ReplyKeepsMatched(c, handling, c');
    case HostRead => ReadKeepsMatched(c, c');
    case _ =>
  }

  lemma {:induction false} RunIsMatched(channels: seq<Channel>, steps: seq<Step>, n: nat)
    requires Run(channels, steps) && n <= |steps|
    ensures Matched(channels[n])
  {
    if n == 0 {
    } else {
      var c := channels[n - 1];
      RunIsMatched(channels, steps, n - 1);
      RunIsOpen(channels, steps, n - 1);
      forall id ensures InOnePlace(c, id) { EachCallInOnePlace(channels, steps, n - 1, id); }
      NextKeepsMatched(c, steps[n - 1], channels[n]);
    }
  }

  /** Correlation end to end: what a call gets is what the topic answered to that caller's own
      request, value for value or an equal `TopicError`. */
  lemma CallerGetsTopicsAnswer(channels: seq<Channel>, steps: seq<Step>, n: nat, id: nat, activity: string)
    requires Run(channels, steps) && n <= |steps|
    requires id in channels[n].world.host.resolved
    ensures var c := channels[n];
            && id in c.issued && id in c.handled && c.issued[id].id == id
            && c.world.host.resolved[id] == TopicHost.Answered(TopicSdk.Respond(c.issued[id], c.handled[id]))
            && Payload(activity, c.world.host.resolved[id].response)
               == if c.handled[id].badParams then Err(Execution(activity, c.handled[id].message)) else c.handled[id].answer
  {
    RunIsMatched(channels, steps, n);
    RunIsOpen(channels, steps, n);
    TopicSdk.AnswerSurvives(activity, channels[n].issued[id], channels[n].handled[id]);
  }

  // ── effects precede replies ──────────────────────────────────────────

  /** A reply still on its way is behind exactly the settings emitted before it. */
  predicate Queued(c: Channel, k: nat)
    requires k < |c.back| && c.back[k].Reply?
  {
    var id := c.back[k].response.id;
    id in c.emittedBefore && c.emittedBefore[id] == |c.world.host.sink| + |Settings(c.back[..k])|
  }

  ghost predicate InOrder(c: Channel) {
    && c.world.host.sink + Settings(c.back) == c.emitted
    && (forall k: nat :: k < |c.back| && c.back[k].Reply? ==> Queued(c, k))
    && (forall id :: id in c.world.host.resolved ==>
          id in c.emittedBefore && c.emittedBefore[id] <= |c.world.host.sink|)
  }

  lemma QueuedBehind(c: Channel, line: Line, c': Channel, k: nat)
    requires k < |c.back| && c.back[k].Reply? && Queued(c, k) && c'.back == c.back + [line]
    requires c'.world == c.world
    requires var id := c.back[k].response.id; id in c'.emittedBefore && c'.emittedBefore[id] == c.emittedBefore[id]
    ensures Queued(c', k)
  {
    assert c'.back[..k] == c.back[..k];
  }

  lemma EmitKeepsInOrder(c: Channel, step: Step, c': Channel)
    requires Open(c) && (forall id :: InOnePlace(c, id)) && InOrder(c) && Next(c, step, c')
    requires step.TopicNotify? || step.TopicReply?
    ensures InOrder(c')
  {
    var line := c'.back[|c.back|];
    assert c'.back[..|c.back|] == c.back;
    if step.TopicReply? {
      assert InOnePlace(c, c.hand.value.id);
      NotReplied(c.back, c.hand.value.id);
    }
    forall k: nat | k < |c'.back| && c'.back[k].Reply? ensures Queued(c', k) {
      if k < |c.back| { QueuedBehind(c, line, c', k); }
    }
  }

  lemma Advanced(c: Channel, c': Channel, k: nat)
    requires c.back != [] && k + 1 < |c.back| && c.back[k + 1].Reply? && Queued(c, k + 1)
    requires c'.back == c.back[1..] && c'.emittedBefore == c.emittedBefore
    requires |c'.world.host.sink| == |c.world.host.sink| + |Settings([c.back[0]])|
    ensures Queued(c', k)
  {
    assert c.back[..k + 1] == [c.back[0]] + c'.back[..k];
    SettingsConcat([c.back[0]], c'.back[..k]);
  }

  lemma ReadMovesSettings(c: Channel, c': Channel)
    requires Next(c, HostRead, c')
    ensures c'.world.host.sink == c.world.host.sink + Settings([c.back[0]])
    ensures Settings(c.back) == Settings([c.back[0]]) + Settings(c'.back)
  {
    var line := c.back[0];
    assert [line][..0] == [];
    assert c.back == [line] + c'.back;
    SettingsConcat([line], c'.back);
  }

  lemma ReadKeepsInOrder(c: Channel, c': Channel)
    requires Open(c) && (forall id :: InOnePlace(c, id)) && InOrder(c) && Next(c, HostRead, c')
    ensures InOrder(c')
  {
    ReadMovesSettings(c, c');
    forall k: nat | k < |c'.back| && c'.back[k].Reply? ensures Queued(c', k) {
      assert c'.back[k] == c.back[k + 1];
      Advanced(c, c', k);
    }
    if c.back[0].Reply? {
      assert Queued(c, 0);
      assert c.back[..0] == [];
    }
  }

  lemma NextKeepsInOrder(c: Channel, step: Step, c': Channel)
    requires Open(c) && (forall id :: InOnePlace(c, id)) && InOrder(c) && Next(c, step, c')
    ensures InOrder(c')
  {
    if step.TopicNotify? || step.TopicReply? {
      EmitKeepsInOrder(c, step, c');
    } else if step.HostRead? {
      ReadKeepsInOrder(c, c');
    } else {
      assert c'.back == c.back && c'.emittedBefore == c.emittedBefore && c'.emitted == c.emitted;
      forall k: nat | k < |c'.back| && c'.back[k].Reply? ensures Queued(c', k) { assert Queued(c, k); }
    }
  }

  lemma {:induction false} RunIsInOrder(channels: seq<Channel>, steps: seq<Step>, n: nat)
    requires Run(channels, steps) && n <= |steps|
    ensures InOrder(channels[n])
  {
    if n == 0 {
    } else {
      var c := channels[n - 1];
      RunIsInOrder(channels, steps, n - 1);
      RunIsOpen(channels, steps, n - 1);
      forall id ensures InOnePlace(c, id) { EachCallInOnePlace(channels, steps, n - 1, id); }
      NextKeepsInOrder(c, steps[n - 1], channels[n]);
    }
  }

  /** When a response has reached its caller, the sink has finished every setting emitted
      before that response, in the order they were emitted. */
  lemma EffectsPrecedeReplies(channels: seq<Channel>, steps: seq<Step>, n: nat, id: nat)
    requires Run(channels, steps) && n <= |steps|
    requires id in channels[n].world.host.resolved
    ensures var c := channels[n];
            && id in c.emittedBefore && c.emittedBefore[id] <= |c.emitted|
            && c.emitted[..c.emittedBefore[id]] <= c.world.host.sink <= c.emitted
  {
    RunIsInOrder(channels, steps, n);
    var c := channels[n];
    assert c.emitted[..|c.world.host.sink|] == c.world.host.sink;
  }

  // ── first in, first out ──────────────────────────────────────────────

  function Ids(requests: seq<Request>): (ids: seq<nat>)
    ensures |ids| == |requests| && forall i :: 0 <= i < |ids| ==> ids[i] == requests[i].id
  {
    seq(|requests|, i requires 0 <= i < |requests| => requests[i].id)
  }

  function HeldId(hand: Option<Request>): seq<nat> {
    match hand case Some(request) => [request.id] case None => []
  }

  /** What a step hands to the host's writer. */
  function SentBy(step: Step): seq<Request> {
    match step case Send(request) => [request] case _ => []
  }

  /** What the topic reads in a step. */
  function ReadBy(c: Channel, step: Step): seq<Request>
    requires Enabled(c, step)
  {
    if step.TopicRead? then [c.wire[0]] else []
  }

  /** The id of the response the host reads in a step. */
  function AnsweredBy(c: Channel, step: Step): seq<nat>
    requires Enabled(c, step)
  {
    if step.HostRead? && c.back[0].Reply? then [c.back[0].response.id] else []
  }

  ghost function SentIn(steps: seq<Step>, n: nat): seq<Request>
    requires n <= |steps|
  {
    if n == 0 then [] else SentIn(steps, n - 1) + SentBy(steps[n - 1])
  }

  lemma StepOf(channels: seq<Channel>, steps: seq<Step>, n: nat)
    requires Run(channels, steps) && n < |steps|
    ensures Next(channels[n], steps[n], channels[n + 1])
  {
  }

  ghost function ReadIn(channels: seq<Channel>, steps: seq<Step>, n: nat): seq<Request>
    requires Run(channels, steps) && n <= |steps|
  {
    if n == 0 then []
    else
      StepOf(channels, steps, n - 1);
      ReadIn(channels, steps, n - 1) + ReadBy(channels[n - 1], steps[n - 1])
  }

  ghost function AnsweredIn(channels: seq<Channel>, steps: seq<Step>, n: nat): seq<nat>
    requires Run(channels, steps) && n <= |steps|
  {
    if n == 0 then []
    else
      StepOf(channels, steps, n - 1);
      AnsweredIn(channels, steps, n - 1) + AnsweredBy(channels[n - 1], steps[n - 1])
  }

  lemma MoveOver<T>(a: seq<T>, b: seq<T>, c: seq<T>, d: seq<T>)
    ensures b != [] ==> a + b + c + [] == (a + [b[0]]) + b[1..] + c
    ensures c != [] ==> a + b + c + [] == (a + []) + (b + [c[0]]) + c[1..]
    ensures a + b + c + d == (a + []) + b + (c + d)
  {
  }

  lemma RequestsStep(c: Channel, step: Step, c': Channel, read: seq<Request>)
    requires Next(c, step, c')
    ensures read + c.wire + c.world.host.outbound + SentBy(step)
         == (read + ReadBy(c, step)) + c'.wire + c'.world.host.outbound
  {
    var (wire, outbound) := (c.wire, c.world.host.outbound);
    MoveOver(read, wire, outbound, SentBy(step));
    match step
    case Send(request) => assert c'.world.host.outbound == outbound + [request];
    case HostWrite => assert c'.wire == wire + [outbound[0]] && c'.world.host.outbound == outbound[1..];
    case TopicRead => assert c'.wire == wire[1..];
    case _ => assert c'.world.host.outbound == outbound + [];
  }

  lemma IdsAppend(requests: seq<Request>, more: seq<Request>)
    ensures Ids(requests + more) == Ids(requests) + Ids(more)
  {
  }

  lemma ReplyIdsSplit(line: Line, lines: seq<Line>)
    ensures TopicSdk.ReplyIds([line]) == if line.Reply? then [line.response.id] else []
    ensures TopicSdk.ReplyIds([line] + lines) == TopicSdk.ReplyIds([line]) + TopicSdk.ReplyIds(lines)
    ensures TopicSdk.ReplyIds(lines + [line]) == TopicSdk.ReplyIds(lines) + TopicSdk.ReplyIds([line])
  {
    assert [line][..0] == [];
    TopicSdk.ReplyIdsConcat([line], lines);
    TopicSdk.ReplyIdsConcat(lines, [line]);
  }

  lemma Regroup<T>(a: seq<T>, x: seq<T>, y: seq<T>, h: seq<T>)
    ensures a + (x + y) + h + [] == (a + x) + y + h
    ensures a + x + h + [] == (a + []) + (x + h) + []
    ensures a + x + [] + h == (a + []) + x + h
    ensures a + x + h + [] == (a + []) + x + h
  {
  }

  lemma BackChanges(c: Channel, step: Step, c': Channel) returns (replied: seq<nat>)
    requires Next(c, step, c')
    ensures var (back, back') := (TopicSdk.ReplyIds(c.back), TopicSdk.ReplyIds(c'.back));
            if step.HostRead? then back == AnsweredBy(c, step) + back' && replied == [] else back' == back + replied
    ensures replied == if step.TopicReply? then HeldId(c.hand) else []
  {
    replied := [];
    match step
    case TopicNotify(setting) => ReplyIdsSplit(Notify(setting), c.back);
    case TopicReply(handling) =>
      ReplyIdsSplit(Reply(TopicSdk.Respond(c.hand.value, handling)), c.back);
      replied := HeldId(c.hand);
    case HostRead =>
      assert c.back == [c.back[0]] + c'.back;
      ReplyIdsSplit(c.back[0], c'.back);
    case _ =>
  }

  lemma HandChanges(c: Channel, step: Step, c': Channel)
    requires Next(c, step, c')
    ensures HeldId(c'.hand) == if step.TopicRead? then Ids(ReadBy(c, step)) else if step.TopicReply? then [] else HeldId(c.hand)
    ensures step.TopicRead? ==> HeldId(c.hand) == []
    ensures !step.TopicRead? ==> Ids(ReadBy(c, step)) == []
    ensures !step.HostRead? ==> AnsweredBy(c, step) == []
  {
  }

  lemma RepliesStep(c: Channel, step: Step, c': Channel, answered: seq<nat>)
    requires Next(c, step, c')
    ensures answered + TopicSdk.ReplyIds(c.back) + HeldId(c.hand) + Ids(ReadBy(c, step))
         == (answered + AnsweredBy(c, step)) + TopicSdk.ReplyIds(c'.back) + HeldId(c'.hand)
  {
    var (back', held') := (TopicSdk.ReplyIds(c'.back), HeldId(c'.hand));
    var replied := BackChanges(c, step, c');
    HandChanges(c, step, c');
    if step.HostRead? {
      Regroup(answered, AnsweredBy(c, step), back', held');
    } else if step.TopicRead? {
      Regroup(answered, back', [], held');
    } else {
      Regroup(answered, TopicSdk.ReplyIds(c.back), [], HeldId(c.hand));
    }
  }

  /** The topic reads the requests in the order the host sent them, and none is lost on the way. */
  lemma {:induction false} RequestsStayInOrder(channels: seq<Channel>, steps: seq<Step>, n: nat)
    requires Run(channels, steps) && n <= |steps|
    ensures SentIn(steps, n) == ReadIn(channels, steps, n) + channels[n].wire + channels[n].world.host.outbound
  {
    if n == 0 {
    } else {
      RequestsStayInOrder(channels, steps, n - 1);
      StepOf(channels, steps, n - 1);
      RequestsStep(channels[n - 1], steps[n - 1], channels[n], ReadIn(channels, steps, n - 1));
    }
  }

  /** The ids read by the topic are those answered to the host, then those of the replies on their
      way, then the one in hand. */
  lemma {:induction false} RepliesStayInOrder(channels: seq<Channel>, steps: seq<Step>, n: nat)
    requires Run(channels, steps) && n <= |steps|
    ensures Ids(ReadIn(channels, steps, n))
         == AnsweredIn(channels, steps, n) + TopicSdk.ReplyIds(channels[n].back) + HeldId(channels[n].hand)
  {
    if n == 0 {
    } else {
      RepliesStayInOrder(channels, steps, n - 1);
      StepOf(channels, steps, n - 1);
      IdsAppend(ReadIn(channels, steps, n - 1), ReadBy(channels[n - 1], steps[n - 1]));
      RepliesStep(channels[n - 1], steps[n - 1], channels[n], AnsweredIn(channels, steps, n - 1));
    }
  }

  lemma PrefixOfParts<T>(a: seq<T>, b: seq<T>, c: seq<T>, i: nat)
    requires i < |a|
    ensures i < |a + b + c| && (a + b + c)[i] == a[i]
  {
  }

  /** The i-th response the host reads answers the i-th request it sent, for every i. */
  lemma AnswersComeInOrder(channels: seq<Channel>, steps: seq<Step>, n: nat, i: nat)
    requires Run(channels, steps) && n <= |steps| && i < |AnsweredIn(channels, steps, n)|
    ensures i < |SentIn(steps, n)| && AnsweredIn(channels, steps, n)[i] == SentIn(steps, n)[i].id
  {
    var (c, read, answered) := (channels[n], ReadIn(channels, steps, n), AnsweredIn(channels, steps, n));
    RequestsStayInOrder(channels, steps, n);
    RepliesStayInOrder(channels, steps, n);
    PrefixOfParts(answered, TopicSdk.ReplyIds(c.back), HeldId(c.hand), i);
    PrefixOfParts(read, c.wire, c.world.host.outbound, i);
  }
}
