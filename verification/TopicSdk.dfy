/** The topic side: read a request, run the handler, send what it produced, repeat. */
module TopicSdk {
  import opened Common
  import opened TopicProto

  /** What the topic does with the n-th request it reads: the settings its handler sends,
      in call order, and its answer.  `badParams` when the params do not parse. */
  datatype Handling = Handling(badParams: bool, settings: seq<Setting>, answer: Result<Json, TopicError>, message: string)

  datatype Input = Unreadable | Read(request: Request)

  predicate Handles(verb: string) {
    verb == INIT || verb == INGEST || verb == EXECUTE
  }

  /** `dispatch`: the response carries the id of the request, whatever happens. */
  function Respond(request: Request, h: Handling): (r: Response)
    ensures r.id == request.id
  {
    if Handles(request.verb) then
      if h.badParams then Error(request.id, RpcError(CODE_INVALID_PARAMS, h.message, None))
      else
        match h.answer
        case Ok(value) => Success(request.id, value)
        case Err(e) => Error(request.id, ToRpcError(e, h.message))
    else if request.verb == SHUTDOWN then Success(request.id, JNull)
    else Error(request.id, RpcError(CODE_METHOD_NOT_FOUND, h.message, None))
  }

  /** What the host's caller sees is exactly the topic's own value or error; a request the
      handler never saw comes back as an `Execution` error naming the caller's activity. */
  lemma AnswerSurvives(activity: string, request: Request, h: Handling)
    ensures Handles(request.verb) && !h.badParams ==> Payload(activity, Respond(request, h)) == h.answer
    ensures Handles(request.verb) && h.badParams ==>
              Payload(activity, Respond(request, h)) == Err(Execution(activity, h.message))
    ensures !Handles(request.verb) && request.verb != SHUTDOWN ==>
              Payload(activity, Respond(request, h)) == Err(Execution(activity, h.message))
  {
    if h.answer.Err? { TopicErrorSurvives(activity, h.answer.error, h.message); }
  }

  /** The settings a request causes; the handler runs only on good params of a known method. */
  function Effects(request: Request, h: Handling): seq<Setting> {
    if Handles(request.verb) && !h.badParams then h.settings else []
  }

  function Notifications(settings: seq<Setting>): seq<Line> {
    seq(|settings|, i requires 0 <= i < |settings| => Notify(settings[i]))
  }

  /** Lines put on the writer channel for one request: effects first, then the response. */
  function Turn(request: Request, h: Handling): seq<Line> {
    Notifications(Effects(request, h)) + [Reply(Respond(request, h))]
  }

  /** Has the loop stopped before reading input `n`? */
  predicate Stopped(inputs: seq<Input>, n: nat)
    requires n <= |inputs|
  {
    exists i :: 0 <= i < n && inputs[i].Read? && inputs[i].request.verb == SHUTDOWN
  }

  function Output(inputs: seq<Input>, handle: nat -> Handling, n: nat): seq<Line>
    requires n <= |inputs|
  {
    if n == 0 then []
    else if Stopped(inputs, n - 1) || inputs[n - 1].Unreadable? then Output(inputs, handle, n - 1)
    else Output(inputs, handle, n - 1) + Turn(inputs[n - 1].request, handle(n - 1))
  }

  lemma {:induction false} StoppedOutput(inputs: seq<Input>, handle: nat -> Handling, n: nat, m: nat)
    requires n <= m <= |inputs| && Stopped(inputs, n)
    ensures Output(inputs, handle, m) == Output(inputs, handle, n)
    decreases m
  {
    if n < m { StoppedOutput(inputs, handle, n, m - 1); }
  }

  // ── the output, from the requests and the handler alone ──────────────

  /** Input `i` is a request, and no shutdown came before it. */
  ghost predicate WasRead(inputs: seq<Input>, i: nat) {
    i < |inputs| && inputs[i].Read?
    && forall j :: 0 <= j < i && inputs[j].Read? ==> inputs[j].request.verb != "shutdown"
  }

  predicate HasHandler(verb: string) {
    verb == "init" || verb == "ingest" || verb == "execute"
  }

  /** The settings sent on behalf of input `i`. */
  ghost function SentFor(inputs: seq<Input>, handle: nat -> Handling, i: nat): seq<Setting> {
    if WasRead(inputs, i) && HasHandler(inputs[i].request.verb) && !handle(i).badParams then handle(i).settings else []
  }

  ghost function SentForAll(inputs: seq<Input>, handle: nat -> Handling, n: nat): seq<Setting> {
    if n == 0 then [] else SentForAll(inputs, handle, n - 1) + SentFor(inputs, handle, n - 1)
  }

  ghost function ReadCount(inputs: seq<Input>, n: nat): nat {
    if n == 0 then 0 else ReadCount(inputs, n - 1) + (if WasRead(inputs, n - 1) then 1 else 0)
  }

  /** Where the reply to input `i` stands: after all settings sent for it and before it, and after
      one reply for each earlier request. */
  ghost function ReplyPlace(inputs: seq<Input>, handle: nat -> Handling, i: nat): nat {
    |SentForAll(inputs, handle, i + 1)| + ReadCount(inputs, i)
  }

  predicate IsError(r: Response, code: int, message: string, data: Option<Json>) {
    r.Error? && r.error == RpcError(code, message, data)
  }

  ghost predicate AnswersRequest(request: Request, h: Handling, line: Line) {
    && line.Reply? && line.response.id == request.id
    && if request.verb == "shutdown" then line.response == Success(request.id, JNull)
       else if !HasHandler(request.verb) then IsError(line.response, -32601, h.message, None)
       else if h.badParams then IsError(line.response, -32602, h.message, None)
       else
         match h.answer
         case Ok(value) => line.response == Success(request.id, value)
         case Err(e) => IsError(line.response, -32000, h.message, Some(ErrorData(e)))
  }

  /** Input `i` is answered at its place, with its settings right in front of the reply. */
  ghost predicate AnsweredInPlace(inputs: seq<Input>, handle: nat -> Handling, i: nat, out: seq<Line>)
    requires WasRead(inputs, i)
  {
    var (place, own) := (ReplyPlace(inputs, handle, i), SentFor(inputs, handle, i));
    && |own| <= place < |out|
    && AnswersRequest(inputs[i].request, handle(i), out[place])
    && forall j :: 0 <= j < |own| ==> out[place - |own| + j] == Notify(own[j])
  }

  ghost predicate AllInPlace(inputs: seq<Input>, handle: nat -> Handling, n: nat, out: seq<Line>) {
    forall i: nat :: i < n && WasRead(inputs, i) ==> AnsweredInPlace(inputs, handle, i, out)
  }

  /** All there is in the output, in order. */
  ghost predicate OutputIs(inputs: seq<Input>, handle: nat -> Handling, n: nat, out: seq<Line>) {
    && |out| == |SentForAll(inputs, handle, n)| + ReadCount(inputs, n)
    && Settings(out) == SentForAll(inputs, handle, n)
    && AllInPlace(inputs, handle, n, out)
  }

  lemma WasReadExactly(inputs: seq<Input>, i: nat)
    requires i < |inputs|
    ensures WasRead(inputs, i) <==> !Stopped(inputs, i) && inputs[i].Read?
  {
  }

  lemma {:induction false} NotificationsAreSettings(settings: seq<Setting>)
    ensures Settings(Notifications(settings)) == settings
  {
    if settings == [] {
    } else {
      var init := settings[..|settings| - 1];
      NotificationsAreSettings(init);
      assert Notifications(settings)[..|settings| - 1] == Notifications(init);
      assert settings == init + [settings[|settings| - 1]];
    }
  }

  lemma TurnSettings(request: Request, h: Handling)
    ensures Settings(Turn(request, h)) == Effects(request, h)
  {
    var reply := [Reply(Respond(request, h))];
    SettingsConcat(Notifications(Effects(request, h)), reply);
    NotificationsAreSettings(Effects(request, h));
    assert Settings(reply) == Settings(reply[..0]) == [];
  }

  lemma StaysInPlace(inputs: seq<Input>, handle: nat -> Handling, i: nat, out: seq<Line>, more: seq<Line>)
    requires WasRead(inputs, i) && AnsweredInPlace(inputs, handle, i, out)
    ensures AnsweredInPlace(inputs, handle, i, out + more)
  {
  }

  lemma RespondAnswers(request: Request, h: Handling)
    ensures AnswersRequest(request, h, Reply(Respond(request, h)))
  {
  }

  lemma TurnInPlace(inputs: seq<Input>, handle: nat -> Handling, i: nat, out: seq<Line>)
    requires WasRead(inputs, i) && |out| == |SentForAll(inputs, handle, i)| + ReadCount(inputs, i)
    ensures AnsweredInPlace(inputs, handle, i, out + Turn(inputs[i].request, handle(i)))
  {
    var (request, h) := (inputs[i].request, handle(i));
    var own := SentFor(inputs, handle, i);
    assert own == Effects(request, h);
    RespondAnswers(request, h);
    var all := out + Turn(request, h);
    assert ReplyPlace(inputs, handle, i) == |out| + |own|;
    assert all[|out| + |own|] == Turn(request, h)[|own|];
    forall j | 0 <= j < |own| ensures all[|out| + j] == Notify(own[j]) { assert all[|out| + j] == Turn(request, h)[j]; }
  }

  lemma AllStayInPlace(inputs: seq<Input>, handle: nat -> Handling, m: nat, out: seq<Line>, more: seq<Line>)
    requires AllInPlace(inputs, handle, m, out)
    requires WasRead(inputs, m) ==> AnsweredInPlace(inputs, handle, m, out + more)
    ensures AllInPlace(inputs, handle, m + 1, out + more)
  {
    forall i: nat | i < m && WasRead(inputs, i) ensures AnsweredInPlace(inputs, handle, i, out + more) {
      StaysInPlace(inputs, handle, i, out, more);
    }
  }

  lemma TurnSize(inputs: seq<Input>, handle: nat -> Handling, m: nat)
    requires WasRead(inputs, m)
    ensures var turn := Turn(inputs[m].request, handle(m));
            Settings(turn) == SentFor(inputs, handle, m) && |turn| == |SentFor(inputs, handle, m)| + 1
  {
    TurnSettings(inputs[m].request, handle(m));
  }

  lemma TurnExtends(inputs: seq<Input>, handle: nat -> Handling, m: nat, out: seq<Line>, turn: seq<Line>, own: seq<Setting>)
    requires WasRead(inputs, m) && own == SentFor(inputs, handle, m)
    requires |out| == |SentForAll(inputs, handle, m)| + ReadCount(inputs, m)
    requires Settings(out) == SentForAll(inputs, handle, m)
    requires Settings(turn) == own && |turn| == |own| + 1
    ensures |out + turn| == |SentForAll(inputs, handle, m + 1)| + ReadCount(inputs, m + 1)
    ensures Settings(out + turn) == SentForAll(inputs, handle, m + 1)
  {
    SettingsConcat(out, turn);
  }

  lemma NothingExtends(inputs: seq<Input>, handle: nat -> Handling, m: nat, out: seq<Line>)
    requires !WasRead(inputs, m) && OutputIs(inputs, handle, m, out)
    ensures OutputIs(inputs, handle, m + 1, out)
  {
  }

  lemma {:induction false} OutputIsSo(inputs: seq<Input>, handle: nat -> Handling, n: nat)
    requires n <= |inputs|
    ensures OutputIs(inputs, handle, n, Output(inputs, handle, n))
  {
    if n == 0 {
    } else {
      var m := n - 1;
      OutputIsSo(inputs, handle, m);
      WasReadExactly(inputs, m);
      if WasRead(inputs, m) {
        var (out, turn) := (Output(inputs, handle, m), Turn(inputs[m].request, handle(m)));
        TurnSize(inputs, handle, m);
        TurnExtends(inputs, handle, m, out, turn, SentFor(inputs, handle, m));
        TurnInPlace(inputs, handle, m, out);
        AllStayInPlace(inputs, handle, m, out, turn);
      } else {
        NothingExtends(inputs, handle, m, Output(inputs, handle, m));
      }
    }
  }

  /** `run_with_io` until end of input or a shutdown request. */
  method RunWithIo(inputs: seq<Input>, handle: nat -> Handling) returns (out: seq<Line>)
    ensures out == Output(inputs, handle, |inputs|)
    ensures OutputIs(inputs, handle, |inputs|, out)
  {
    out := [];
    var n := 0;
    while n < |inputs|
      invariant 0 <= n <= |inputs|
      invariant !Stopped(inputs, n) && out == Output(inputs, handle, n)
    {
      if inputs[n].Read? {
        var request := inputs[n].request;
        var h := handle(n);
        var effects := Effects(request, h);
        for i := 0 to |effects|
          invariant out == Output(inputs, handle, n) + Notifications(effects)[..i]
        {
          out := out + [Notify(effects[i])];
        }
        assert Notifications(effects)[..|effects|] == Notifications(effects);
        out := out + [Reply(Respond(request, h))];
        assert out == Output(inputs, handle, n + 1);
        if request.verb == SHUTDOWN {
          StoppedOutput(inputs, handle, n + 1, |inputs|);
          OutputIsSo(inputs, handle, |inputs|);
          return;
        }
      }
      n := n + 1;
    }
    OutputIsSo(inputs, handle, |inputs|);
  }

  /** Ids of the responses in a stretch of output, in order. */
  function ReplyIds(lines: seq<Line>): seq<nat> {
    if lines == [] then []
    else
      var last := lines[|lines| - 1];
      ReplyIds(lines[..|lines| - 1]) + (if last.Reply? then [last.response.id] else [])
  }

  /** Ids of the requests read before the loop stops, in order. */
  function RequestIds(inputs: seq<Input>, n: nat): seq<nat>
    requires n <= |inputs|
  {
    if n == 0 then []
    else if Stopped(inputs, n - 1) || inputs[n - 1].Unreadable? then RequestIds(inputs, n - 1)
    else RequestIds(inputs, n - 1) + [inputs[n - 1].request.id]
  }

  lemma {:induction false} ReplyIdsConcat(a: seq<Line>, b: seq<Line>)
    ensures ReplyIds(a + b) == ReplyIds(a) + ReplyIds(b)
  {
    if b == [] {
      assert a + b == a;
    } else {
      ReplyIdsConcat(a, b[..|b| - 1]);
      assert (a + b)[..|a + b| - 1] == a + b[..|b| - 1];
    }
  }

  lemma {:induction false} NotificationsHaveNoReplies(settings: seq<Setting>)
    ensures ReplyIds(Notifications(settings)) == []
  {
    if settings == [] {
    } else {
      NotificationsHaveNoReplies(settings[..|settings| - 1]);
      assert Notifications(settings)[..|settings| - 1] == Notifications(settings[..|settings| - 1]);
    }
  }

  lemma TurnIds(request: Request, h: Handling)
    ensures ReplyIds(Turn(request, h)) == [request.id]
  {
    ReplyIdsConcat(Notifications(Effects(request, h)), [Reply(Respond(request, h))]);
    NotificationsHaveNoReplies(Effects(request, h));
    assert ReplyIds([Reply(Respond(request, h))]) == ReplyIds([]) + [request.id];
  }

  lemma IdsExtend(out: seq<Line>, turn: seq<Line>, id: nat)
    requires ReplyIds(turn) == [id]
    ensures ReplyIds(out + turn) == ReplyIds(out) + [id]
  {
    ReplyIdsConcat(out, turn);
  }

  lemma TurnOf(inputs: seq<Input>, handle: nat -> Handling, m: nat) returns (turn: seq<Line>)
    requires m < |inputs| && !Stopped(inputs, m) && inputs[m].Read?
    ensures Output(inputs, handle, m + 1) == Output(inputs, handle, m) + turn
    ensures ReplyIds(turn) == [inputs[m].request.id]
  {
    turn := Turn(inputs[m].request, handle(m));
    TurnIds(inputs[m].request, handle(m));
  }

  /** Every request read is answered exactly once, in the order read; unreadable lines get nothing. */
  lemma {:induction false} OneReplyPerRequest(inputs: seq<Input>, handle: nat -> Handling, n: nat)
    requires n <= |inputs|
    ensures ReplyIds(Output(inputs, handle, n)) == RequestIds(inputs, n)
  {
    if n == 0 {
    } else {
      OneReplyPerRequest(inputs, handle, n - 1);
      if !Stopped(inputs, n - 1) && inputs[n - 1].Read? {
        var turn := TurnOf(inputs, handle, n - 1);
        IdsExtend(Output(inputs, handle, n - 1), turn, inputs[n - 1].request.id);
      }
    }
  }
}
