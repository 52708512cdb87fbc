/** The host side of a topic connection: calls multiplexed by id, one reader, one writer. */
module TopicHost {
  import opened Common
  import opened TopicProto

  /** What a call's one-shot receiver holds: a response, or a dropped sender. */
  datatype Resolution = Answered(response: Response) | ConnectionClosed

  /** The shared state of a connection.  `resolved` holds the one-shot receivers whose
      sender has been used or dropped. */
  datatype Host = Host(
    nextId: nat,
    pending: set<nat>,
    outbound: seq<Request>,
    resolved: map<nat, Resolution>,
    sink: seq<Setting>)

  const CONNECTED := Host(0, {}, [], map[], [])

  function Drew(h: Host): Host {
    h.(nextId := h.nextId + 1)
  }

  function Registered(h: Host, id: nat): Host {
    h.(pending := h.pending + {id})
  }

  function Sent(h: Host, request: Request): Host {
    h.(outbound := h.outbound + [request])
  }

  /** The writer task is gone: the dangling entry is removed again. */
  function Forgotten(h: Host, id: nat): Host {
    h.(pending := h.pending - {id})
  }

  function AfterLine(h: Host, line: Line): Host {
    match line
    case Garbage => h
    case Notify(setting) => h.(sink := h.sink + [setting])
    case Reply(r) =>
      if r.id in h.pending then h.(pending := h.pending - {r.id}, resolved := h.resolved[r.id := Answered(r)])
      else h
  }

  function AfterLines(h: Host, lines: seq<Line>): Host {
    if lines == [] then h else AfterLine(AfterLines(h, lines[..|lines| - 1]), lines[|lines| - 1])
  }

  /** `pending.clear()` drops every sender it held. */
  function Drained(h: Host): Host {
    h.(pending := {}, resolved := h.resolved + map id | id in h.pending :: ConnectionClosed)
  }

  // ── a whole stretch of lines ─────────────────────────────────────────

  predicate Answers(line: Line, id: nat) {
    line.Reply? && line.response.id == id
  }

  /** Line `k` is the first response with this id. */
  predicate FirstAnswer(lines: seq<Line>, id: nat, k: nat) {
    k < |lines| && Answers(lines[k], id) && forall j :: 0 <= j < k ==> !Answers(lines[j], id)
  }

  /** What a pending call holds after these lines: its first response, or nothing yet. */
  ghost predicate HoldsFirst(h: Host, lines: seq<Line>, id: nat) {
    && (id in h.pending <==> forall k: nat :: !FirstAnswer(lines, id, k))
    && forall k: nat :: FirstAnswer(lines, id, k) ==> id in h.resolved && h.resolved[id] == Answered(lines[k].response)
  }

  lemma {:induction false} NoAnswerBefore(lines: seq<Line>, id: nat, n: nat)
    requires n <= |lines| && forall k: nat :: !FirstAnswer(lines, id, k)
    ensures forall j :: 0 <= j < n ==> !Answers(lines[j], id)
  {
    if n == 0 {
    } else {
      NoAnswerBefore(lines, id, n - 1);
      assert !FirstAnswer(lines, id, n - 1);
    }
  }

  lemma FirstAnswerGrows(lines: seq<Line>, line: Line, id: nat)
    ensures forall k: nat :: k < |lines| ==> (FirstAnswer(lines + [line], id, k) <==> FirstAnswer(lines, id, k))
    ensures FirstAnswer(lines + [line], id, |lines|) <==> Answers(line, id) && forall k: nat :: !FirstAnswer(lines, id, k)
  {
    var all := lines + [line];
    assert forall j :: 0 <= j < |lines| ==> all[j] == lines[j];
    if (forall k: nat :: !FirstAnswer(lines, id, k)) { NoAnswerBefore(lines, id, |lines|); }
  }

  lemma {:induction false} PendingHoldsFirst(h: Host, lines: seq<Line>, id: nat)
    requires id in h.pending
    ensures HoldsFirst(AfterLines(h, lines), lines, id)
  {
    if lines == [] {
    } else {
      var (init, last) := (lines[..|lines| - 1], lines[|lines| - 1]);
      PendingHoldsFirst(h, init, id);
      FirstAnswerGrows(init, last, id);
      assert init + [last] == lines;
    }
  }

  lemma {:induction false} OthersStay(h: Host, lines: seq<Line>)
    ensures var h' := AfterLines(h, lines);
            && h'.nextId == h.nextId && h'.outbound == h.outbound && h'.sink == h.sink + Settings(lines)
            && h'.pending <= h.pending && h'.resolved.Keys == h.resolved.Keys + (h.pending - h'.pending)
            && forall id :: id in h.resolved && id !in h.pending ==> h'.resolved[id] == h.resolved[id]
  {
    if lines == [] {
    } else {
      OthersStay(h, lines[..|lines| - 1]);
    }
  }

  /** A reader that has read these lines and stopped: each call that was pending holds the first
      response with its id or finds the connection closed, every setting is in the sink, in order,
      and what was there before is untouched. */
  ghost predicate ReadIs(h: Host, lines: seq<Line>, h': Host) {
    && h'.pending == {} && h'.nextId == h.nextId && h'.outbound == h.outbound && h'.sink == h.sink + Settings(lines)
    && h'.resolved.Keys == h.resolved.Keys + h.pending
    && (forall id :: id in h.resolved && id !in h.pending ==> h'.resolved[id] == h.resolved[id])
    && forall id :: id in h.pending ==>
         && (forall k: nat :: FirstAnswer(lines, id, k) ==> h'.resolved[id] == Answered(lines[k].response))
         && ((forall k: nat :: !FirstAnswer(lines, id, k)) ==> h'.resolved[id] == ConnectionClosed)
  }

  lemma ReadIsSo(h: Host, lines: seq<Line>)
    ensures ReadIs(h, lines, Drained(AfterLines(h, lines)))
  {
    OthersStay(h, lines);
    forall id | id in h.pending ensures HoldsFirst(AfterLines(h, lines), lines, id) { PendingHoldsFirst(h, lines, id); }
  }

  /** `SubprocessTopic` and its two tasks. */
  class Subprocess {
    var nextId: nat
    var pending: set<nat>
    var outbound: seq<Request>
    var resolved: map<nat, Resolution>
    var sink: seq<Setting>

    ghost function Contents(): Host
      reads this
    {
      Host(nextId, pending, outbound, resolved, sink)
    }

    constructor ()
      ensures Contents() == CONNECTED
    {
      nextId, pending, outbound, resolved, sink := 0, {}, [], map[], [];
    }

    /** `next_id.fetch_add(1)`. */
    method Draw() returns (id: nat)
      modifies this
      ensures id == old(nextId)
      ensures Contents() == Drew(old(Contents()))
    {
      id := nextId;
      nextId := nextId + 1;
    }

    method Register(id: nat)
      modifies this
      ensures Contents() == Registered(old(Contents()), id)
    {
      pending := pending + {id};
    }

    /** `outbound_tx.send`. */
    method Send(request: Request, writerUp: bool) returns (ok: bool)
      modifies this
      ensures ok == writerUp
      ensures Contents() == if ok then Sent(old(Contents()), request) else Forgotten(old(Contents()), request.id)
    {
      ok := writerUp;
      if ok {
        outbound := outbound + [request];
      } else {
        pending := pending - {request.id};
      }
    }

    /** `send_request` up to its wait, with no other task in between; the state machine below
        interleaves its three parts freely. */
    method SendRequest(verb: string, params: Json, writerUp: bool) returns (id: nat, ok: bool)
      modifies this
      ensures id == old(nextId) && ok == writerUp
      ensures var h := Registered(Drew(old(Contents())), id);
              Contents() == if ok then Sent(h, Request(id, verb, params)) else Forgotten(h, id)
    {
      id := Draw();
      Register(id);
      ok := Send(Request(id, verb, params), writerUp);
    }

    method HandleLine(line: Line)
      modifies this
      ensures Contents() == AfterLine(old(Contents()), line)
    {
      match line
      case Garbage =>
      case Notify(setting) => sink := sink + [setting];
      case Reply(response) =>
        if response.id in pending {
          pending := pending - {response.id};
          resolved := resolved[response.id := Answered(response)];
        }
    }

    /** The reader task: every line up to end of file, an error or shutdown; then the drain. */
    method ReadLines(lines: seq<Line>)
      modifies this
      ensures Contents() == Drained(AfterLines(old(Contents()), lines))
      ensures ReadIs(old(Contents()), lines, Contents())
    {
      var n := 0;
      while n < |lines|
        invariant n <= |lines|
        invariant Contents() == AfterLines(old(Contents()), lines[..n])
      {
        HandleLine(lines[n]);
        n := n + 1;
        assert lines[..n][..n - 1] == lines[..n - 1];
      }
      assert lines[..n] == lines;
      resolved := resolved + map id | id in pending :: ConnectionClosed;
      pending := {};
      ReadIsSo(old(Contents()), lines);
    }
  }

  // ── any number of callers, against any remote ────────────────────────

  /** The connection with its callers: `drawn` ids are not yet registered, `unsent` ones are
      registered but not yet sent, `failed` ones found the writer gone. */
  datatype World = World(
    host: Host,
    drawn: set<nat>,
    unsent: set<nat>,
    failed: set<nat>,
    reading: bool,
    writing: bool)

  const START := World(CONNECTED, {}, {}, {}, true, true)

  datatype Step =
    | Draw(id: nat)
    | Register(id: nat)
    | Send(request: Request)
    | SendFails(id: nat)
    | Receive(line: Line)
    | Drain
    | WriterStops

  predicate Enabled(w: World, step: Step) {
    match step
    case Draw(id) => id == w.host.nextId
    case Register(id) => id in w.drawn
    case Send(request) => request.id in w.unsent && w.writing
    case SendFails(id) => id in w.unsent && !w.writing
    case Receive(_) => w.reading
    case Drain => w.reading
    case WriterStops => w.writing
  }

  function After(w: World, step: Step): World {
    match step
    case Draw(id) => w.(host := Drew(w.host), drawn := w.drawn + {id})
    case Register(id) => w.(host := Registered(w.host, id), drawn := w.drawn - {id}, unsent := w.unsent + {id})
    case Send(request) => w.(host := Sent(w.host, request), unsent := w.unsent - {request.id})
    case SendFails(id) =>
      w.(host := Forgotten(w.host, id), unsent := w.unsent - {id}, failed := w.failed + {id})
    case Receive(line) => w.(host := AfterLine(w.host, line))
    case Drain => w.(host := Drained(w.host), reading := false)
    case WriterStops => w.(writing := false)
  }

  predicate Next(w: World, step: Step, w': World) {
    Enabled(w, step) && w' == After(w, step)
  }

  ghost predicate Run(worlds: seq<World>, steps: seq<Step>) {
    |worlds| == |steps| + 1 && worlds[0] == START
    && forall n :: 0 <= n < |steps| ==> Next(worlds[n], steps[n], worlds[n + 1])
  }

  /** What `send_request` has returned to the caller of `id`, if it has returned. */
  function Outcome(w: World, id: nat): Option<Resolution> {
    if id in w.failed then Some(ConnectionClosed)
    else if id in w.host.resolved && id !in w.unsent then Some(w.host.resolved[id])
    else None
  }

  ghost predicate Sound(w: World) {
    && (forall id :: id in w.drawn || id in w.host.pending || id in w.host.resolved || id in w.failed ==> id < w.host.nextId)
    && (forall id :: id in w.unsent ==> id in w.host.pending || id in w.host.resolved)
    && (forall id :: id in w.drawn ==> id !in w.host.pending && id !in w.host.resolved && id !in w.failed)
    && (forall id :: id in w.host.pending ==> id !in w.host.resolved && id !in w.failed)
    && (forall id :: id in w.failed ==> id !in w.unsent)
    && (forall id :: id in w.host.resolved && w.host.resolved[id].Answered? ==> w.host.resolved[id].response.id == id)
  }

  lemma NextKeepsSound(w: World, step: Step, w': World)
    requires Sound(w) && Next(w, step, w')
    ensures Sound(w')
  {
  }

  lemma NextKeepsOutcome(w: World, step: Step, w': World, id: nat)
    requires Sound(w) && Next(w, step, w') && Outcome(w, id).Some?
    ensures Outcome(w', id) == Outcome(w, id)
  {
  }

  /** Does this step settle call `id` if it is pending? */
  predicate Settles(step: Step, id: nat) {
    match step
    case Receive(line) => line.Reply? && line.response.id == id
    case Drain => true
    case SendFails(other) => other == id
    case _ => false
  }

  lemma PendingStep(w: World, step: Step, w': World, id: nat)
    requires Sound(w) && Next(w, step, w')
    ensures id in w'.host.pending <==> step == Register(id) || (id in w.host.pending && !Settles(step, id))
    ensures step == Register(id) ==> id !in w.host.pending
  {
  }

  lemma ResolvedStep(w: World, step: Step, w': World, id: nat, r: Response)
    requires Sound(w) && Next(w, step, w')
    ensures id in w'.host.resolved && w'.host.resolved[id] == Answered(r)
            <==> (id in w.host.resolved && w.host.resolved[id] == Answered(r))
                 || (step == Receive(Reply(r)) && r.id == id && id in w.host.pending)
  {
  }

  lemma {:induction false} RunIsSound(worlds: seq<World>, steps: seq<Step>, n: nat)
    requires Run(worlds, steps) && n <= |steps|
    ensures Sound(worlds[n])
  {
    if n == 0 {
    } else {
      RunIsSound(worlds, steps, n - 1);
      NextKeepsSound(worlds[n - 1], steps[n - 1], worlds[n]);
    }
  }

  function DrawsIn(steps: seq<Step>, n: nat): nat
    requires n <= |steps|
  {
    if n == 0 then 0 else DrawsIn(steps, n - 1) + (if steps[n - 1].Draw? then 1 else 0)
  }

  /** Ids are 0, 1, 2, .. in the order drawn. */
  lemma {:induction false} IdsAreCounted(worlds: seq<World>, steps: seq<Step>, n: nat)
    requires Run(worlds, steps) && n <= |steps|
    ensures worlds[n].host.nextId == DrawsIn(steps, n)
    ensures forall id :: n < |steps| && steps[n] == Draw(id) ==> id == DrawsIn(steps, n)
  {
    if n == 0 {
    } else {
      IdsAreCounted(worlds, steps, n - 1);
      assert Next(worlds[n - 1], steps[n - 1], worlds[n]);
    }
    if n < |steps| { assert Next(worlds[n], steps[n], worlds[n + 1]); }
  }

  /** A call returns at most once, whatever the remote writes: an outcome never changes. */
  lemma {:induction false} ReturnsAtMostOnce(worlds: seq<World>, steps: seq<Step>, n: nat, m: nat, id: nat)
    requires Run(worlds, steps) && n <= m <= |steps|
    requires Outcome(worlds[n], id).Some?
    ensures Outcome(worlds[m], id) == Outcome(worlds[n], id)
    decreases m
  {
    if n < m {
      ReturnsAtMostOnce(worlds, steps, n, m - 1, id);
      RunIsSound(worlds, steps, m - 1);
      NextKeepsOutcome(worlds[m - 1], steps[m - 1], worlds[m], id);
    }
  }

  /** Registered at `i`, and nothing settled it before `k`. */
  predicate WaitingSince(steps: seq<Step>, id: nat, i: nat, k: nat) {
    && i < k <= |steps|
    && steps[i] == Register(id)
    && forall j :: i < j < k ==> !Settles(steps[j], id)
  }

  /** A call is pending exactly when it has been registered and not settled since. */
  lemma {:induction false} PendingMeansWaiting(worlds: seq<World>, steps: seq<Step>, id: nat, k: nat)
    requires Run(worlds, steps) && k <= |steps|
    ensures id in worlds[k].host.pending <==> exists i: nat :: WaitingSince(steps, id, i, k)
  {
    if k == 0 {
    } else {
      var step := steps[k - 1];
      PendingMeansWaiting(worlds, steps, id, k - 1);
      RunIsSound(worlds, steps, k - 1);
      PendingStep(worlds[k - 1], step, worlds[k], id);
      if step == Register(id) {
        assert WaitingSince(steps, id, k - 1, k);
      } else if id in worlds[k].host.pending {
        var i: nat :| WaitingSince(steps, id, i, k - 1);
        assert WaitingSince(steps, id, i, k);
      } else if i: nat :| WaitingSince(steps, id, i, k) {
        assert WaitingSince(steps, id, i, k - 1);
      }
    }
  }

  /** Response `r`, the line received at step `k`, is the first with its id since the call was
      registered, with no drain in between. */
  ghost predicate AnswersAt(steps: seq<Step>, id: nat, k: nat, r: Response) {
    && k < |steps|
    && steps[k] == Receive(Reply(r))
    && r.id == id
    && exists i: nat :: WaitingSince(steps, id, i, k)
  }

  /** Correlation against any remote: a call's receiver gets `r` exactly when `r` carries the
      call's id and is the first such response after registration.  Unknown ids, duplicates
      and garbage resolve nothing. */
  lemma {:induction false} AnsweredByFirstOwnResponse(worlds: seq<World>, steps: seq<Step>, id: nat, n: nat, r: Response)
    requires Run(worlds, steps) && n <= |steps|
    ensures (id in worlds[n].host.resolved && worlds[n].host.resolved[id] == Answered(r))
            <==> exists k: nat :: k < n && AnswersAt(steps, id, k, r)
  {
    if n == 0 {
    } else {
      AnsweredByFirstOwnResponse(worlds, steps, id, n - 1, r);
      RunIsSound(worlds, steps, n - 1);
      PendingMeansWaiting(worlds, steps, id, n - 1);
      ResolvedStep(worlds[n - 1], steps[n - 1], worlds[n], id, r);
      assert AnswersAt(steps, id, n - 1, r)
        <==> steps[n - 1] == Receive(Reply(r)) && r.id == id && id in worlds[n - 1].host.pending;
    }
  }

  /** A send fails only once the writer is gone, and none succeeds after that. */
  lemma {:induction false} SendsFollowWriter(worlds: seq<World>, steps: seq<Step>, n: nat)
    requires Run(worlds, steps) && n <= |steps|
    ensures worlds[n].writing <==> WriterStops !in steps[..n]
    ensures n < |steps| && steps[n].Send? ==> WriterStops !in steps[..n]
    ensures n < |steps| && steps[n].SendFails? ==> WriterStops in steps[..n]
  {
    if n == 0 {
    } else {
      SendsFollowWriter(worlds, steps, n - 1);
      assert Next(worlds[n - 1], steps[n - 1], worlds[n]);
      assert steps[..n] == steps[..n - 1] + [steps[n - 1]];
    }
    if n < |steps| { assert Next(worlds[n], steps[n], worlds[n + 1]); }
  }

  lemma StoppedStep(w: World, step: Step, w': World, id: nat)
    requires Sound(w) && Next(w, step, w') && !w.reading
    ensures !w'.reading
    ensures step == Register(id) ==> id in w'.host.pending
    ensures id in w.host.pending ==> id in w'.host.pending || id in w'.failed
    ensures id in w.failed ==> id in w'.failed
  {
  }

  lemma {:induction false} StoppedStaysStopped(worlds: seq<World>, steps: seq<Step>, d: nat, n: nat)
    requires Run(worlds, steps) && d < n <= |steps| && steps[d] == Drain
    ensures !worlds[n].reading
  {
    if d < n - 1 {
      StoppedStaysStopped(worlds, steps, d, n - 1);
      RunIsSound(worlds, steps, n - 1);
      StoppedStep(worlds[n - 1], steps[n - 1], worlds[n], 0);
    }
  }

  /** A call registered after the reader has drained is resolved by no one: it waits for ever,
      unless its own send finds the writer gone. */
  lemma {:induction false} LateCallHangs(worlds: seq<World>, steps: seq<Step>, d: nat, i: nat, n: nat, id: nat)
    requires Run(worlds, steps) && d < i < n <= |steps|
    requires steps[d] == Drain && steps[i] == Register(id)
    ensures id in worlds[n].host.pending || id in worlds[n].failed
    ensures Outcome(worlds[n], id) == if id in worlds[n].failed then Some(ConnectionClosed) else None
  {
    if i < n - 1 { LateCallHangs(worlds, steps, d, i, n - 1, id); }
    StoppedStaysStopped(worlds, steps, d, n - 1);
    RunIsSound(worlds, steps, n - 1);
    StoppedStep(worlds[n - 1], steps[n - 1], worlds[n], id);
    RunIsSound(worlds, steps, n);
  }

  /** The drain leaves no call waiting: every one already sent returns `ConnectionClosed`. */
  lemma DrainClosesAll(w: World, w': World, id: nat)
    requires Sound(w) && Next(w, Drain, w') && id in w.host.pending && id !in w.unsent
    ensures Outcome(w', id) == Some(ConnectionClosed) && w'.host.pending == {}
  {
    assert id !in w.failed;
  }
}
