/** The example topic across crashes and restarts: its counter is persisted by a setting and
    read back when the next subprocess starts. */
module Counter {
  import opened Common

  /** What the topic writes: the counter setting, or the response with tick `n`. */
  datatype Message = Set(n: int) | Tick(n: int)

  /** Where the topic is in its handler: waiting, counter raised, setting sent. */
  datatype Phase = Idle | Counted | Told

  datatype Subprocess = Subprocess(counter: int, phase: Phase)

  /** `stored` is the table's value, the hydrate snapshot; `writing` the setting whose event is
      appended and whose table write is not done.  `delivered` are the ticks the host received. */
  datatype System = System(
    stored: Option<int>,
    writing: Option<int>,
    connected: bool,
    topic: Option<Subprocess>,
    pipe: seq<Message>,
    delivered: seq<int>)

  datatype Step =
    | Spawn
    | Raise
    | Persist
    | Answer
    | Adjust(value: int)
    | TopicDies(kept: nat)
    | AppendSetting
    | UpsertSetting
    | TakeTick
    | HostDies

  predicate InPhase(s: System, phase: Phase) {
    s.topic.Some? && s.topic.value.phase == phase
  }

  predicate Reads(s: System) {
    s.connected && s.writing.None? && s.pipe != []
  }

  predicate Enabled(s: System, step: Step) {
    match step
    case Spawn => !s.connected
    case Raise => InPhase(s, Idle)
    case Persist => InPhase(s, Counted)
    case Answer => InPhase(s, Told)
    case Adjust(_) => InPhase(s, Idle)
    case TopicDies(kept) => s.topic.Some? && kept <= |s.pipe|
    case AppendSetting => Reads(s) && s.pipe[0].Set?
    case UpsertSetting => s.writing.Some?
    case TakeTick => Reads(s) && s.pipe[0].Tick?
    case HostDies => s.connected
  }

  /** `Adjust` is an `execute` that leaves the counter at `value`: 0 for `reset`, the sum for
      `bump`.  A dying topic leaves some prefix of its output readable. */
  function After(s: System, step: Step): System
    requires Enabled(s, step)
  {
    match step
    case Spawn =>
      s.(connected := true, topic := Some(Subprocess(if s.stored.Some? then s.stored.value else 0, Idle)))
    case Raise => s.(topic := Some(Subprocess(s.topic.value.counter + 1, Counted)))
    case Persist =>
      var counter := s.topic.value.counter;
      s.(topic := Some(Subprocess(counter, Told)), pipe := s.pipe + [Set(counter)])
    case Answer =>
      var counter := s.topic.value.counter;
      s.(topic := Some(Subprocess(counter, Idle)), pipe := s.pipe + [Tick(counter)])
    case Adjust(value) => s.(topic := Some(Subprocess(value, Idle)), pipe := s.pipe + [Set(value)])
    case TopicDies(kept) => s.(topic := None, pipe := s.pipe[..kept])
    case AppendSetting => s.(writing := Some(s.pipe[0].n), pipe := s.pipe[1..])
    case UpsertSetting => s.(stored := s.writing, writing := None)
    case TakeTick => s.(delivered := s.delivered + [s.pipe[0].n], pipe := s.pipe[1..])
    case HostDies => s.(writing := None, connected := false, topic := None, pipe := [])
  }

  predicate Next(s: System, step: Step, s': System) {
    Enabled(s, step) && s' == After(s, step)
  }

  function Fresh(stored: Option<int>): System {
    System(stored, None, false, None, [], [])
  }

  /** The only thing that can happen first is that the topic starts. */
  lemma FreshStarts(stored: Option<int>, step: Step)
    ensures Enabled(Fresh(stored), step) <==> step.Spawn?
  {
  }

  // ── what may still be in the pipe ────────────────────────────────────

  predicate AtMost(a: Option<int>, n: int) {
    a.Some? ==> a.value <= n
  }

  predicate Below(a: Option<int>, n: int) {
    a.Some? ==> a.value < n
  }

  /** With `p` persisted and `t` the last tick, may this message come next? */
  predicate Admits(p: Option<int>, t: Option<int>, m: Message) {
    match m
    case Set(n) => AtMost(t, n)
    case Tick(n) => p.Some? && n <= p.value && Below(t, n)
  }

  function Persisted(p: Option<int>, m: Message): Option<int> {
    if m.Set? then Some(m.n) else p
  }

  function LastTick(t: Option<int>, m: Message): Option<int> {
    if m.Tick? then Some(m.n) else t
  }

  /** Every message is admitted after the ones before it. */
  predicate Fits(pipe: seq<Message>, p: Option<int>, t: Option<int>) {
    pipe == []
    || (Admits(p, t, pipe[0]) && Fits(pipe[1..], Persisted(p, pipe[0]), LastTick(t, pipe[0])))
  }

  function FinallyPersisted(pipe: seq<Message>, p: Option<int>): Option<int> {
    if pipe == [] then p else FinallyPersisted(pipe[1..], Persisted(p, pipe[0]))
  }

  function FinalTick(pipe: seq<Message>, t: Option<int>): Option<int> {
    if pipe == [] then t else FinalTick(pipe[1..], LastTick(t, pipe[0]))
  }

  lemma {:induction false} FitsAppend(pipe: seq<Message>, m: Message, p: Option<int>, t: Option<int>)
    requires Fits(pipe, p, t) && Admits(FinallyPersisted(pipe, p), FinalTick(pipe, t), m)
    ensures Fits(pipe + [m], p, t)
    ensures FinallyPersisted(pipe + [m], p) == Persisted(FinallyPersisted(pipe, p), m)
    ensures FinalTick(pipe + [m], t) == LastTick(FinalTick(pipe, t), m)
  {
    if pipe == [] {
      assert (pipe + [m])[1..] == [];
    } else {
      FitsAppend(pipe[1..], m, Persisted(p, pipe[0]), LastTick(t, pipe[0]));
      assert (pipe + [m])[1..] == pipe[1..] + [m];
    }
  }

  lemma {:induction false} FitsPrefix(pipe: seq<Message>, kept: nat, p: Option<int>, t: Option<int>)
    requires Fits(pipe, p, t) && kept <= |pipe|
    ensures Fits(pipe[..kept], p, t)
  {
    if kept == 0 {
    } else {
      FitsPrefix(pipe[1..], kept - 1, Persisted(p, pipe[0]), LastTick(t, pipe[0]));
      assert pipe[..kept][1..] == pipe[1..][..kept - 1];
    }
  }

  // ── which runs are safe ──────────────────────────────────────────────

  function Last(delivered: seq<int>): Option<int> {
    if delivered == [] then None else Some(delivered[|delivered| - 1])
  }

  /** The last tick the topic has answered with, delivered or still in the pipe. */
  function LastAnswered(s: System): Option<int> {
    FinalTick(s.pipe, Last(s.delivered))
  }

  /** No activity leaves the counter below the last tick answered; `ingest` alone never does. */
  predicate NeverBelow(s: System, step: Step) {
    step.Adjust? ==> AtMost(LastAnswered(s), step.value)
  }

  ghost predicate Run(systems: seq<System>, steps: seq<Step>) {
    |systems| == |steps| + 1 && systems[0] == Fresh(systems[0].stored)
    && forall n :: 0 <= n < |steps| ==> Next(systems[n], steps[n], systems[n + 1]) && NeverBelow(systems[n], steps[n])
  }

  // ── the invariant ────────────────────────────────────────────────────

  predicate Increasing(delivered: seq<int>) {
    forall i, j :: 0 <= i < j < |delivered| ==> delivered[i] < delivered[j]
  }

  function Logged(s: System): Option<int> {
    if s.writing.Some? then s.writing else s.stored
  }

  predicate TopicAhead(s: System, topic: Subprocess) {
    && AtMost(LastAnswered(s), topic.counter)
    && (topic.phase != Idle ==> Below(LastAnswered(s), topic.counter))
    && (topic.phase == Told ==> FinallyPersisted(s.pipe, Logged(s)) == Some(topic.counter))
  }

  predicate Safe(s: System) {
    && Increasing(s.delivered)
    && (s.delivered != [] ==> s.stored.Some? && Last(s.delivered).value <= s.stored.value)
    && (s.writing.Some? ==> AtMost(Last(s.delivered), s.writing.value))
    && Fits(s.pipe, Logged(s), Last(s.delivered))
    && (s.topic.Some? ==> TopicAhead(s, s.topic.value))
    && (!s.connected ==> s.pipe == [] && s.topic.None? && s.writing.None?)
  }

  lemma EmitKeepsSafe(s: System, step: Step, s': System)
    requires Safe(s) && Next(s, step, s') && NeverBelow(s, step)
    requires step.Persist? || step.Answer? || step.Adjust?
    ensures Safe(s')
  {
    FitsAppend(s.pipe, s'.pipe[|s.pipe|], Logged(s), Last(s.delivered));
  }

  lemma NextKeepsSafe(s: System, step: Step, s': System)
    requires Safe(s) && Next(s, step, s') && NeverBelow(s, step)
    ensures Safe(s')
  {
    match step
    case Persist => EmitKeepsSafe(s, step, s');
    case Answer => EmitKeepsSafe(s, step, s');
    case Adjust(_) => EmitKeepsSafe(s, step, s');
    case TopicDies(kept) => FitsPrefix(s.pipe, kept, Logged(s), Last(s.delivered));
    case _ =>
  }

  lemma {:induction false} RunIsSafe(systems: seq<System>, steps: seq<Step>, n: nat)
    requires Run(systems, steps) && n <= |steps|
    ensures Safe(systems[n])
  {
    if n == 0 {
    } else {
      RunIsSafe(systems, steps, n - 1);
      NextKeepsSafe(systems[n - 1], steps[n - 1], systems[n]);
    }
  }

  lemma SafeTicks(s: System)
    requires Safe(s)
    ensures Increasing(s.delivered)
    ensures forall tick :: tick in s.delivered ==> s.stored.Some? && tick <= s.stored.value
  {
    var delivered := s.delivered;
    forall tick | tick in delivered ensures tick <= Last(delivered).value {
      var i :| 0 <= i < |delivered| && delivered[i] == tick;
      assert i == |delivered| - 1 || delivered[i] < delivered[|delivered| - 1];
    }
  }

  /** Restart safety: over any crashes and restarts at any point, the ticks the host receives
      strictly increase, because a tick is received only once its number has been stored. */
  lemma TicksStrictlyIncrease(systems: seq<System>, steps: seq<Step>, n: nat)
    requires Run(systems, steps) && n <= |steps|
    ensures Increasing(systems[n].delivered)
    ensures forall tick :: tick in systems[n].delivered ==>
                             systems[n].stored.Some? && tick <= systems[n].stored.value
  {
    RunIsSafe(systems, steps, n);
    SafeTicks(systems[n]);
  }

  // ── the condition is exact ───────────────────────────────────────────

  function Ticks(pipe: seq<Message>): seq<int> {
    if pipe == [] then [] else (if pipe[0].Tick? then [pipe[0].n] else []) + Ticks(pipe[1..])
  }

  /** The host reads all that is in the pipe, with nothing else in between. */
  function Drained(s: System): System
    requires s.connected
    decreases |s.pipe|
  {
    var idle := if s.writing.Some? then After(s, UpsertSetting) else s;
    if idle.pipe == [] then idle
    else Drained(After(idle, if idle.pipe[0].Tick? then TakeTick else AppendSetting))
  }

  lemma {:induction false} DrainDelivers(s: System)
    requires s.connected
    ensures Drained(s).delivered == s.delivered + Ticks(s.pipe)
    ensures Drained(s).pipe == [] && Drained(s).writing.None? && Drained(s).topic == s.topic
    decreases |s.pipe|
  {
    var idle := if s.writing.Some? then After(s, UpsertSetting) else s;
    if idle.pipe == [] {
    } else {
      DrainDelivers(After(idle, if idle.pipe[0].Tick? then TakeTick else AppendSetting));
    }
  }

  lemma {:induction false} TicksAppend(pipe: seq<Message>, m: Message)
    ensures Ticks(pipe + [m]) == Ticks(pipe) + (if m.Tick? then [m.n] else [])
  {
    if pipe == [] {
      assert (pipe + [m])[1..] == [];
    } else {
      TicksAppend(pipe[1..], m);
      assert (pipe + [m])[1..] == pipe[1..] + [m];
    }
  }

  lemma {:induction false} TicksEnd(pipe: seq<Message>, delivered: seq<int>)
    ensures Last(delivered + Ticks(pipe)) == FinalTick(pipe, Last(delivered))
  {
    if pipe == [] {
      assert delivered + [] == delivered;
    } else {
      var tick := if pipe[0].Tick? then [pipe[0].n] else [];
      TicksEnd(pipe[1..], delivered + tick);
      assert delivered + Ticks(pipe) == (delivered + tick) + Ticks(pipe[1..]);
      assert Last(delivered + tick) == LastTick(Last(delivered), pipe[0]);
    }
  }

  lemma IncreasingAppend(delivered: seq<int>, tick: seq<int>)
    requires Increasing(delivered) && |tick| <= 1
    ensures Increasing(delivered + tick) <==> (tick == [] || Below(Last(delivered), tick[0]))
  {
    var all := delivered + tick;
    if tick != [] && delivered != [] {
      var (l, m) := (|delivered| - 1, |delivered|);
      assert all[l] == delivered[l] && all[m] == tick[0];
      forall i | 0 <= i < l ensures all[i] < all[l] { assert all[i] == delivered[i]; }
    }
  }

  lemma Associates(a: seq<int>, b: seq<int>, c: seq<int>)
    ensures a + (b + c) == (a + b) + c
  {
  }

  lemma LastAppended(delivered: seq<int>, m: Message, tick: seq<int>)
    requires tick == if m.Tick? then [m.n] else []
    ensures Last(delivered + tick) == LastTick(Last(delivered), m)
  {
    if m.Tick? { assert (delivered + [m.n])[|delivered|] == m.n; } else { assert delivered + [] == delivered; }
  }

  /** What is already in the pipe of a safe system is delivered in order. */
  lemma {:induction false} TicksIncrease(pipe: seq<Message>, p: Option<int>, delivered: seq<int>)
    requires Fits(pipe, p, Last(delivered)) && Increasing(delivered)
    ensures Increasing(delivered + Ticks(pipe))
  {
    if pipe == [] {
      assert delivered + [] == delivered;
    } else {
      var tick := if pipe[0].Tick? then [pipe[0].n] else [];
      LastAppended(delivered, pipe[0], tick);
      IncreasingAppend(delivered, tick);
      TicksIncrease(pipe[1..], Persisted(p, pipe[0]), delivered + tick);
      Associates(delivered, tick, Ticks(pipe[1..]));
    }
  }

  /** An activity that leaves the counter at `value`, one ingest, and all of it read. */
  function Adjusted(s: System, value: int): (r: System)
    requires InPhase(s, Idle) && s.connected
    ensures r.connected && r.pipe == s.pipe + [Set(value)] + [Set(value + 1)] + [Tick(value + 1)]
  {
    After(After(After(After(s, Adjust(value)), Raise), Persist), Answer)
  }

  /** The condition on a run is exact, in any safe state and whatever is still in the pipe: after
      an activity the next tick, once everything is read, is new exactly when the activity did not
      leave the counter below the last tick answered. */
  lemma ActivityIsSafeExactly(s: System, value: int)
    requires Safe(s) && InPhase(s, Idle)
    ensures s.connected
    ensures var s' := Drained(Adjusted(s, value));
            && s'.delivered == s.delivered + Ticks(s.pipe) + [value + 1]
            && (Increasing(s'.delivered) <==> NeverBelow(s, Adjust(value)))
  {
    var s1 := Adjusted(s, value);
    var before := s.delivered + Ticks(s.pipe);
    TicksAppend(s.pipe, Set(value));
    TicksAppend(s.pipe + [Set(value)], Set(value + 1));
    TicksAppend(s.pipe + [Set(value)] + [Set(value + 1)], Tick(value + 1));
    DrainDelivers(s1);
    assert Drained(s1).delivered == before + [value + 1];
    TicksEnd(s.pipe, s.delivered);
    TicksIncrease(s.pipe, Logged(s), s.delivered);
    IncreasingAppend(before, [value + 1]);
  }

  const ONE_TICK := System(Some(1), None, true, Some(Subprocess(1, Idle)), [], [1])

  /** A fresh topic after one ingest, all read. */
  lemma FirstTick(started: System)
    requires Next(Fresh(None), Spawn, started)
    ensures Drained(After(After(After(started, Raise), Persist), Answer)) == ONE_TICK
  {
    var s := After(After(After(started, Raise), Persist), Answer);
    assert s.pipe == [Set(1), Tick(1)];
    var s1 := After(After(s, AppendSetting), UpsertSetting);
    assert Drained(s) == Drained(After(s, AppendSetting)) == Drained(s1);
    assert Drained(s1) == Drained(After(s1, TakeTick)) == After(s1, TakeTick);
  }

  lemma OneTickIsSafe()
    ensures Safe(ONE_TICK) && InPhase(ONE_TICK, Idle)
  {
  }

  /** The smallest failing run: after the first tick, a reset and one more ingest. */
  lemma ResetRepeatsATick(s: System)
    requires s == ONE_TICK
    ensures InPhase(s, Idle) && s.connected && Drained(Adjusted(s, 0)).delivered == [1, 1]
  {
    OneTickIsSafe();
    ActivityIsSafeExactly(s, 0);
  }

  lemma SecondTick(s: System)
    requires s == After(After(After(ONE_TICK, Raise), Persist), Answer)
    ensures s == ONE_TICK.(topic := Some(Subprocess(2, Idle)), pipe := [Set(2), Tick(2)])
    ensures Safe(s) && Ticks(s.pipe) == [2] && LastAnswered(s) == Some(2)
  {
    OneTickIsSafe();
    NextKeepsSafe(ONE_TICK, Raise, After(ONE_TICK, Raise));
    NextKeepsSafe(After(ONE_TICK, Raise), Persist, After(After(ONE_TICK, Raise), Persist));
    NextKeepsSafe(After(After(ONE_TICK, Raise), Persist), Answer, s);
    assert s.pipe[1..] == [Tick(2)] && s.pipe[1..][1..] == [];
  }

  /** With tick 2 still in the pipe, leaving the counter at 1 repeats it, though 1 is not below
      the last tick delivered. */
  lemma AdjustUnderAnUnreadTick(s: System)
    requires s == After(After(After(ONE_TICK, Raise), Persist), Answer)
    ensures InPhase(s, Idle) && s.connected && AtMost(Last(s.delivered), 1) && !NeverBelow(s, Adjust(1))
    ensures Drained(Adjusted(s, 1)).delivered == [1, 2, 2]
  {
    SecondTick(s);
    ActivityIsSafeExactly(s, 1);
  }
}
