/** Reading the event log back: the log alone says which items exist and where each one is.

    Replay is strict: an event that could not have happened at its place in the log makes
    the whole log unreadable.  So a log that replays is also one in which nothing is
    finalized twice. */
module Replay {
  import opened Common
  import opened Storage
  import opened Events

  datatype Stage = InIntake | InHuman | InOuttake | Retired

  type Placement = map<ItemId, Stage>

  datatype Transition =
    | Created(item: ItemId, at: Stage)
    | Analyzed(item: ItemId, confident: bool)
    | Acked(item: ItemId)
    | Reviewed(item: ItemId)

  function ItemOf(e: Event): Option<ItemId> {
    match e.payload.Get("item_id")
    case Some(JStr(id)) => Some(id)
    case _ => None
  }

  /** A human ack names the activity `ack` and carries no `params`; an invoked action always does. */
  predicate IsAck(e: Event) {
    e.kind == ActionTaken && e.actor == Human
    && e.payload.Get("activity_id") == Some(JStr("ack")) && e.payload.Get("params").None?
  }

  /** What an event says about where an item is; most events say nothing. */
  function Lifecycle(e: Event): Option<Transition> {
    match ItemOf(e)
    case None => None
    case Some(item) =>
      match e.kind
      case ItemCreated =>
        if e.actor.System? || e.actor.Topic? then Some(Created(item, InIntake))
        else if e.actor.ReviewLlm? then Some(Created(item, InHuman))
        else None
      case IntakeLlmAnalysis =>
        (match e.payload.Get("confident")
         case Some(JBool(b)) => if e.actor.IntakeLlm? then Some(Analyzed(item, b)) else None
         case _ => None)
      case ReviewLlmAnalysis => if e.actor.ReviewLlm? then Some(Reviewed(item)) else None
      case ActionTaken => if IsAck(e) then Some(Acked(item)) else None
      case _ => None
  }

  function Rank(s: Stage): nat {
    match s
    case InIntake => 0
    case InHuman => 1
    case InOuttake => 2
    case Retired => 3
  }

  function Advance(p: Placement, t: Transition): Option<Placement> {
    match t
    case Created(item, at) => if item in p then None else Some(p[item := at])
    case Analyzed(item, confident) =>
      if item in p && p[item] == InIntake then Some(p[item := if confident then Retired else InHuman]) else None
    case Acked(item) => if item in p && p[item] == InHuman then Some(p[item := InOuttake]) else None
    case Reviewed(item) => if item in p && p[item] == InOuttake then Some(p[item := Retired]) else None
  }

  function ReplayOne(p: Placement, e: Event): Option<Placement> {
    match Lifecycle(e)
    case None => Some(p)
    case Some(t) => Advance(p, t)
  }

  function ReplayFrom(p: Placement, log: seq<Event>): Option<Placement>
    decreases log
  {
    if log == [] then Some(p)
    else
      match ReplayOne(p, log[0])
      case None => None
      case Some(p') => ReplayFrom(p', log[1..])
  }

  function Replayed(log: seq<Event>): Option<Placement> {
    ReplayFrom(map[], log)
  }

  lemma {:induction false} ReplayConcat(p: Placement, a: seq<Event>, b: seq<Event>)
    ensures ReplayFrom(p, a + b)
         == match ReplayFrom(p, a) case None => None case Some(p') => ReplayFrom(p', b)
    decreases a
  {
    if a == [] {
      assert a + b == b;
    } else {
      assert (a + b)[1..] == a[1..] + b;
      var one := ReplayOne(p, a[0]);
      if one.Some? { ReplayConcat(one.value, a[1..], b); }
    }
  }

  lemma ReplayAppend(p: Placement, log: seq<Event>, e: Event)
    ensures ReplayFrom(p, log + [e]) == match ReplayFrom(p, log) case None => None case Some(p') => ReplayOne(p', e)
  {
    ReplayConcat(p, log, [e]);
    match ReplayFrom(p, log) {
      case None =>
      case Some(p') =>
        assert [e][1..] == [];
    }
  }

  // ── stages only go forward ───────────────────────────────────────────

  /** Every item of `p` is still there in `q`, no earlier in its life. */
  predicate NoLaterThan(p: Placement, q: Placement) {
    forall id :: id in p ==> id in q && Rank(p[id]) <= Rank(q[id])
  }

  /** A lifecycle event adds its item or strictly advances it. */
  lemma AdvanceMoves(p: Placement, e: Event)
    requires Lifecycle(e).Some? && ReplayOne(p, e).Some?
    ensures var id := Lifecycle(e).value.item;
            id in ReplayOne(p, e).value && (id in p ==> Rank(p[id]) < Rank(ReplayOne(p, e).value[id]))
  {
  }

  lemma {:induction false} ReplayOnlyAdvances(p: Placement, log: seq<Event>)
    requires ReplayFrom(p, log).Some?
    ensures NoLaterThan(p, ReplayFrom(p, log).value)
    ensures ReplayFrom(p, log).value == p ==> forall e :: e in log ==> Lifecycle(e).None?
    decreases log
  {
    if log == [] {
    } else {
      var p' := ReplayOne(p, log[0]).value;
      var q := ReplayFrom(p', log[1..]).value;
      ReplayOnlyAdvances(p', log[1..]);
      if Lifecycle(log[0]).Some? { AdvanceMoves(p, log[0]); }
    }
  }

  lemma {:induction false} InertReplay(p: Placement, log: seq<Event>)
    requires forall e :: e in log ==> Lifecycle(e).None?
    ensures ReplayFrom(p, log) == Some(p)
  {
    if log == [] {
    } else {
      InertReplay(p, log[1..]);
    }
  }

  // ── counting ─────────────────────────────────────────────────────────

  function Count(log: seq<Event>, t: Transition): nat {
    if log == [] then 0
    else Count(log[..|log| - 1], t) + (if Lifecycle(log[|log| - 1]) == Some(t) then 1 else 0)
  }

  /** Intake analyses of one item, confident or not. */
  function Analyses(log: seq<Event>, item: ItemId): nat {
    Count(log, Analyzed(item, true)) + Count(log, Analyzed(item, false))
  }

  function Creations(log: seq<Event>, item: ItemId): nat {
    Count(log, Created(item, InIntake)) + Count(log, Created(item, InHuman))
  }

  lemma ReplayInit(log: seq<Event>)
    requires log != [] && Replayed(log).Some?
    ensures Replayed(log[..|log| - 1]).Some?
    ensures ReplayOne(Replayed(log[..|log| - 1]).value, log[|log| - 1]) == Replayed(log)
  {
    assert log == log[..|log| - 1] + [log[|log| - 1]];
    ReplayAppend(map[], log[..|log| - 1], log[|log| - 1]);
  }

  lemma CreatedAtEnds(e: Event)
    requires Lifecycle(e).Some? && Lifecycle(e).value.Created?
    ensures Lifecycle(e).value.at == InIntake || Lifecycle(e).value.at == InHuman
  {
  }

  /** What a readable log says of one item: each kind of step is recorded at most once,
      and which ones are recorded tells where the item is. */
  lemma {:induction false} OncePerItem(log: seq<Event>, item: ItemId)
    requires Replayed(log).Some?
    ensures Creations(log, item) == (if item in Replayed(log).value then 1 else 0)
    ensures Analyses(log, item) <= 1 && Count(log, Acked(item)) <= 1 && Count(log, Reviewed(item)) <= 1
    ensures item !in Replayed(log).value ==>
              Analyses(log, item) == Count(log, Acked(item)) == Count(log, Reviewed(item)) == 0
    ensures item in Replayed(log).value ==>
              match Replayed(log).value[item]
              case InIntake => Analyses(log, item) == 0 && Count(log, Acked(item)) == 0 && Count(log, Reviewed(item)) == 0
              case InHuman => Count(log, Analyzed(item, true)) == 0 && Count(log, Acked(item)) == 0 && Count(log, Reviewed(item)) == 0
              case InOuttake => Count(log, Analyzed(item, true)) == 0 && Count(log, Acked(item)) == 1 && Count(log, Reviewed(item)) == 0
              case Retired => Count(log, Analyzed(item, true)) + Count(log, Reviewed(item)) == 1
                              && Count(log, Acked(item)) == Count(log, Reviewed(item))
  {
    if log == [] {
    } else {
      ReplayInit(log);
      OncePerItem(log[..|log| - 1], item);
      var e := log[|log| - 1];
      if Lifecycle(e).Some? && Lifecycle(e).value.Created? { CreatedAtEnds(e); }
    }
  }

  // ── conservation ─────────────────────────────────────────────────────

  /** Items still in some queue. */
  function Live(p: Placement): set<ItemId> {
    set id | id in p && p[id] != Retired
  }

  function Weight(e: Event): int {
    match Lifecycle(e)
    case Some(Created(_, _)) => 1
    case Some(Analyzed(_, confident)) => if confident then -1 else 0
    case Some(Reviewed(_)) => -1
    case _ => 0
  }

  /** Creations minus confident analyses minus reviews, over the whole log. */
  function Balance(log: seq<Event>): int {
    if log == [] then 0
    else Balance(log[..|log| - 1]) + Weight(log[|log| - 1])
  }

  lemma LiveGains(p: Placement, item: ItemId, at: Stage)
    requires item !in p && at != Retired
    ensures |Live(p[item := at])| == |Live(p)| + 1
  {
    assert Live(p[item := at]) == Live(p) + {item};
  }

  lemma LiveMoves(p: Placement, item: ItemId, to: Stage)
    requires item in p && p[item] != Retired
    ensures |Live(p[item := to])| == |Live(p)| - (if to == Retired then 1 else 0)
  {
    if to == Retired {
      assert Live(p[item := to]) == Live(p) - {item};
    } else {
      assert Live(p[item := to]) == Live(p);
    }
  }

  lemma LiveStep(p: Placement, e: Event)
    requires ReplayOne(p, e).Some?
    ensures |Live(ReplayOne(p, e).value)| == |Live(p)| + Weight(e)
  {
    match Lifecycle(e)
    case None =>
    case Some(Created(item, at)) =>
      CreatedAtEnds(e);
      LiveGains(p, item, at);
    case Some(Analyzed(item, confident)) => LiveMoves(p, item, if confident then Retired else InHuman);
    case Some(Acked(item)) => LiveMoves(p, item, InOuttake);
    case Some(Reviewed(item)) => LiveMoves(p, item, Retired);
  }

  lemma {:induction false} LiveIsBalance(log: seq<Event>)
    requires Replayed(log).Some?
    ensures |Live(Replayed(log).value)| == Balance(log)
  {
    if log == [] {
      assert Live(map[]) == {};
    } else {
      ReplayInit(log);
      LiveIsBalance(log[..|log| - 1]);
      LiveStep(Replayed(log[..|log| - 1]).value, log[|log| - 1]);
    }
  }
}
