/** Persisting what a topic's `ingest` returned: every item in its own transaction,
    duplicates dropped, other failures logged and skipped. */
module Ingest {
  import opened Common
  import opened Rfc3339
  import opened Storage
  import opened Queue
  import opened Events
  import opened Items
  import opened Transactions

  /** One ingested item with the ids and the clock reading its transaction uses. */
  datatype Incoming = Incoming(id: ItemId, item: Item, eventId: string, auditId: string, detail: map<string, Json>, now: Instant)

  function Persisted(s: State, topic: string, g: Incoming): State {
    var es := PersistEvents(topic, g.id, g.eventId, g.auditId, g.detail);
    if Appendable(s.events, es) && Insertable(s, g.id, g.item)
    then AfterCreate(s, g.id, g.item, es, INTAKE, Encode(g.now)) else s
  }

  function AfterBatch(s: State, topic: string, batch: seq<Incoming>): State {
    if batch == [] then s else Persisted(AfterBatch(s, topic, batch[..|batch| - 1]), topic, batch[|batch| - 1])
  }

  /** `ingest_one_topic`, once the topic has answered.  The transactions of a batch run in
      some order; `batch` is that order. */
  method PersistBatch(db: Database, topic: string, batch: seq<Incoming>)
    modifies db
    ensures db.Contents() == AfterBatch(old(db.Contents()), topic, batch)
  {
    for n := 0 to |batch|
      invariant db.Contents() == AfterBatch(old(db.Contents()), topic, batch[..n])
    {
      var g := batch[n];
      var r := PersistItem(db, topic, g.id, g.item, g.eventId, g.auditId, g.detail, g.now);
      assert batch[..n + 1][..n] == batch[..n];
    }
    assert batch[..|batch|] == batch;
  }

  predicate Apart(g: Incoming, later: Incoming) {
    g.id != later.id && {g.eventId, g.auditId} !! {later.eventId, later.auditId}
  }

  predicate FreshTo(s: State, g: Incoming) {
    g.id !in s.items && !Recorded(s.events, g.eventId) && !Recorded(s.events, g.auditId)
  }

  /** All ids of the batch are new: to the tables and to each other. */
  ghost predicate FreshIds(s: State, batch: seq<Incoming>) {
    (forall i :: 0 <= i < |batch| ==> FreshTo(s, batch[i]) && batch[i].eventId != batch[i].auditId)
    && (forall i, j :: 0 <= j < i < |batch| ==> Apart(batch[j], batch[i]))
  }

  function PairSet(item: Item): set<SourcePair> {
    if PairOf(item).Some? then {PairOf(item).value} else {}
  }

  function BatchPairs(batch: seq<Incoming>): set<SourcePair> {
    if batch == [] then {}
    else BatchPairs(batch[..|batch| - 1]) + PairSet(batch[|batch| - 1].item)
  }

  /** Items of the batch that have no source pair; nothing dedupes them. */
  function Unpaired(batch: seq<Incoming>): nat {
    if batch == [] then 0
    else Unpaired(batch[..|batch| - 1]) + (if PairOf(batch[|batch| - 1].item).None? then 1 else 0)
  }

  lemma StaysFresh(s: State, topic: string, g: Incoming, later: Incoming)
    requires FreshTo(s, later) && Apart(g, later)
    ensures FreshTo(Persisted(s, topic, g), later)
  {
    var es := PersistEvents(topic, g.id, g.eventId, g.auditId, g.detail);
    assert es[0].id == g.eventId && es[1].id == g.auditId && |es| == 2;
    RecordedConcat(s.events, es, later.eventId);
    RecordedConcat(s.events, es, later.auditId);
  }

  lemma {:induction false} StaysFreshThroughBatch(s: State, topic: string, batch: seq<Incoming>, later: Incoming)
    requires FreshTo(s, later)
    requires forall j :: 0 <= j < |batch| ==> Apart(batch[j], later)
    ensures FreshTo(AfterBatch(s, topic, batch), later)
  {
    if batch == [] {
    } else {
      var init := batch[..|batch| - 1];
      StaysFreshThroughBatch(s, topic, init, later);
      StaysFresh(AfterBatch(s, topic, init), topic, batch[|batch| - 1], later);
    }
  }

  lemma PersistedFresh(s: State, topic: string, g: Incoming)
    requires FreshTo(s, g) && g.eventId != g.auditId
    ensures Persisted(s, topic, g).items == if Duplicates(s.items, g.item) then s.items else s.items[g.id := g.item]
  {
    var (creation, audit) := (CreationEvent(g.eventId, g.id, Topic(topic), g.detail), EnqueuedEvent(g.auditId, g.id));
    AppendableOne(s.events, creation);
    AppendableSnoc(s.events, [creation], audit);
    RecordedConcat(s.events, [creation], g.auditId);
    assert [creation][0].id == g.eventId;
  }

  /** What a batch with fresh ids does to the item rows alone. */
  function ItemsAfter(items: map<ItemId, Item>, batch: seq<Incoming>): map<ItemId, Item> {
    if batch == [] then items
    else
      var (before, g) := (ItemsAfter(items, batch[..|batch| - 1]), batch[|batch| - 1]);
      if Duplicates(before, g.item) then before else before[g.id := g.item]
  }

  lemma {:induction false} BatchItems(s: State, topic: string, batch: seq<Incoming>)
    requires FreshIds(s, batch)
    ensures AfterBatch(s, topic, batch).items == ItemsAfter(s.items, batch)
  {
    if batch == [] {
    } else {
      var init, g := batch[..|batch| - 1], batch[|batch| - 1];
      assert forall j :: 0 <= j < |init| ==> init[j] == batch[j];
      BatchItems(s, topic, init);
      StaysFreshThroughBatch(s, topic, init, g);
      PersistedFresh(AfterBatch(s, topic, init), topic, g);
    }
  }

  lemma {:induction false} IdsAfter(items: map<ItemId, Item>, batch: seq<Incoming>, id: ItemId)
    requires id !in items && forall j :: 0 <= j < |batch| ==> batch[j].id != id
    ensures id !in ItemsAfter(items, batch)
  {
    if batch == [] {
    } else {
      IdsAfter(items, batch[..|batch| - 1], id);
    }
  }

  ghost predicate DistinctIds(items: map<ItemId, Item>, batch: seq<Incoming>) {
    (forall i :: 0 <= i < |batch| ==> batch[i].id !in items)
    && (forall i, j :: 0 <= j < i < |batch| ==> batch[j].id != batch[i].id)
  }

  /** What is claimed of the rows after a batch, from what was there and what the batch held. */
  ghost predicate Deduped(items: map<ItemId, Item>, pairs: set<SourcePair>, unpaired: nat, after: map<ItemId, Item>) {
    Unique(after) && Pairs(after) == Pairs(items) + pairs
    && |after| == |items| + |pairs - Pairs(items)| + unpaired
  }

  lemma SingleElement(one: set<SourcePair>, p: SourcePair)
    requires |one| <= 1 && p in one
    ensures one == {p}
  {
    assert |one - {p}| == |one| - 1;
  }

  lemma NewPairs(taken: set<SourcePair>, before: set<SourcePair>, one: set<SourcePair>)
    requires |one| <= 1
    ensures |before + one - taken| == |before - taken| + (if one <= taken + before then 0 else 1)
  {
    if one <= taken + before {
      assert before + one - taken == before - taken;
    } else {
      assert |one - (taken + before)| == 1 by {
        var p :| p in one && p !in taken + before;
        SingleElement(one, p);
        assert one - (taken + before) == one;
      }
      assert before + one - taken == (before - taken) + (one - (taken + before));
    }
  }

  lemma DedupeKnown(items: map<ItemId, Item>, pairs: set<SourcePair>, unpaired: nat, before: map<ItemId, Item>, item: Item)
    requires Deduped(items, pairs, unpaired, before) && Duplicates(before, item)
    ensures Deduped(items, pairs + PairSet(item), unpaired, before)
  {
    var (taken, one) := (Pairs(items), PairSet(item));
    assert one <= taken + pairs;
    NewPairs(taken, pairs, one);
    assert taken + (pairs + one) == taken + pairs;
  }

  lemma UnionThree(a: set<SourcePair>, b: set<SourcePair>, c: set<SourcePair>)
    ensures a + b + c == a + (b + c)
  {
  }

  lemma DedupeNew(items: map<ItemId, Item>, pairs: set<SourcePair>, unpaired: nat, before: map<ItemId, Item>,
                  id: ItemId, item: Item)
    requires Deduped(items, pairs, unpaired, before) && id !in before && !Duplicates(before, item)
    ensures Deduped(items, pairs + PairSet(item), unpaired + (if PairOf(item).None? then 1 else 0), before[id := item])
  {
    var (taken, one) := (Pairs(items), PairSet(item));
    InsertKeepsUnique(before, id, item);
    NewPairs(taken, pairs, one);
    UnionThree(taken, pairs, one);
    if PairOf(item).Some? {
      assert !(one <= taken + pairs) by { assert PairOf(item).value in one; }
    } else {
      assert one == {};
    }
  }

  lemma {:induction false} ItemsDedupe(items: map<ItemId, Item>, batch: seq<Incoming>)
    requires Unique(items) && DistinctIds(items, batch)
    ensures Deduped(items, BatchPairs(batch), Unpaired(batch), ItemsAfter(items, batch))
  {
    if batch == [] {
    } else {
      var init, g := batch[..|batch| - 1], batch[|batch| - 1];
      assert forall j :: 0 <= j < |init| ==> init[j] == batch[j];
      ItemsDedupe(items, init);
      IdsAfter(items, init, g.id);
      var before := ItemsAfter(items, init);
      if Duplicates(before, g.item) {
        DedupeKnown(items, BatchPairs(init), Unpaired(init), before, g.item);
      } else {
        DedupeNew(items, BatchPairs(init), Unpaired(init), before, g.id, g.item);
      }
    }
  }

  /** Given fresh ids, a batch leaves exactly the old pairs and its own, each pair on one
      item row, and adds one row for each new pair and for each item without a pair —
      in whatever order its items are persisted, and however often a pair is repeated. */
  lemma BatchDedupes(s: State, topic: string, batch: seq<Incoming>)
    requires Unique(s.items) && FreshIds(s, batch)
    ensures Unique(AfterBatch(s, topic, batch).items)
    ensures Pairs(AfterBatch(s, topic, batch).items) == Pairs(s.items) + BatchPairs(batch)
    ensures |AfterBatch(s, topic, batch).items| == |s.items| + |BatchPairs(batch) - Pairs(s.items)| + Unpaired(batch)
  {
    BatchItems(s, topic, batch);
    forall i, j | 0 <= j < i < |batch| ensures batch[j].id != batch[i].id {
      assert Apart(batch[j], batch[i]);
    }
    ItemsDedupe(s.items, batch);
  }

  lemma SecondBatch(s: State, topic: string, again: seq<Incoming>)
    requires Unique(s.items) && FreshIds(s, again) && BatchPairs(again) <= Pairs(s.items)
    ensures Pairs(AfterBatch(s, topic, again).items) == Pairs(s.items)
    ensures |AfterBatch(s, topic, again).items| == |s.items| + Unpaired(again)
  {
    BatchDedupes(s, topic, again);
    assert BatchPairs(again) - Pairs(s.items) == {} && Pairs(s.items) + BatchPairs(again) == Pairs(s.items);
  }

  /** Running the same batch again adds nothing but the items without a pair. */
  lemma RetryAddsNothing(s: State, topic: string, batch: seq<Incoming>, again: seq<Incoming>)
    requires Unique(s.items) && FreshIds(s, batch) && FreshIds(AfterBatch(s, topic, batch), again)
    requires BatchPairs(again) <= BatchPairs(batch)
    ensures var s' := AfterBatch(s, topic, batch);
            Pairs(AfterBatch(s', topic, again).items) == Pairs(s'.items)
            && |AfterBatch(s', topic, again).items| == |s'.items| + Unpaired(again)
  {
    BatchDedupes(s, topic, batch);
    SecondBatch(AfterBatch(s, topic, batch), topic, again);
  }

}
