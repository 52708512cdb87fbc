/** What clients see of a queue without claiming anything, and why it agrees with
    what the dispatch query would hand out at the same instant. */
module Views {
  import opened Common
  import opened Rfc3339
  import opened Storage
  import opened Queue

  /** The rows of the `INNER JOIN items` that pass the source filter. */
  function ListedKeys(items: map<ItemId, Item>, rows: Rows, queue: string, source: Option<string>): set<Key> {
    set k | k in rows && k.queue == queue && k.item in items
            && (source.None? || items[k.item].sourceInstanceId == source)
  }

  function EntryKeys(es: seq<Entry>): seq<Key> {
    seq(|es|, i requires 0 <= i < |es| => EntryKey(es[i]))
  }

  ghost predicate AllRead(es: seq<Entry>, rows: Rows) {
    es == [] || (EntryReads(es[|es| - 1], rows) && AllRead(es[..|es| - 1], rows))
  }

  /** `es` are the parsed rows `keys`, in query order. */
  ghost predicate IsEntryListing(rows: Rows, keys: set<Key>, es: seq<Entry>) {
    IsListing(rows, keys, EntryKeys(es)) && AllRead(es, rows)
  }

  /** One unreadable row fails the whole listing. */
  method List(db: Database, queue: string, source: Option<string>) returns (r: Result<seq<Entry>, QueueError>)
    ensures r.Ok? ==> IsListing(db.rows, ListedKeys(db.items, db.rows, queue, source), EntryKeys(r.value))
    ensures r.Ok? ==> forall k :: k in EntryKeys(r.value) <==>
                        k in db.rows && k.queue == queue && k.item in db.items
                        && (source.Some? ==> db.items[k.item].sourceInstanceId == source)
    ensures RowsOk(db.rows) ==> r.Ok? && AllRead(r.value, db.rows)
  {
    var keys := ListedKeys(db.items, db.rows, queue, source);
    var ks := Sorted(db.rows, keys);
    var es: seq<Entry> := [];
    for n := 0 to |ks|
      invariant EntryKeys(es) == ks[..n]
      invariant RowsOk(db.rows) ==> AllRead(es, db.rows)
    {
      assert ks[n] in keys;
      var read := ReadRow(ks[n], db.rows[ks[n]]);
      match read {
        case Err(e) => return Err(e);
        case Ok(entry) =>
          assert (es + [entry])[..|es|] == es;
          es := es + [entry];
      }
    }
    assert ks[..|ks|] == ks;
    return Ok(es);
  }

  /** `SELECT COUNT(*)` over the availability test: a scan of the table. */
  method Depth(db: Database, queue: string, now: Instant) returns (n: nat)
    ensures n == |AvailableKeys(db.rows, queue, Encode(now))|
  {
    n := 0;
    var todo := db.rows.Keys;
    ghost var counted: set<Key> := {};
    while todo != {}
      invariant todo <= db.rows.Keys && n == |counted|
      invariant counted == AvailableKeys(db.rows, queue, Encode(now)) - todo
    {
      var k :| k in todo;
      todo := todo - {k};
      if k.queue == queue && Available(db.rows[k], Encode(now)) {
        n := n + 1;
        counted := counted + {k};
      }
    }
  }

  /** The availability test of `next_item`, on parsed instants. */
  predicate EntryAvailable(e: Entry, now: Instant) {
    e.claimedBy.None? || (e.leaseExpiresAt.Some? && e.leaseExpiresAt.value < now)
  }

  /** The two availability tests agree: SQLite compares texts, the handler compares instants. */
  lemma AvailabilityAgrees(e: Entry, rows: Rows, now: Instant)
    requires EntryReads(e, rows)
    ensures EntryAvailable(e, now) <==> Available(rows[EntryKey(e)], Encode(now))
  {
    if e.leaseExpiresAt.Some? {
      TextOrderIsTimeOrder(e.leaseExpiresAt.value, now);
    }
  }

  lemma {:induction false} AvailabilityAgreesAt(es: seq<Entry>, rows: Rows, now: Instant, n: nat)
    requires AllRead(es, rows) && n < |es|
    ensures EntryKey(es[n]) in rows
    ensures EntryAvailable(es[n], now) <==> Available(rows[EntryKey(es[n])], Encode(now))
  {
    if n == |es| - 1 {
      AvailabilityAgrees(es[n], rows, now);
    } else {
      AvailabilityAgreesAt(es[..|es| - 1], rows, now, n);
    }
  }

  /** Foreign key of `queue_items`. */
  ghost predicate ItemsPresent(items: map<ItemId, Item>, rows: Rows) {
    forall k :: k in rows ==> k.item in items
  }

  /** The first available row of a listing is dispatchable. */
  lemma ListingHead(rows: Rows, keys: set<Key>, ks: seq<Key>, n: nat, now: string)
    requires IsListing(rows, keys, ks) && n < |ks|
    requires forall k :: k in rows && k.queue == HUMAN ==> k in keys
    requires forall i :: 0 <= i < n ==> ks[i] !in AvailableKeys(rows, HUMAN, now)
    requires ks[n] in AvailableKeys(rows, HUMAN, now)
    ensures Dispatchable(rows, HUMAN, now, ks[n])
  {
    if Precedes(rows[ks[n]], rows[ks[n]]) { PrecedesIsStrict(rows[ks[n]], rows[ks[n]]); }
    forall j | j in AvailableKeys(rows, HUMAN, now) ensures !Precedes(rows[j], rows[ks[n]]) {
      assert j in ks;
    }
  }

  lemma ListingTail(rows: Rows, keys: set<Key>, ks: seq<Key>, now: string)
    requires IsListing(rows, keys, ks)
    requires forall k :: k in rows && k.queue == HUMAN ==> k in keys
    requires forall i :: 0 <= i < |ks| ==> ks[i] !in AvailableKeys(rows, HUMAN, now)
    ensures AvailableKeys(rows, HUMAN, now) == {}
  {
    forall k ensures k !in AvailableKeys(rows, HUMAN, now) {
      if k in rows && k.queue == HUMAN { assert k in ks; }
    }
  }

  /** `next_item`: the first listed entry that is available, without a claim. */
  method NextItem(db: Database, now: Instant) returns (r: Result<Option<(ItemId, Item)>, QueueError>)
    ensures RowsOk(db.rows) ==> r.Ok?
    ensures r.Ok? && r.value.Some? ==> r.value.value.0 in db.items && r.value.value.1 == db.items[r.value.value.0]
    ensures RowsOk(db.rows) && ItemsPresent(db.items, db.rows) ==>
              (r.value.None? <==> AvailableKeys(db.rows, HUMAN, Encode(now)) == {})
    ensures RowsOk(db.rows) && ItemsPresent(db.items, db.rows) && r.value.Some? ==>
              Dispatchable(db.rows, HUMAN, Encode(now), Key(HUMAN, r.value.value.0))
  {
    var listed := List(db, HUMAN, None);
    if listed.Err? { return Err(listed.error); }
    var es := listed.value;
    ghost var text := Encode(now);
    ghost var sound := RowsOk(db.rows) && ItemsPresent(db.items, db.rows);
    ghost var keys := ListedKeys(db.items, db.rows, HUMAN, None);
    ghost var ks := EntryKeys(es);
    var n := 0;
    while n < |es|
      invariant 0 <= n <= |es|
      invariant sound ==> forall i :: 0 <= i < n ==> ks[i] !in AvailableKeys(db.rows, HUMAN, text)
    {
      assert ks[n] in keys && ks[n] == Key(HUMAN, es[n].item);
      if sound { AvailabilityAgreesAt(es, db.rows, now, n); }
      if EntryAvailable(es[n], now) {
        if sound { ListingHead(db.rows, keys, ks, n, text); }
        return Ok(Some((es[n].item, db.items[es[n].item])));
      }
      n := n + 1;
    }
    if sound { ListingTail(db.rows, keys, ks, text); }
    return Ok(None);
  }

  /** The entry shown next carries the priority and enqueue time of whatever `dequeue` would claim. */
  lemma NextAgreesWithDequeue(rows: Rows, now: string, shown: ItemId, worker: string, expires: string,
                              rows': Rows, got: Option<ItemId>)
    requires Dispatchable(rows, HUMAN, now, Key(HUMAN, shown))
    requires DequeueStep(rows, HUMAN, worker, now, expires, rows', got)
    ensures got.Some? && Key(HUMAN, got.value) in rows
    ensures rows[Key(HUMAN, got.value)].priority == rows[Key(HUMAN, shown)].priority
    ensures rows[Key(HUMAN, got.value)].enqueuedAt == rows[Key(HUMAN, shown)].enqueuedAt
  {
    DispatchKeyIsUnique(rows, HUMAN, now, Key(HUMAN, shown), Key(HUMAN, got.value));
  }

  function CountAvailable(es: seq<Entry>, now: Instant): nat {
    if es == [] then 0
    else CountAvailable(es[..|es| - 1], now) + (if EntryAvailable(es[|es| - 1], now) then 1 else 0)
  }

  function AvailableAmong(ks: seq<Key>, rows: Rows, now: string): set<Key> {
    set k | k in ks && k in rows && Available(rows[k], now)
  }

  lemma AvailableAmongLast(ks: seq<Key>, last: Key, rows: Rows, now: string)
    requires last !in ks && last in rows
    ensures |AvailableAmong(ks + [last], rows, now)|
         == |AvailableAmong(ks, rows, now)| + (if Available(rows[last], now) then 1 else 0)
  {
    assert AvailableAmong(ks + [last], rows, now)
        == AvailableAmong(ks, rows, now) + (if Available(rows[last], now) then {last} else {});
  }

  lemma {:induction false} CountIsCardinality(rows: Rows, es: seq<Entry>, now: Instant)
    requires AllRead(es, rows)
    requires forall i, j :: 0 <= i < j < |es| ==> EntryKeys(es)[i] != EntryKeys(es)[j]
    ensures CountAvailable(es, now) == |AvailableAmong(EntryKeys(es), rows, Encode(now))|
  {
    if es == [] {
      assert AvailableAmong([], rows, Encode(now)) == {};
    } else {
      var init, last := es[..|es| - 1], es[|es| - 1];
      assert EntryKeys(es) == EntryKeys(init) + [EntryKey(last)];
      assert forall i :: 0 <= i < |init| ==> EntryKeys(es)[i] == EntryKeys(init)[i];
      assert EntryKeys(es)[|init|] == EntryKey(last);
      CountIsCardinality(rows, init, now);
      AvailabilityAgrees(last, rows, now);
      AvailableAmongLast(EntryKeys(init), EntryKey(last), rows, Encode(now));
    }
  }

  /** `depth` is the number of listed entries that pass the test on parsed instants. */
  lemma DepthCountsListing(items: map<ItemId, Item>, rows: Rows, queue: string, es: seq<Entry>, now: Instant)
    requires ItemsPresent(items, rows)
    requires IsEntryListing(rows, ListedKeys(items, rows, queue, None), es)
    ensures CountAvailable(es, now) == |AvailableKeys(rows, queue, Encode(now))|
  {
    var text := Encode(now);
    CountIsCardinality(rows, es, now);
    forall k ensures k in AvailableKeys(rows, queue, text) <==> k in AvailableAmong(EntryKeys(es), rows, text) {
      assert k in EntryKeys(es) <==> k in ListedKeys(items, rows, queue, None);
    }
    assert AvailableKeys(rows, queue, text) == AvailableAmong(EntryKeys(es), rows, text);
  }

}
