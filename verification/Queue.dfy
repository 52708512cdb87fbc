/** The leased priority queue kept in `queue_items`. */
module Queue {
  import opened Common
  import opened Rfc3339
  import opened Storage

  const INTAKE := "intake"
  const HUMAN := "human"
  const OUTTAKE := "outtake"

  datatype QueueError =
    | ClaimMismatch(queue: string, item: ItemId, worker: string)
    | RowNotFound
    | ForeignKey
    | BadTimestamp

  /** A row read back, its texts parsed. */
  datatype Entry = Entry(
    queue: string,
    item: ItemId,
    priority: int,
    enqueuedAt: Instant,
    claimedBy: Option<string>,
    claimedAt: Option<Instant>,
    leaseExpiresAt: Option<Instant>)

  // ── what the statements mean ─────────────────────────────────────────

  /** `claimed_by IS NULL OR lease_expires_at < ?`; a comparison with NULL is not true. */
  predicate Available(row: Row, now: string) {
    row.claimedBy.None? || (row.leaseExpiresAt.Some? && TextLess(row.leaseExpiresAt.value, now))
  }

  /** `ORDER BY priority DESC, enqueued_at ASC`. */
  predicate Precedes(a: Row, b: Row) {
    a.priority > b.priority || (a.priority == b.priority && TextLess(a.enqueuedAt, b.enqueuedAt))
  }

  function AvailableKeys(rows: Rows, queue: string, now: string): set<Key> {
    set k | k in rows && k.queue == queue && Available(rows[k], now)
  }

  /** A row the dispatch query may return: available, and no available row precedes it.
      Rows tied on priority and time are all possible answers. */
  ghost predicate Dispatchable(rows: Rows, queue: string, now: string, k: Key) {
    k in AvailableKeys(rows, queue, now)
    && forall j :: j in AvailableKeys(rows, queue, now) ==> !Precedes(rows[j], rows[k])
  }

  predicate Holds(rows: Rows, k: Key, worker: string) {
    k in rows && rows[k].claimedBy == Some(worker)
  }

  function FreshRow(priority: int, at: string): Row {
    Row(priority, at, None, None, None)
  }

  /** `INSERT .. ON CONFLICT DO NOTHING`. */
  function Inserted(rows: Rows, k: Key, row: Row): Rows {
    if k in rows then rows else rows[k := row]
  }

  function ClaimedRow(row: Row, worker: string, now: string, expires: string): Row {
    row.(claimedBy := Some(worker), claimedAt := Some(now), leaseExpiresAt := Some(expires))
  }

  function Claimed(rows: Rows, k: Key, worker: string, now: string, expires: string): Rows
    requires k in rows
  {
    rows[k := ClaimedRow(rows[k], worker, now, expires)]
  }

  function Unclaimed(rows: Rows, k: Key): Rows
    requires k in rows
  {
    rows[k := rows[k].(claimedBy := None, claimedAt := None, leaseExpiresAt := None)]
  }

  function Moved(rows: Rows, item: ItemId, from: string, to: string, at: string): Rows {
    Inserted(rows - {Key(from, item)}, Key(to, item), FreshRow(0, at))
  }

  /** The three claim columns are all set or all null, and every text is a stamp. */
  ghost predicate RowOk(row: Row) {
    IsStamp(row.enqueuedAt)
    && row.claimedBy.Some? == row.claimedAt.Some? == row.leaseExpiresAt.Some?
    && (row.claimedAt.Some? ==> IsStamp(row.claimedAt.value))
    && (row.leaseExpiresAt.Some? ==> IsStamp(row.leaseExpiresAt.value))
  }

  ghost predicate RowsOk(rows: Rows) {
    forall k :: k in rows ==> RowOk(rows[k])
  }

  // ── order facts ──────────────────────────────────────────────────────

  lemma PrecedesIsTransitive(a: Row, b: Row, c: Row)
    requires Precedes(a, b) && Precedes(b, c)
    ensures Precedes(a, c)
  {
    if a.priority == b.priority == c.priority {
      TextLessIsTransitive(a.enqueuedAt, b.enqueuedAt, c.enqueuedAt);
    }
  }

  lemma PrecedesIsStrict(a: Row, b: Row)
    requires Precedes(a, b)
    ensures !Precedes(b, a)
  {
    if a.priority == b.priority {
      TextLessIsStrict(a.enqueuedAt, b.enqueuedAt);
    }
  }

  lemma PrecedesIsTotal(a: Row, b: Row)
    ensures Precedes(a, b) || Precedes(b, a) || (a.priority == b.priority && a.enqueuedAt == b.enqueuedAt)
  {
    TextLessIsTotal(a.enqueuedAt, b.enqueuedAt);
  }

  /** Whatever tie SQLite picks, the dispatched priority and enqueue time are the same. */
  lemma DispatchKeyIsUnique(rows: Rows, queue: string, now: string, j: Key, k: Key)
    requires Dispatchable(rows, queue, now, j) && Dispatchable(rows, queue, now, k)
    ensures rows[j].priority == rows[k].priority && rows[j].enqueuedAt == rows[k].enqueuedAt
  {
    PrecedesIsTotal(rows[j], rows[k]);
  }

  /** A claim, column by column: holder, claim time and expiry are set, the row's place in the order
      is kept, and so is every other row. */
  lemma ClaimSets(rows: Rows, k: Key, worker: string, now: string, expires: string)
    requires k in rows
    ensures var row := Claimed(rows, k, worker, now, expires)[k];
            && row.claimedBy == Some(worker) && row.claimedAt == Some(now) && row.leaseExpiresAt == Some(expires)
            && row.priority == rows[k].priority && row.enqueuedAt == rows[k].enqueuedAt
    ensures Claimed(rows, k, worker, now, expires) - {k} == rows - {k}
  {
  }

  /** A released row has its three claim columns cleared; it is available at every instant and
      keeps its place in the order. */
  lemma ReleaseFrees(rows: Rows, k: Key, now: string)
    requires k in rows
    ensures Unclaimed(rows, k)[k] == Row(rows[k].priority, rows[k].enqueuedAt, None, None, None)
    ensures Available(Unclaimed(rows, k)[k], now)
    ensures forall row: Row :: (Precedes(row, Unclaimed(rows, k)[k]) <==> Precedes(row, rows[k]))
                               && (Precedes(Unclaimed(rows, k)[k], row) <==> Precedes(rows[k], row))
    ensures Unclaimed(rows, k) - {k} == rows - {k}
  {
  }

  /** A move takes the row out of one queue and leaves an unclaimed one of priority 0 in the
      other, or the one already there; it touches nothing else. */
  lemma MoveRelocates(rows: Rows, item: ItemId, from: string, to: string, at: string, now: string)
    requires Key(from, item) in rows && from != to
    ensures var (rows', here, there) := (Moved(rows, item, from, to, at), Key(from, item), Key(to, item));
            && here !in rows' && there in rows'
            && rows' - {here, there} == rows - {here, there}
            && (there in rows ==> rows'[there] == rows[there])
            && (there !in rows ==> rows'[there] == Row(0, at, None, None, None) && Available(rows'[there], now))
  {
  }

  // ── reading rows ─────────────────────────────────────────────────────

  ghost predicate StampReads(t: Option<Instant>, text: Option<string>) {
    t.Some? == text.Some? && (t.Some? ==> StampIs(text.value, t.value))
  }

  /** `e` is the row at `k` with its texts parsed. */
  ghost predicate Reads(e: Entry, k: Key, row: Row) {
    e.queue == k.queue && e.item == k.item && e.priority == row.priority && e.claimedBy == row.claimedBy
    && StampIs(row.enqueuedAt, e.enqueuedAt)
    && StampReads(e.claimedAt, row.claimedAt) && StampReads(e.leaseExpiresAt, row.leaseExpiresAt)
  }

  function EntryKey(e: Entry): Key {
    Key(e.queue, e.item)
  }

  ghost predicate EntryReads(e: Entry, rows: Rows) {
    EntryKey(e) in rows && Reads(e, EntryKey(e), rows[EntryKey(e)])
  }

  method ReadColumn(text: Option<string>) returns (r: Result<Option<Instant>, QueueError>)
    ensures text.None? ==> r == Ok(None)
    ensures text.Some? && IsStamp(text.value) ==> r.Ok? && StampReads(r.value, text)
  {
    if text.None? { return Ok(None); }
    var t := Read(text.value);
    match t {
      case None => return Err(BadTimestamp);
      case Some(_) => return Ok(t);
    }
  }

  method ReadRow(k: Key, row: Row) returns (r: Result<Entry, QueueError>)
    ensures r.Ok? ==> EntryKey(r.value) == k
    ensures RowOk(row) ==> r.Ok? && Reads(r.value, k, row)
  {
    var t := Read(row.enqueuedAt);
    var claimed := ReadColumn(row.claimedAt);
    var expires := ReadColumn(row.leaseExpiresAt);
    match (t, claimed, expires) {
      case (Some(at), Ok(c), Ok(l)) =>
        return Ok(Entry(k.queue, k.item, row.priority, at, row.claimedBy, c, l));
      case _ => return Err(BadTimestamp);
    }
  }

  /** The query engine's pick of a first row; ties fall either way. */
  method First(rows: Rows, ks: set<Key>) returns (best: Key)
    requires ks != {} && forall k :: k in ks ==> k in rows
    ensures best in ks && forall k :: k in ks ==> !Precedes(rows[k], rows[best])
  {
    best :| best in ks;
    var todo := ks;
    while todo != {}
      invariant todo <= ks && best in ks
      invariant forall k :: k in ks - todo ==> !Precedes(rows[k], rows[best])
    {
      var k :| k in todo;
      if Precedes(rows[k], rows[best]) {
        forall j | j in ks - todo ensures !Precedes(rows[j], rows[k]) {
          if Precedes(rows[j], rows[k]) { PrecedesIsTransitive(rows[j], rows[k], rows[best]); }
        }
        best := k;
      }
      if Precedes(rows[k], rows[best]) { PrecedesIsStrict(rows[k], rows[best]); }
      todo := todo - {k};
    }
  }

  /** `ks` lists the rows `keys` in query order. */
  ghost predicate IsListing(rows: Rows, keys: set<Key>, ks: seq<Key>) {
    (forall k :: k in ks <==> k in keys)
    && (forall k :: k in keys ==> k in rows)
    && (forall i, j :: 0 <= i < j < |ks| ==> ks[i] != ks[j] && !Precedes(rows[ks[j]], rows[ks[i]]))
  }

  method Sorted(rows: Rows, keys: set<Key>) returns (ks: seq<Key>)
    requires forall k :: k in keys ==> k in rows
    ensures IsListing(rows, keys, ks)
  {
    var todo := keys;
    ks := [];
    while todo != {}
      invariant todo <= keys
      invariant forall k :: k in ks <==> k in keys - todo
      invariant forall k :: k in ks ==> k in rows
      invariant forall i, k :: 0 <= i < |ks| && k in todo ==> !Precedes(rows[k], rows[ks[i]])
      invariant forall i, j :: 0 <= i < j < |ks| ==> ks[i] != ks[j]
      invariant forall i, j :: 0 <= i < j < |ks| ==> !Precedes(rows[ks[j]], rows[ks[i]])
    {
      var k := First(rows, todo);
      todo := todo - {k};
      ghost var before := ks;
      ks := ks + [k];
      assert k !in before;
      assert forall i :: 0 <= i < |before| ==> ks[i] == before[i] && before[i] in before;
      assert forall i :: 0 <= i < |before| ==> !Precedes(rows[k], rows[before[i]]);
    }
  }

  // ── operations ───────────────────────────────────────────────────────

  method Enqueue(db: Database, queue: string, item: ItemId, priority: int, now: Instant)
      returns (r: Result<(), QueueError>)
    modifies db`rows
    ensures r.Ok? <==> Key(queue, item) in old(db.rows) || item in db.items
    ensures r.Err? ==> r.error == ForeignKey && db.rows == old(db.rows)
    ensures r.Ok? ==> db.rows == Inserted(old(db.rows), Key(queue, item), FreshRow(priority, Encode(now)))
    ensures Key(queue, item) in old(db.rows) ==> db.rows == old(db.rows)
    ensures r.Ok? && Key(queue, item) !in old(db.rows) ==>
              db.rows == old(db.rows)[Key(queue, item) := Row(priority, Encode(now), None, None, None)]
  {
    var k := Key(queue, item);
    if k in db.rows { return Ok(()); }
    if item !in db.items { return Err(ForeignKey); }
    db.rows := db.rows[k := FreshRow(priority, Encode(now))];
    return Ok(());
  }

  /** What one `dequeue` may do: claim a dispatchable row, or find nothing available. */
  ghost predicate DequeueStep(rows: Rows, queue: string, worker: string, now: string, expires: string,
                              rows': Rows, got: Option<ItemId>)
  {
    match got
    case None => AvailableKeys(rows, queue, now) == {} && rows' == rows
    case Some(item) =>
      var k := Key(queue, item);
      Dispatchable(rows, queue, now, k) && rows' == Claimed(rows, k, worker, now, expires)
  }

  function ItemOf(e: Option<Entry>): Option<ItemId> {
    if e.Some? then Some(e.value.item) else None
  }

  /** The entry handed to the caller: the row just claimed, its enqueue time parsed. */
  method ClaimedEntry(k: Key, row: Row, worker: string, now: Instant, expires: Instant)
      returns (r: Result<Entry, QueueError>)
    ensures r.Ok? ==> EntryKey(r.value) == k
    ensures RowOk(row) ==> r.Ok? && Reads(r.value, k, ClaimedRow(row, worker, Encode(now), Encode(expires)))
  {
    var enqueuedAt := Read(row.enqueuedAt);
    if enqueuedAt.None? { return Err(BadTimestamp); }
    return Ok(Entry(k.queue, k.item, row.priority, enqueuedAt.value, Some(worker), Some(now), Some(expires)));
  }

  method Dequeue(db: Database, queue: string, worker: string, now: Instant, lease: int)
      returns (r: Result<Option<Entry>, QueueError>)
    requires InRange(now + lease)
    modifies db`rows
    ensures r.Ok? ==> DequeueStep(old(db.rows), queue, worker, Encode(now), Encode(now + lease),
                                  db.rows, ItemOf(r.value))
    ensures RowsOk(old(db.rows)) ==> r.Ok? && (r.value.Some? ==> EntryReads(r.value.value, db.rows))
  {
    var text, expires := Encode(now), Encode(now + lease);
    var ks := AvailableKeys(db.rows, queue, text);
    if ks == {} { return Ok(None); }
    var k := First(db.rows, ks);
    var entry := ClaimedEntry(k, db.rows[k], worker, now, now + lease);
    db.rows := Claimed(db.rows, k, worker, text, expires);
    match entry {
      case Err(e) => return Err(e);
      case Ok(claimed) => return Ok(Some(claimed));
    }
  }

  /** `dequeue` in its own transaction: an error takes the claim back. */
  method DequeueOne(db: Database, queue: string, worker: string, now: Instant, lease: int)
      returns (r: Result<Option<Entry>, QueueError>)
    requires InRange(now + lease)
    modifies db
    ensures r.Ok? ==> DequeueStep(old(db.rows), queue, worker, Encode(now), Encode(now + lease),
                                  db.rows, ItemOf(r.value))
    ensures RowsOk(old(db.rows)) ==> r.Ok? && (r.value.Some? ==> EntryReads(r.value.value, db.rows))
    ensures r.Err? ==> db.rows == old(db.rows)
    ensures db.Contents() == old(db.Contents()).(rows := db.rows)
  {
    var begun := db.Contents();
    r := Dequeue(db, queue, worker, now, lease);
    if r.Err? {
      db.Rollback(begun);
    }
  }

  method RenewLease(db: Database, queue: string, item: ItemId, worker: string, now: Instant, duration: int)
      returns (r: Result<(), QueueError>)
    requires InRange(now + duration)
    modifies db`rows
    ensures r.Ok? <==> Holds(old(db.rows), Key(queue, item), worker)
    ensures r.Err? ==> r.error == ClaimMismatch(queue, item, worker) && db.rows == old(db.rows)
    ensures r.Ok? ==>
              var k := Key(queue, item);
              db.rows == old(db.rows)[k := old(db.rows)[k].(leaseExpiresAt := Some(Encode(now + duration)))]
  {
    var k := Key(queue, item);
    if !Holds(db.rows, k, worker) { return Err(ClaimMismatch(queue, item, worker)); }
    db.rows := db.rows[k := db.rows[k].(leaseExpiresAt := Some(Encode(now + duration)))];
    return Ok(());
  }

  method Release(db: Database, queue: string, item: ItemId, worker: string)
      returns (r: Result<(), QueueError>)
    modifies db`rows
    ensures r.Ok? <==> Holds(old(db.rows), Key(queue, item), worker)
    ensures r.Err? ==> r.error == ClaimMismatch(queue, item, worker) && db.rows == old(db.rows)
    ensures r.Ok? ==> db.rows == Unclaimed(old(db.rows), Key(queue, item))
  {
    var k := Key(queue, item);
    if !Holds(db.rows, k, worker) { return Err(ClaimMismatch(queue, item, worker)); }
    db.rows := Unclaimed(db.rows, k);
    return Ok(());
  }

  method Complete(db: Database, queue: string, item: ItemId, worker: string)
      returns (r: Result<(), QueueError>)
    modifies db`rows
    ensures r.Ok? <==> Holds(old(db.rows), Key(queue, item), worker)
    ensures r.Err? ==> r.error == ClaimMismatch(queue, item, worker) && db.rows == old(db.rows)
    ensures r.Ok? ==> db.rows == old(db.rows) - {Key(queue, item)}
  {
    var k := Key(queue, item);
    if !Holds(db.rows, k, worker) { return Err(ClaimMismatch(queue, item, worker)); }
    db.rows := db.rows - {k};
    return Ok(());
  }

  method ForceClaim(db: Database, queue: string, item: ItemId, worker: string, now: Instant, lease: int)
      returns (r: Result<(), QueueError>)
    requires InRange(now + lease)
    modifies db`rows
    ensures r.Ok? <==> Key(queue, item) in old(db.rows)
    ensures r.Err? ==> r.error == RowNotFound && db.rows == old(db.rows)
    ensures r.Ok? ==> db.rows == Claimed(old(db.rows), Key(queue, item), worker, Encode(now), Encode(now + lease))
  {
    var k := Key(queue, item);
    if k !in db.rows { return Err(RowNotFound); }
    db.rows := Claimed(db.rows, k, worker, Encode(now), Encode(now + lease));
    return Ok(());
  }

  method MoveItem(db: Database, item: ItemId, from: string, to: string, worker: string, now: Instant)
      returns (r: Result<(), QueueError>)
    modifies db`rows
    ensures r.Ok? <==> Holds(old(db.rows), Key(from, item), worker)
                       && (item in db.items || (to != from && Key(to, item) in old(db.rows)))
    ensures r.Ok? ==> db.rows == Moved(old(db.rows), item, from, to, Encode(now))
    ensures !Holds(old(db.rows), Key(from, item), worker) ==>
              r == Err(ClaimMismatch(from, item, worker)) && db.rows == old(db.rows)
  {
    if !Holds(db.rows, Key(from, item), worker) { return Err(ClaimMismatch(from, item, worker)); }
    db.rows := db.rows - {Key(from, item)};
    if Key(to, item) !in db.rows && item !in db.items { return Err(ForeignKey); }
    db.rows := Inserted(db.rows, Key(to, item), FreshRow(0, Encode(now)));
    return Ok(());
  }
}
