/** Properties of whole runs of queue operations by any number of workers. */
module QueueRuns {
  import opened Common
  import opened Rfc3339
  import opened Storage
  import opened Queue

  datatype Op =
    | Enqueueing(key: Key, priority: int, itemExists: bool)
    | Dequeueing(queue: string, worker: string, lease: int, got: Option<ItemId>)
    | Renewing(key: Key, worker: string, duration: int)
    | Releasing(key: Key, worker: string)
    | Completing(key: Key, worker: string)
    | Forcing(key: Key, worker: string, lease: int)
    | Moving(item: ItemId, from: string, to: string, worker: string)

  /** One committed operation and the clock reading it used. */
  datatype Tick = Tick(now: Instant, op: Op)

  /** The clock is in range for the expiry an operation writes. */
  predicate WellTimed(t: Tick) {
    match t.op
    case Dequeueing(_, _, lease, _) => InRange(t.now + lease)
    case Renewing(_, _, duration) => InRange(t.now + duration)
    case Forcing(_, _, lease) => InRange(t.now + lease)
    case _ => true
  }

  /** What each method of `Queue` ensures; an operation that errs changes nothing. */
  ghost predicate OpNext(rows: Rows, t: Tick, rows': Rows) {
    WellTimed(t) &&
    match t.op
    case Enqueueing(k, priority, itemExists) =>
      rows' == if itemExists then Inserted(rows, k, FreshRow(priority, Encode(t.now))) else rows
    case Dequeueing(queue, worker, lease, got) =>
      DequeueStep(rows, queue, worker, Encode(t.now), Encode(t.now + lease), rows', got)
    case Renewing(k, worker, duration) =>
      rows' == if Holds(rows, k, worker)
               then rows[k := rows[k].(leaseExpiresAt := Some(Encode(t.now + duration)))] else rows
    case Releasing(k, worker) => rows' == if Holds(rows, k, worker) then Unclaimed(rows, k) else rows
    case Completing(k, worker) => rows' == if Holds(rows, k, worker) then rows - {k} else rows
    case Forcing(k, worker, lease) =>
      rows' == if k in rows then Claimed(rows, k, worker, Encode(t.now), Encode(t.now + lease)) else rows
    case Moving(item, from, to, worker) =>
      rows' == if Holds(rows, Key(from, item), worker) then Moved(rows, item, from, to, Encode(t.now)) else rows
  }

  ghost predicate Run(states: seq<Rows>, ticks: seq<Tick>) {
    |states| == |ticks| + 1 && forall i :: 0 <= i < |ticks| ==> OpNext(states[i], ticks[i], states[i + 1])
  }

  /** Each method of `Queue`, whether it succeeds or errs, is its operation; what a dequeue got is
      filled in.  The table's foreign key holds, so a moved item exists. */
  method Perform(db: Database, asked: Tick) returns (t: Tick)
    requires WellTimed(asked) && RowsOk(db.rows)
    requires asked.op.Enqueueing? ==> (asked.op.itemExists <==> asked.op.key.item in db.items)
    requires forall k :: k in db.rows ==> k.item in db.items
    modifies db
    ensures OpNext(old(db.rows), t, db.rows) && db.items == old(db.items)
    ensures if asked.op.Dequeueing? then t.op.Dequeueing? && t == asked.(op := asked.op.(got := t.op.got)) else t == asked
  {
    t := asked;
    match asked.op
    case Enqueueing(k, priority, _) =>
      var r := Enqueue(db, k.queue, k.item, priority, asked.now);
    case Dequeueing(queue, worker, lease, _) =>
      var r := DequeueOne(db, queue, worker, asked.now, lease);
      t := asked.(op := asked.op.(got := ItemOf(r.value)));
    case Renewing(k, worker, duration) =>
      var r := RenewLease(db, k.queue, k.item, worker, asked.now, duration);
    case Releasing(k, worker) =>
      var r := Release(db, k.queue, k.item, worker);
    case Completing(k, worker) =>
      var r := Complete(db, k.queue, k.item, worker);
    case Forcing(k, worker, lease) =>
      var r := ForceClaim(db, k.queue, k.item, worker, asked.now, lease);
    case Moving(item, from, to, worker) =>
      var r := MoveItem(db, item, from, to, worker, asked.now);
  }

  predicate ClockForward(ticks: seq<Tick>) {
    forall i, j :: 0 <= i < j < |ticks| ==> ticks[i].now <= ticks[j].now
  }

  // ── well-formed rows ─────────────────────────────────────────────────

  lemma EncodeIsStamp(t: Instant)
    ensures IsStamp(Encode(t))
  {
    assert StampIs(Encode(t), t);
  }

  /** Every operation keeps the claim columns aligned and every text a stamp. */
  lemma OpKeepsRowsOk(rows: Rows, t: Tick, rows': Rows)
    requires RowsOk(rows) && OpNext(rows, t, rows')
    ensures RowsOk(rows')
  {
    EncodeIsStamp(t.now);
    match t.op {
      case Dequeueing(_, _, lease, _) => EncodeIsStamp(t.now + lease);
      case Renewing(_, _, duration) => EncodeIsStamp(t.now + duration);
      case Forcing(_, _, lease) => EncodeIsStamp(t.now + lease);
      case _ =>
    }
  }

  lemma {:induction false} RunKeepsRowsOk(states: seq<Rows>, ticks: seq<Tick>, n: nat)
    requires Run(states, ticks) && RowsOk(states[0]) && n <= |ticks|
    ensures RowsOk(states[n])
  {
    if n == 0 {
    } else {
      RunKeepsRowsOk(states, ticks, n - 1);
      OpKeepsRowsOk(states[n - 1], ticks[n - 1], states[n]);
    }
  }

  // ── leases exclude ───────────────────────────────────────────────────

  /** `w` is recorded as holder of `k` until some instant not before `e`. */
  ghost predicate LeasedUntil(rows: Rows, k: Key, w: string, e: Instant) {
    Holds(rows, k, w) && rows[k].leaseExpiresAt.Some?
    && exists e': Instant :: e <= e' && StampIs(rows[k].leaseExpiresAt.value, e')
  }

  /** The holder parts with `k`, cuts its lease below `e`, or the operator takes it over. */
  predicate GivesUp(t: Tick, k: Key, w: string, e: Instant) {
    match t.op
    case Renewing(k', w', duration) => k' == k && w' == w && t.now + duration < e
    case Releasing(k', w') => k' == k && w' == w
    case Completing(k', w') => k' == k && w' == w
    case Forcing(k', _, _) => k' == k
    case Moving(item, from, _, w') => Key(from, item) == k && w' == w
    case _ => false
  }

  predicate Dispatches(t: Tick, k: Key) {
    t.op.Dequeueing? && t.op.got.Some? && Key(t.op.queue, t.op.got.value) == k
  }

  /** A lease covers its expiry instant: the row is available again exactly when the clock has passed it. */
  lemma ExpiryIsExact(row: Row, e: Instant, now: Instant)
    requires row.claimedBy.Some? && row.leaseExpiresAt.Some? && StampIs(row.leaseExpiresAt.value, e)
    ensures Available(row, Encode(now)) <==> e < now
  {
    TextOrderIsTimeOrder(e, now);
  }

  lemma HeldUntil(rows: Rows, k: Key, w: string, at: Instant, e: Instant)
    requires Holds(rows, k, w) && rows[k].leaseExpiresAt == Some(Encode(at)) && e <= at
    ensures LeasedUntil(rows, k, w, e)
  {
    assert StampIs(Encode(at), at);
  }

  lemma DequeueLeases(rows: Rows, t: Tick, rows': Rows)
    requires OpNext(rows, t, rows') && t.op.Dequeueing? && t.op.got.Some?
    ensures LeasedUntil(rows', Key(t.op.queue, t.op.got.value), t.op.worker, t.now + t.op.lease)
  {
    var e: Instant := t.now + t.op.lease;
    HeldUntil(rows', Key(t.op.queue, t.op.got.value), t.op.worker, e, e);
  }

  lemma LeasedIsUnavailable(rows: Rows, k: Key, w: string, e: Instant, now: Instant)
    requires LeasedUntil(rows, k, w, e) && now <= e
    ensures !Available(rows[k], Encode(now))
  {
    var e': Instant :| e <= e' && StampIs(rows[k].leaseExpiresAt.value, e');
    ExpiryIsExact(rows[k], e', now);
  }

  lemma SameClaimKeepsLease(rows: Rows, k: Key, w: string, e: Instant, rows': Rows)
    requires LeasedUntil(rows, k, w, e) && k in rows'
    requires rows'[k].claimedBy == rows[k].claimedBy && rows'[k].leaseExpiresAt == rows[k].leaseExpiresAt
    ensures LeasedUntil(rows', k, w, e)
  {
  }

  lemma StepKeepsLease(rows: Rows, t: Tick, rows': Rows, k: Key, w: string, e: Instant)
    requires OpNext(rows, t, rows') && LeasedUntil(rows, k, w, e)
    requires t.now <= e
    ensures !Dispatches(t, k)
    ensures !GivesUp(t, k, w, e) ==> LeasedUntil(rows', k, w, e)
  {
    LeasedIsUnavailable(rows, k, w, e, t.now);
    if t.op.Renewing? && t.op.key == k && t.op.worker == w {
      if e <= t.now + t.op.duration { HeldUntil(rows', k, w, t.now + t.op.duration, e); }
    } else if !GivesUp(t, k, w, e) {
      SameClaimKeepsLease(rows, k, w, e, rows');
    }
  }

  /** While the clock has not passed `e`, no `dequeue` hands out a row leased until `e`,
      whatever all the workers do, unless its lease was given up first. */
  lemma {:induction false} LeaseExcludes(states: seq<Rows>, ticks: seq<Tick>, k: Key, w: string, e: Instant, n: nat)
    requires Run(states, ticks) && ClockForward(ticks) && LeasedUntil(states[0], k, w, e)
    requires n < |ticks| && ticks[n].now <= e
    requires forall i :: 0 <= i < n ==> !GivesUp(ticks[i], k, w, e)
    ensures LeasedUntil(states[n], k, w, e) && !Dispatches(ticks[n], k)
  {
    if n == 0 {
    } else {
      LeaseExcludes(states, ticks, k, w, e, n - 1);
      StepKeepsLease(states[n - 1], ticks[n - 1], states[n], k, w, e);
    }
    StepKeepsLease(states[n], ticks[n], states[n + 1], k, w, e);
  }

  /** Renewal looks at the holder alone: a lease that has run out, so that any worker could claim
      the row, is in force again once its recorded holder has renewed it. */
  lemma ExpiredLeaseIsRenewed(rows: Rows, k: Key, w: string, e: Instant, now: Instant, duration: nat, rows': Rows)
    requires Holds(rows, k, w) && rows[k].leaseExpiresAt.Some? && StampIs(rows[k].leaseExpiresAt.value, e) && e < now
    requires OpNext(rows, Tick(now, Renewing(k, w, duration)), rows')
    ensures Available(rows[k], Encode(now)) && !Available(rows'[k], Encode(now))
    ensures LeasedUntil(rows', k, w, now + duration)
  {
    ExpiryIsExact(rows[k], e, now);
    assert StampIs(Encode(now + duration), now + duration);
    ExpiryIsExact(rows'[k], now + duration, now);
  }

  /** Lease exclusion: once a dequeue has handed out a row, no dequeue hands it out again while
      the clock has not passed its expiry, unless the lease was given up in between. */
  lemma DequeueExcludes(states: seq<Rows>, ticks: seq<Tick>, first: nat, n: nat)
    requires Run(states, ticks) && ClockForward(ticks) && first < n < |ticks|
    requires ticks[first].op.Dequeueing? && ticks[first].op.got.Some?
    requires ticks[n].now <= ticks[first].now + ticks[first].op.lease
    requires var (op, k) := (ticks[first].op, Key(ticks[first].op.queue, ticks[first].op.got.value));
             InRange(ticks[first].now + op.lease)
             && forall i :: first < i < n ==> !GivesUp(ticks[i], k, op.worker, ticks[first].now + op.lease)
    ensures !Dispatches(ticks[n], Key(ticks[first].op.queue, ticks[first].op.got.value))
  {
    var (op, k) := (ticks[first].op, Key(ticks[first].op.queue, ticks[first].op.got.value));
    var e: Instant := ticks[first].now + op.lease;
    DequeueLeases(states[first], ticks[first], states[first + 1]);
    var (states', ticks') := (states[first + 1..], ticks[first + 1..]);
    forall i | 0 <= i < |ticks'| ensures OpNext(states'[i], ticks'[i], states'[i + 1]) {
      assert OpNext(states[first + 1 + i], ticks[first + 1 + i], states[first + 1 + i + 1]);
    }
    LeaseExcludes(states', ticks', k, op.worker, e, n - first - 1);
  }

  // ── running a queue to empty ─────────────────────────────────────────

  /** Successive dequeues and nothing else: the `i`-th runs at text `nows[i]` and claims until `expiries[i]`. */
  datatype Drain = Drain(
    states: seq<Rows>,
    nows: seq<string>,
    expiries: seq<string>,
    workers: seq<string>,
    got: seq<ItemId>)
  {
    ghost predicate Valid(queue: string) {
      |states| == |nows| == |got| + 1 && |expiries| == |workers| == |got|
      && (forall i :: 0 <= i < |got| ==>
           DequeueStep(states[i], queue, workers[i], nows[i], expiries[i], states[i + 1], Some(got[i])))
    }

    /** The clock never runs back, and no lease in force on the queue expires before the last reading. */
    ghost predicate NoExpiry(queue: string)
      requires |states| == |nows| > 0
    {
      (forall i, j :: 0 <= i < j < |nows| ==> !TextLess(nows[j], nows[i]))
      && (forall k, j :: k in states[0] && k.queue == queue && 0 <= j < |nows| && !Available(states[0][k], nows[0])
            ==> !Available(states[0][k], nows[j]))
      && (forall i, j :: 0 <= i < |expiries| && i < j < |nows| ==> !TextLess(expiries[i], nows[j]))
    }

    function Taken(queue: string, n: nat): set<Key>
      requires n <= |got|
    {
      set i | 0 <= i < n :: Key(queue, got[i])
    }
  }

  lemma StaysAvailable(row: Row, now: string, later: string)
    requires Available(row, now) && !TextLess(later, now)
    ensures Available(row, later)
  {
    if row.claimedBy.Some? {
      TextLessIsTotal(now, later);
      if TextLess(now, later) { TextLessIsTransitive(row.leaseExpiresAt.value, now, later); }
    }
  }

  lemma DrainStep(d: Drain, queue: string, i: nat)
    requires d.Valid(queue) && i < |d.got|
    ensures Dispatchable(d.states[i], queue, d.nows[i], Key(queue, d.got[i]))
    ensures d.states[i + 1] == Claimed(d.states[i], Key(queue, d.got[i]), d.workers[i], d.nows[i], d.expiries[i])
    ensures d.Taken(queue, i + 1) == d.Taken(queue, i) + {Key(queue, d.got[i])}
  {
    assert DequeueStep(d.states[i], queue, d.workers[i], d.nows[i], d.expiries[i], d.states[i + 1], Some(d.got[i]));
  }

  /** A row already handed out: still there, same key, and leased for the rest of the drain. */
  ghost predicate HandedOut(d: Drain, n: nat, k: Key)
    requires |d.states| == |d.nows| && n < |d.states|
  {
    k in d.states[0] && k in d.states[n]
    && d.states[n][k].priority == d.states[0][k].priority
    && d.states[n][k].enqueuedAt == d.states[0][k].enqueuedAt
    && forall j :: n <= j < |d.nows| ==> !Available(d.states[n][k], d.nows[j])
  }

  /** After `n` dequeues the rows not yet handed out are untouched and the others are leased. */
  lemma {:induction false} DrainProgress(d: Drain, queue: string, n: nat)
    requires d.Valid(queue) && d.NoExpiry(queue) && n <= |d.got|
    ensures d.states[n].Keys == d.states[0].Keys
    ensures forall k :: k in d.states[0] && k !in d.Taken(queue, n) ==> d.states[n][k] == d.states[0][k]
    ensures forall k :: k in d.Taken(queue, n) ==> HandedOut(d, n, k)
  {
    if n == 0 {
    } else {
      DrainProgress(d, queue, n - 1);
      DrainStep(d, queue, n - 1);
      var taken := Key(queue, d.got[n - 1]);
      assert !HandedOut(d, n - 1, taken);
      forall k | k in d.Taken(queue, n) ensures HandedOut(d, n, k) {
        assert k != taken ==> HandedOut(d, n - 1, k);
      }
    }
  }

  lemma DrainAvailable(d: Drain, queue: string, n: nat)
    requires d.Valid(queue) && d.NoExpiry(queue) && n <= |d.got|
    ensures AvailableKeys(d.states[n], queue, d.nows[n])
         == AvailableKeys(d.states[0], queue, d.nows[0]) - d.Taken(queue, n)
  {
    DrainProgress(d, queue, n);
    forall k ensures k in AvailableKeys(d.states[n], queue, d.nows[n])
                <==> k in AvailableKeys(d.states[0], queue, d.nows[0]) - d.Taken(queue, n)
    {
      if k in d.Taken(queue, n) {
        assert HandedOut(d, n, k);
      } else if k in d.states[0] && n > 0 && Available(d.states[0][k], d.nows[0]) {
        StaysAvailable(d.states[0][k], d.nows[0], d.nows[n]);
      }
    }
  }

  lemma {:induction false} TakenCount(d: Drain, queue: string, n: nat)
    requires d.Valid(queue) && d.NoExpiry(queue) && n <= |d.got|
    ensures |d.Taken(queue, n)| == n
    ensures d.Taken(queue, n) <= AvailableKeys(d.states[0], queue, d.nows[0])
  {
    if n == 0 {
    } else {
      TakenCount(d, queue, n - 1);
      DrainAvailable(d, queue, n - 1);
      DrainStep(d, queue, n - 1);
    }
  }

  /** The `i`-th row handed out was available at the start and is never overtaken by a later one. */
  ghost predicate OrderedPair(d: Drain, queue: string, i: nat, j: nat)
    requires i < |d.got| && j < |d.got| && |d.states| > 0
  {
    var (ki, kj) := (Key(queue, d.got[i]), Key(queue, d.got[j]));
    ki != kj && ki in d.states[0] && kj in d.states[0] && !Precedes(d.states[0][kj], d.states[0][ki])
  }

  lemma DrainPair(d: Drain, queue: string, i: nat, j: nat)
    requires d.Valid(queue) && d.NoExpiry(queue) && i < j < |d.got|
    ensures OrderedPair(d, queue, i, j)
  {
    var (ki, kj) := (Key(queue, d.got[i]), Key(queue, d.got[j]));
    DrainAvailable(d, queue, i);
    DrainAvailable(d, queue, j);
    DrainStep(d, queue, i);
    DrainStep(d, queue, j);
    DrainProgress(d, queue, i);
    assert ki in d.Taken(queue, j);
    assert d.Taken(queue, i) <= d.Taken(queue, j);
    assert ki !in d.Taken(queue, i) && kj !in d.Taken(queue, i);
  }

  /** Draining hands out each available row once, in priority order and oldest first
      within a priority; it finds nothing exactly after `depth` claims. */
  lemma DrainIsOrdered(d: Drain, queue: string)
    requires d.Valid(queue) && d.NoExpiry(queue)
    ensures forall i, j :: 0 <= i < j < |d.got| ==> OrderedPair(d, queue, i, j)
    ensures d.Taken(queue, |d.got|) <= AvailableKeys(d.states[0], queue, d.nows[0])
    ensures |d.got| <= |AvailableKeys(d.states[0], queue, d.nows[0])|
    ensures AvailableKeys(d.states[|d.got|], queue, d.nows[|d.got|]) == {}
       <==> |d.got| == |AvailableKeys(d.states[0], queue, d.nows[0])|
  {
    var all := AvailableKeys(d.states[0], queue, d.nows[0]);
    TakenCount(d, queue, |d.got|);
    DrainAvailable(d, queue, |d.got|);
    SubsetSize(d.Taken(queue, |d.got|), all);
    forall i, j | 0 <= i < j < |d.got| ensures OrderedPair(d, queue, i, j) {
      DrainPair(d, queue, i, j);
    }
  }

  /** The same order in the columns' own terms: priorities never rise, and within one priority
      enqueue instants never fall. */
  lemma DrainIsByPriorityThenAge(d: Drain, queue: string, i: nat, j: nat, ti: Instant, tj: Instant)
    requires d.Valid(queue) && d.NoExpiry(queue) && i < j < |d.got|
    requires var rows := d.states[0];
             && Key(queue, d.got[i]) in rows && StampIs(rows[Key(queue, d.got[i])].enqueuedAt, ti)
             && Key(queue, d.got[j]) in rows && StampIs(rows[Key(queue, d.got[j])].enqueuedAt, tj)
    ensures var (a, b) := (d.states[0][Key(queue, d.got[i])], d.states[0][Key(queue, d.got[j])]);
            a.priority > b.priority || (a.priority == b.priority && ti <= tj)
  {
    DrainPair(d, queue, i, j);
    TextOrderIsTimeOrder(tj, ti);
  }

}
