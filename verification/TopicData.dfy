/** Settings kept for a topic: an event for each, and a last-writer-wins table beside the log. */
module TopicData {
  import opened Common
  import opened Storage
  import opened Events

  function DataEvent(id: string, topic: string, key: string, value: Json): Event {
    Event(id, TopicDataUpdated, Topic(topic), JObject(map["topic_id" := JStr(topic), "key" := JStr(key), "value" := value]))
  }

  /** The event first; without it the table is not touched either. */
  function AfterSetData(s: State, id: string, topic: string, key: string, value: Json, upserts: bool): State {
    if Recorded(s.events, id) then s
    else s.(events := s.events + [DataEvent(id, topic, key, value)],
            topicData := if upserts then s.topicData[DataKey(topic, key) := value] else s.topicData)
  }

  method Upsert(db: Database, topic: string, key: string, value: Json)
    modifies db`topicData
    ensures db.topicData == old(db.topicData)[DataKey(topic, key) := value]
  {
    db.topicData := db.topicData[DataKey(topic, key) := value];
  }

  /** `DbBackedSink::set_data`: two writes, not one transaction; `upserts` when the second succeeds. */
  method SetData(db: Database, id: string, topic: string, key: string, value: Json, upserts: bool)
    modifies db
    ensures db.Contents() == AfterSetData(old(db.Contents()), id, topic, key, value, upserts)
  {
    var appended := Append(db, DataEvent(id, topic, key, value));
    if appended.Err? { return; }
    if upserts {
      Upsert(db, topic, key, value);
    }
  }

  /** The snapshot a topic is hydrated from: its own keys, each with its stored value. */
  method GetAll(db: Database, topic: string) returns (data: map<string, Json>)
    ensures forall key :: key in data <==> DataKey(topic, key) in db.topicData
    ensures forall key :: key in data ==> data[key] == db.topicData[DataKey(topic, key)]
  {
    data := map[];
    var rows := set k | k in db.topicData && k.topic == topic;
    while rows != {}
      invariant forall k :: k in rows ==> k in db.topicData && k.topic == topic
      invariant forall key :: key in data <==> DataKey(topic, key) in db.topicData && DataKey(topic, key) !in rows
      invariant forall key :: key in data ==> data[key] == db.topicData[DataKey(topic, key)]
      decreases |rows|
    {
      var k :| k in rows;
      assert k == DataKey(topic, k.key);
      data := data[k.key := db.topicData[k]];
      rows := rows - {k};
    }
  }

  // ── the table against the log ────────────────────────────────────────

  datatype Write = Write(at: DataKey, value: Json)

  function WriteOf(e: Event): Option<Write> {
    if e.kind != TopicDataUpdated then None
    else
      match (e.payload.Get("topic_id"), e.payload.Get("key"), e.payload.Get("value"))
      case (Some(JStr(topic)), Some(JStr(key)), Some(value)) => Some(Write(DataKey(topic, key), value))
      case _ => None
  }

  /** What the log alone says the settings are: the last write to each key. */
  function ReplayData(log: seq<Event>): map<DataKey, Json> {
    if log == [] then map[]
    else
      var before := ReplayData(log[..|log| - 1]);
      match WriteOf(log[|log| - 1])
      case None => before
      case Some(w) => before[w.at := w.value]
  }

  lemma ReplayedWrite(log: seq<Event>, id: string, topic: string, key: string, value: Json)
    ensures ReplayData(log + [DataEvent(id, topic, key, value)]) == ReplayData(log)[DataKey(topic, key) := value]
  {
    var e := DataEvent(id, topic, key, value);
    assert (log + [e])[..|log + [e]| - 1] == log;
    assert e.payload.Get("topic_id") == Some(JStr(topic)) && e.payload.Get("key") == Some(JStr(key));
    assert WriteOf(e) == Some(Write(DataKey(topic, key), value));
  }

  function ValueAt(data: map<DataKey, Json>, k: DataKey): Option<Json> {
    if k in data then Some(data[k]) else None
  }

  /** The value these events write last to `k`, if they write to it. */
  function LastWrite(es: seq<Event>, k: DataKey): Option<Json> {
    if es == [] then None
    else
      var w := WriteOf(es[|es| - 1]);
      if w.Some? && w.value.at == k then Some(w.value.value) else LastWrite(es[..|es| - 1], k)
  }

  lemma {:induction false} ReplayIsLastWrite(log: seq<Event>, k: DataKey)
    ensures ValueAt(ReplayData(log), k) == LastWrite(log, k)
  {
    if log == [] {
    } else {
      ReplayIsLastWrite(log[..|log| - 1], k);
    }
  }

  /** Later writes decide. */
  lemma {:induction false} LastWriteConcat(a: seq<Event>, b: seq<Event>, k: DataKey)
    ensures LastWrite(a + b, k) == if LastWrite(b, k).Some? then LastWrite(b, k) else LastWrite(a, k)
  {
    if b == [] {
      assert a + b == a;
    } else {
      LastWriteConcat(a, b[..|b| - 1], k);
      assert (a + b)[..|a + b| - 1] == a + b[..|b| - 1];
    }
  }

  /** Table and replayed log say the same about `k`. */
  predicate AgreesAt(s: State, k: DataKey) {
    ValueAt(s.topicData, k) == ValueAt(ReplayData(s.events), k)
  }

  /** Appending events leaves agreement as it was at a key they do not write to; at a key they
      do, it then holds exactly when the table has the value they write last. */
  lemma AppendAgreesExactly(s: State, es: seq<Event>, s': State, k: DataKey)
    requires s'.events == s.events + es
    ensures LastWrite(es, k).Some? ==> (AgreesAt(s', k) <==> ValueAt(s'.topicData, k) == LastWrite(es, k))
    ensures LastWrite(es, k).None? && ValueAt(s'.topicData, k) == ValueAt(s.topicData, k) ==>
              (AgreesAt(s', k) <==> AgreesAt(s, k))
  {
    ReplayIsLastWrite(s.events, k);
    ReplayIsLastWrite(s'.events, k);
    LastWriteConcat(s.events, es, k);
  }

  lemma DataEventWrites(id: string, topic: string, key: string, value: Json, k: DataKey)
    ensures LastWrite([DataEvent(id, topic, key, value)], k) == if DataKey(topic, key) == k then Some(value) else None
  {
    var e := DataEvent(id, topic, key, value);
    assert e.payload.Get("topic_id") == Some(JStr(topic)) && e.payload.Get("key") == Some(JStr(key));
    assert WriteOf(e) == Some(Write(DataKey(topic, key), value));
    assert [e][..0] == [];
  }

  /** One `set_data` keeps the table equal to the replayed log at its key exactly when the table
      write was done, or changed nothing, or the event was refused; other keys are unaffected. */
  lemma SetDataAgreesExactly(s: State, id: string, topic: string, key: string, value: Json, upserts: bool)
    ensures var (k, s') := (DataKey(topic, key), AfterSetData(s, id, topic, key, value, upserts));
            AgreesAt(s', k) <==>
              if Recorded(s.events, id) then AgreesAt(s, k)
              else upserts || (k in s.topicData && s.topicData[k] == value)
    ensures var s' := AfterSetData(s, id, topic, key, value, upserts);
            forall k :: k != DataKey(topic, key) ==> (AgreesAt(s', k) <==> AgreesAt(s, k))
  {
    ReplayedWrite(s.events, id, topic, key, value);
  }
}
