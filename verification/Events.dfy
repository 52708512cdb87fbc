/** The append-only event log. */
module Events {
  import opened Common
  import opened Storage

  datatype EventsError = DuplicateId(id: string)

  predicate Recorded(log: seq<Event>, id: string) {
    exists i :: 0 <= i < |log| && log[i].id == id
  }

  /** `new_item_event`: the item id is merged into the payload object. */
  function NewItemEvent(id: string, item: ItemId, kind: EventType, actor: Actor, extra: map<string, Json>): Event {
    Event(id, kind, actor, JObject(extra["item_id" := JStr(item)]))
  }

  method Append(db: Database, e: Event) returns (r: Result<(), EventsError>)
    modifies db`events
    ensures r.Ok? <==> !Recorded(old(db.events), e.id)
    ensures db.events == if r.Ok? then old(db.events) + [e] else old(db.events)
  {
    if Recorded(db.events, e.id) { return Err(DuplicateId(e.id)); }
    db.events := db.events + [e];
    return Ok(());
  }

  /** May these events be appended one after another? */
  predicate Appendable(log: seq<Event>, es: seq<Event>) {
    (forall i :: 0 <= i < |es| ==> !Recorded(log, es[i].id))
    && (forall i, j :: 0 <= i < j < |es| ==> es[i].id != es[j].id)
  }

  lemma RecordedConcat(a: seq<Event>, b: seq<Event>, id: string)
    ensures Recorded(a + b, id) <==> Recorded(a, id) || Recorded(b, id)
  {
    if Recorded(a, id) {
      var i :| 0 <= i < |a| && a[i].id == id;
      assert (a + b)[i].id == id;
    }
    if Recorded(b, id) {
      var i :| 0 <= i < |b| && b[i].id == id;
      assert (a + b)[|a| + i].id == id;
    }
  }

  lemma AppendableSnoc(log: seq<Event>, es: seq<Event>, e: Event)
    ensures Appendable(log, es + [e]) <==> Appendable(log, es) && !Recorded(log + es, e.id)
  {
    RecordedConcat(log, es, e.id);
    var all := es + [e];
    assert all[|es|] == e && forall i :: 0 <= i < |es| ==> all[i] == es[i];
  }

  lemma AppendablePrefix(log: seq<Event>, es: seq<Event>, n: nat)
    requires n <= |es|
    ensures Appendable(log, es) ==> Appendable(log, es[..n])
  {
  }

  method AppendAll(db: Database, es: seq<Event>) returns (r: Result<(), EventsError>)
    modifies db`events
    ensures r.Ok? <==> Appendable(old(db.events), es)
    ensures r.Ok? ==> db.events == old(db.events) + es
  {
    ghost var log := db.events;
    for n := 0 to |es|
      invariant db.events == log + es[..n]
      invariant Appendable(log, es[..n])
    {
      var one := Append(db, es[n]);
      AppendableSnoc(log, es[..n], es[n]);
      assert es[..n] + [es[n]] == es[..n + 1];
      if one.Err? {
        AppendablePrefix(log, es, n + 1);
        return one;
      }
    }
    assert es[..|es|] == es;
    return Ok(());
  }

}
