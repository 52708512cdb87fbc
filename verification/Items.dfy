/** The `items` projection and its dedupe constraint. */
module Items {
  import opened Common
  import opened Storage

  datatype ItemsError =
    | PrimaryKey(id: ItemId)
    | DuplicateSource(sourceInstanceId: Option<string>, externalId: Option<string>)

  /** The pair of `UNIQUE (source_instance_id, external_id)`; absent when either column is null,
      since SQLite keeps nulls distinct. */
  datatype SourcePair = SourcePair(sourceInstanceId: string, externalId: string)

  function PairOf(item: Item): Option<SourcePair> {
    if item.sourceInstanceId.Some? && item.externalId.Some?
    then Some(SourcePair(item.sourceInstanceId.value, item.externalId.value)) else None
  }

  /** The pairs already taken. */
  function Pairs(items: map<ItemId, Item>): set<SourcePair> {
    set id | id in items && PairOf(items[id]).Some? :: PairOf(items[id]).value
  }

  predicate Duplicates(items: map<ItemId, Item>, item: Item) {
    PairOf(item).Some? && PairOf(item).value in Pairs(items)
  }

  /** An item is refused exactly when some row has the same instance and the same external id, both
      given. */
  lemma DuplicatesExactly(items: map<ItemId, Item>, item: Item)
    ensures Duplicates(items, item) <==>
            item.sourceInstanceId.Some? && item.externalId.Some?
            && exists id :: id in items && items[id].sourceInstanceId == item.sourceInstanceId
                            && items[id].externalId == item.externalId
  {
    if id :| id in items && items[id].sourceInstanceId == item.sourceInstanceId && items[id].externalId == item.externalId
             && PairOf(item).Some? {
      assert PairOf(items[id]) == PairOf(item);
      assert PairOf(item).value in Pairs(items);
    }
  }

  predicate Unique(items: map<ItemId, Item>) {
    forall a, b :: a in items && b in items && a != b && PairOf(items[a]).Some? ==> PairOf(items[a]) != PairOf(items[b])
  }

  /** `insert` with `classify_insert_error`. */
  method Insert(db: Database, id: ItemId, item: Item) returns (r: Result<(), ItemsError>)
    modifies db`items
    ensures r.Ok? <==> id !in old(db.items) && !Duplicates(old(db.items), item)
    ensures r.Err? ==> db.items == old(db.items)
    ensures r == Err(DuplicateSource(item.sourceInstanceId, item.externalId))
       <==> id !in old(db.items) && Duplicates(old(db.items), item)
    ensures r.Ok? ==> db.items == old(db.items)[id := item]
  {
    if id in db.items { return Err(PrimaryKey(id)); }
    if Duplicates(db.items, item) { return Err(DuplicateSource(item.sourceInstanceId, item.externalId)); }
    db.items := db.items[id := item];
    return Ok(());
  }

  lemma InsertKeepsUnique(items: map<ItemId, Item>, id: ItemId, item: Item)
    requires Unique(items) && id !in items && !Duplicates(items, item)
    ensures Unique(items[id := item])
    ensures Pairs(items[id := item]) == Pairs(items) + (if PairOf(item).Some? then {PairOf(item).value} else {})
  {
    var items' := items[id := item];
    forall a | a in items && PairOf(items[a]).Some? ensures PairOf(items[a]) != PairOf(item) {
      assert PairOf(items[a]).value in Pairs(items);
    }
    forall p ensures p in Pairs(items') <==> p in Pairs(items) || PairOf(item) == Some(p) {
      if p in Pairs(items) {
        var a :| a in items && PairOf(items[a]) == Some(p);
        assert a in items' && PairOf(items'[a]) == Some(p);
      }
      if PairOf(item) == Some(p) { assert id in items' && PairOf(items'[id]) == Some(p); }
    }
  }
}
