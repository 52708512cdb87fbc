/** The SQLite tables of the server, as maps and an append-only log.

    A transaction runs on the tables in place; its composer keeps the values they
    had at the start and puts them back when a step fails. */
module Storage {
  import opened Common

  /** A UUID in its canonical text form, as the TEXT columns hold it. */
  type ItemId = string

  datatype Item = Item(
    title: string,
    body: Option<string>,
    sourceInstanceId: Option<string>,
    externalId: Option<string>,
    metadata: Json)

  datatype EventType =
    | ItemCreated
    | IntakeLlmAnalysis
    | ActionTaken
    | ReIntakeRequested
    | ReviewLlmAnalysis
    | SuggestionCreated
    | UpstreamSignalSent
    | UpstreamSignalReceived
    | PolicyUpdated
    | TopicDataUpdated
    | ItemEnqueued
    | ItemDequeued
    | ItemReleased
    | ItemCompleted
    | ItemMoved

  datatype Actor = System | IntakeLlm | ReviewLlm | Human | Topic(topicId: string)

  datatype Event = Event(id: string, kind: EventType, actor: Actor, payload: Json)

  /** Primary key of `queue_items`. */
  datatype Key = Key(queue: string, item: ItemId)

  /** The other columns of `queue_items`; the three claim columns are nullable. */
  datatype Row = Row(
    priority: int,
    enqueuedAt: string,
    claimedBy: Option<string>,
    claimedAt: Option<string>,
    leaseExpiresAt: Option<string>)

  type Rows = map<Key, Row>

  /** A (topic id, key) pair: primary key of `topic_data`. */
  datatype DataKey = DataKey(topic: string, key: string)

  datatype State = State(
    events: seq<Event>,
    items: map<ItemId, Item>,
    rows: Rows,
    topicData: map<DataKey, Json>)

  const EMPTY := State([], map[], map[], map[])

  class Database {
    var events: seq<Event>
    var items: map<ItemId, Item>
    var rows: Rows
    var topicData: map<DataKey, Json>

    function Contents(): State
      reads this
    {
      State(events, items, rows, topicData)
    }

    constructor ()
      ensures Contents() == EMPTY
    {
      events, items, rows, topicData := [], map[], map[], map[];
    }

    /** Discards everything done since `begun` was read. */
    method Rollback(begun: State)
      modifies this
      ensures Contents() == begun
    {
      events, items, rows, topicData := begun.events, begun.items, begun.rows, begun.topicData;
    }
  }
}
