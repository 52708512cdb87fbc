/** The messages of the topic protocol (JSON-RPC 2.0, sections 4, 4.1, 5 and 5.1), parsed. */
module TopicProto {
  import opened Common

  const INIT := "init"
  const INGEST := "ingest"
  const EXECUTE := "execute"
  const SHUTDOWN := "shutdown"

  const CODE_TOPIC := -32000
  const CODE_METHOD_NOT_FOUND := -32601
  const CODE_INVALID_PARAMS := -32602

  datatype Request = Request(id: nat, verb: string, params: Json)

  /** The message text is whatever the sender wrote; its wording is not modelled. */
  datatype RpcError = RpcError(code: int, message: string, data: Option<Json>)

  datatype Response = Success(id: nat, result: Json) | Error(id: nat, error: RpcError)

  /** One `topic_data_set`. */
  datatype Setting = Setting(key: string, value: Json)

  /** A line from the topic: a response, a usable notification, or anything else. */
  datatype Line = Reply(response: Response) | Notify(setting: Setting) | Garbage

  datatype TopicError =
    | UnsupportedActivity(activityId: string, topicId: string)
    | Execution(activity: string, reason: string)
    | Configuration(detail: string)

  // ── typed errors on the wire ─────────────────────────────────────────

  /** `TopicErrorData`, tagged by `kind`. */
  function ErrorData(e: TopicError): Json {
    match e
    case UnsupportedActivity(a, t) =>
      JObject(map["kind" := JStr("unsupported_activity"), "activity_id" := JStr(a), "topic_id" := JStr(t)])
    case Execution(a, r) => JObject(map["kind" := JStr("execution"), "activity" := JStr(a), "reason" := JStr(r)])
    case Configuration(d) => JObject(map["kind" := JStr("configuration"), "detail" := JStr(d)])
  }

  function StrField(j: Json, name: string): Option<string> {
    match j.Get(name)
    case Some(JStr(s)) => Some(s)
    case _ => None
  }

  function ParseErrorData(j: Json): Option<TopicError> {
    match StrField(j, "kind")
    case None => None
    case Some(kind) =>
      if kind == "unsupported_activity" then
        match (StrField(j, "activity_id"), StrField(j, "topic_id"))
        case (Some(a), Some(t)) => Some(UnsupportedActivity(a, t))
        case _ => None
      else if kind == "execution" then
        match (StrField(j, "activity"), StrField(j, "reason"))
        case (Some(a), Some(r)) => Some(Execution(a, r))
        case _ => None
      else if kind == "configuration" then
        match StrField(j, "detail")
        case Some(d) => Some(Configuration(d))
        case None => None
      else None
  }

  /** `topic_error_to_rpc_error`. */
  function ToRpcError(e: TopicError, message: string): RpcError {
    RpcError(CODE_TOPIC, message, Some(ErrorData(e)))
  }

  /** `rpc_error_to_topic_error`: typed when it can be, else collapsed into `Execution`. */
  function FromRpcError(activity: string, e: RpcError): TopicError {
    if e.code == CODE_TOPIC && e.data.Some? && ParseErrorData(e.data.value).Some?
    then ParseErrorData(e.data.value).value
    else Execution(activity, e.message)
  }

  /** `response_to_payload`, for a payload that reads back as it was written. */
  function Payload(activity: string, r: Response): Result<Json, TopicError> {
    match r
    case Success(_, result) => Ok(result)
    case Error(_, e) => Err(FromRpcError(activity, e))
  }

  lemma ParseInvertsErrorData(e: TopicError)
    ensures ParseErrorData(ErrorData(e)) == Some(e)
  {
    var j := ErrorData(e);
    match e {
      case UnsupportedActivity(a, t) => assert StrField(j, "activity_id") == Some(a) && StrField(j, "topic_id") == Some(t);
      case Execution(a, r) => assert StrField(j, "activity") == Some(a) && StrField(j, "reason") == Some(r);
      case Configuration(d) => assert StrField(j, "detail") == Some(d);
    }
  }

  /** A topic's error reaches the host's caller unchanged, whatever activity it was for. */
  lemma TopicErrorSurvives(activity: string, e: TopicError, message: string)
    ensures FromRpcError(activity, ToRpcError(e, message)) == e
  {
    ParseInvertsErrorData(e);
  }

  /** The form on the wire, field by field. */
  lemma ErrorDataIs(e: TopicError)
    ensures var j := ErrorData(e);
            match e
            case UnsupportedActivity(a, t) =>
              j.Get("kind") == Some(JStr("unsupported_activity")) && j.Get("activity_id") == Some(JStr(a))
              && j.Get("topic_id") == Some(JStr(t))
            case Execution(a, r) =>
              j.Get("kind") == Some(JStr("execution")) && j.Get("activity") == Some(JStr(a)) && j.Get("reason") == Some(JStr(r))
            case Configuration(d) => j.Get("kind") == Some(JStr("configuration")) && j.Get("detail") == Some(JStr(d))
  {
    var j := ErrorData(e);
    match e {
      case UnsupportedActivity(a, t) => assert j.Get("activity_id") == Some(JStr(a)) && j.Get("topic_id") == Some(JStr(t));
      case Execution(a, r) => assert j.Get("activity") == Some(JStr(a)) && j.Get("reason") == Some(JStr(r));
      case Configuration(d) => assert j.Get("detail") == Some(JStr(d));
    }
  }

  /** What the host's caller gets: the result, the typed error when code and data carry one, and
      otherwise an `Execution` error of the caller's activity with the sender's message. */
  lemma PayloadExactly(activity: string, r: Response)
    ensures r.Success? ==> Payload(activity, r) == Ok(r.result)
    ensures r.Error? ==>
              Payload(activity, r).Err?
              && forall e: TopicError :: Payload(activity, r).error == e <==>
                   if r.error.code == -32000 && r.error.data.Some? && ParseErrorData(r.error.data.value).Some?
                   then ParseErrorData(r.error.data.value) == Some(e)
                   else e == Execution(activity, r.error.message)
  {
  }

  lemma ErrorDataIsInjective(a: TopicError, b: TopicError)
    ensures ErrorData(a) == ErrorData(b) ==> a == b
  {
    ParseInvertsErrorData(a);
    ParseInvertsErrorData(b);
  }

  // ── the settings in a stretch of lines ───────────────────────────────

  function Settings(lines: seq<Line>): seq<Setting> {
    if lines == [] then []
    else Settings(lines[..|lines| - 1]) + (if lines[|lines| - 1].Notify? then [lines[|lines| - 1].setting] else [])
  }

  lemma {:induction false} SettingsConcat(a: seq<Line>, b: seq<Line>)
    ensures Settings(a + b) == Settings(a) + Settings(b)
  {
    if b == [] {
      assert a + b == a;
    } else {
      SettingsConcat(a, b[..|b| - 1]);
      assert (a + b)[..|a + b| - 1] == a + b[..|b| - 1];
    }
  }
}
