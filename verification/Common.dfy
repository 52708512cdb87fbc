/** Vocabulary shared by every other module: optional values, fallible results
    and the JSON values that travel in event payloads and RPC envelopes. */
module Common {

  datatype Option<+T> = None | Some(value: T)

  datatype Result<+T, +E> = Ok(value: T) | Err(error: E)

  /** Parsed JSON.  Text parsing and printing are outside the model. */
  datatype Json =
    | JNull
    | JBool(b: bool)
    | JInt(n: int)
    | JStr(s: string)
    | JList(elems: seq<Json>)
    | JObject(fields: map<string, Json>)
  {
    /** Field lookup as `serde_json::Value::get` does it: absent on a non-object. */
    function Get(name: string): Option<Json> {
      if JObject? && name in fields then Some(fields[name]) else None
    }
  }

  lemma SubsetSize<T>(a: set<T>, b: set<T>)
    requires a <= b
    ensures |a| <= |b|
    ensures b - a == {} <==> |a| == |b|
  {
    assert b == a + (b - a);
  }
}
