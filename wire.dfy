/** Values exchanged between the API Gateway, the two Lambda handlers and the
    browser client. JSON text is not modelled: a body is the value before it is
    encoded (or after it is decoded). */
module Wire {

  datatype Option<+T> = None | Some(value: T)

  /** A table item, as stored by the write handler and returned by a scan:
      attribute name to string value. */
  type Item = map<string, string>

  /** The JSON value a handler passes to `json.dumps` as the reply body. */
  datatype Body =
    | Message(message: string)               // {"message": ...}
    | Error(error: string)                   // {"error": str(e)}
    | Logs(logs: seq<Item>)                  // a JSON array of items
    | Saved(message: string, logId: string)  // {"message": ..., "log_id": ...}

  /** The dictionary a handler returns to API Gateway. */
  datatype Reply = Reply(statusCode: int, headers: map<string, string>, body: Body)

  /** What `json.loads(event['body'])` produced: a JSON object whose members
      are strings, another JSON value (subscripting it by a string raises the
      given TypeError text), or a decoding error. */
  datatype Document = Object(fields: map<string, string>) | NonObject(indexError: string)
  datatype RawBody = Parsed(doc: Document) | Unparseable(decodeError: string)

  /** The parts of the API Gateway proxy event the handlers look at; `None`
      is a key absent from the event dictionary. */
  datatype Event = Event(httpMethod: Option<string>, body: Option<RawBody>)

  /** A key that Python's `repr` prints between single quotes without any
      escape: printable ASCII other than the two quotes and the backslash. */
  predicate PlainKey(key: string)
  {
    forall i :: 0 <= i < |key| ==> key[i] != '\'' && key[i] != '"' && key[i] != '\\' && ' ' <= key[i] <= '~'
  }

  /** `str(KeyError(key))`, which is `repr(key)`: for a plain key, the key in
      single quotes. */
  function KeyErrorText(key: string): (r: string)
    requires PlainKey(key)
    ensures |r| == |key| + 2 && r[0] == r[|r| - 1] == '\''
    ensures r[1..|r| - 1] == key
  {
    "'" + key + "'"
  }
}
