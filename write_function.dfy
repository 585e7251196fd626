/** The write Lambda: answers the CORS preflight, otherwise builds a log
    record from the request body, stores it, and echoes its id. The record's
    id and timestamp (`uuid4`, `utcnow`) and what `put_item` does are given
    as parameters; the table is the sequence of items stored so far. */
module WriteFunction {
  import opened Wire

  const Headers: map<string, string> := map[
    "Access-Control-Allow-Origin" := "*",
    "Access-Control-Allow-Headers" := "*",
    "Access-Control-Allow-Methods" := "OPTIONS,POST,GET"
  ]

  const PreflightMessage := "CORS preflight passed"
  const SavedMessage := "Log saved"

  /** The four attribute names of a stored record. */
  const RecordKeys: set<string> := {"log_id", "datetime", "severity", "message"}

  /** What `table.put_item` did. */
  datatype PutOutcome = Stored | PutRaised(error: string)

  /** The handler either returns a reply or lets an exception escape. */
  datatype Outcome = Replied(reply: Reply) | Raised(error: string)

  datatype WriteResult = WriteResult(outcome: Outcome, store: seq<Item>)

  /** The `log_entry` dictionary: exactly the four record keys, with severity
      and message taken over unchanged. */
  function LogEntry(logId: string, now: string, severity: string, message: string): (r: Item)
    ensures r.Keys == RecordKeys
    ensures r["log_id"] == logId && r["datetime"] == now
    ensures r["severity"] == severity && r["message"] == message
  {
    map["log_id" := logId, "datetime" := now, "severity" := severity, "message" := message]
  }

  /** What the try block makes of the body before `put_item`: the record, or
      the text of the exception that stopped it. */
  datatype Built = Entry(item: Item) | Failed(error: string)

  /** `json.loads(event['body'])` and the two subscripts, in the order Python
      evaluates them. A record is built exactly when the body decodes to an
      object holding both `severity` and `message`; otherwise the error is
      that of the first step to fail: the missing `body` key, the decoder, the
      subscript of a non-object, or the missing `severity` before `message`. */
  function BuildEntry(body: Option<RawBody>, logId: string, now: string): (r: Built)
    ensures r.Entry? <==> body.Some? && body.value.Parsed? && body.value.doc.Object?
                          && "severity" in body.value.doc.fields && "message" in body.value.doc.fields
    ensures r.Entry? ==> r.item == LogEntry(logId, now, body.value.doc.fields["severity"],
                                            body.value.doc.fields["message"])
    ensures body.None? ==> r == Failed(KeyErrorText("body"))
    ensures body.Some? && body.value.Unparseable? ==> r == Failed(body.value.decodeError)
    ensures body.Some? && body.value.Parsed? && body.value.doc.NonObject?
            ==> r == Failed(body.value.doc.indexError)
    ensures body.Some? && body.value.Parsed? && body.value.doc.Object? && r.Failed? ==>
              r.error == KeyErrorText(if "severity" !in body.value.doc.fields then "severity" else "message")
  {
    match body
    case None => Failed(KeyErrorText("body"))
    case Some(Unparseable(e)) => Failed(e)
    case Some(Parsed(NonObject(e))) => Failed(e)
    case Some(Parsed(Object(fields))) =>
      if "severity" !in fields then Failed(KeyErrorText("severity"))
      else if "message" !in fields then Failed(KeyErrorText("message"))
      else Entry(LogEntry(logId, now, fields["severity"], fields["message"]))
  }

  /** `lambda_handler`, with the table before the call as `store`. */
  function HandleWrite(event: Event, logId: string, now: string, put: PutOutcome, store: seq<Item>)
    : (r: WriteResult)
    ensures r.outcome.Replied? ==> r.outcome.reply.headers == Headers
    ensures r.store == store || |r.store| == |store| + 1
    ensures r.store[..|store|] == store
    ensures r.store != store <==> r.outcome.Replied? && r.outcome.reply.statusCode == 200
                                  && r.outcome.reply.body.Saved?
    ensures r.store != store ==>
      && r.store[|store|].Keys == RecordKeys
      && r.store[|store|]["log_id"] == logId == r.outcome.reply.body.logId
  {
    match event.httpMethod
    case None => WriteResult(Raised(KeyErrorText("httpMethod")), store)
    case Some(verb) =>
      if verb == "OPTIONS" then
        WriteResult(Replied(Reply(200, Headers, Message(PreflightMessage))), store)
      else
        match BuildEntry(event.body, logId, now)
        case Failed(e) => WriteResult(Replied(Reply(500, Headers, Error(e))), store)
        case Entry(entry) =>
          match put
          case PutRaised(e) => WriteResult(Replied(Reply(500, Headers, Error(e))), store)
          case Stored =>
            WriteResult(Replied(Reply(200, Headers, Saved(SavedMessage, entry["log_id"]))), store + [entry])
  }

  /** OPTIONS gets the preflight reply and nothing is written. */
  lemma PreflightWritesNothing(event: Event, logId: string, now: string, put: PutOutcome, store: seq<Item>)
    requires event.httpMethod == Some("OPTIONS")
    ensures HandleWrite(event, logId, now, put, store)
      == WriteResult(Replied(Reply(200, Headers, Message(PreflightMessage))), store)
  {
  }

  /** `event["httpMethod"]` is read outside the try block: without it the
      handler raises instead of replying, and nothing is written. */
  lemma MissingMethodRaises(body: Option<RawBody>, logId: string, now: string, put: PutOutcome, store: seq<Item>)
    ensures HandleWrite(Event(None, body), logId, now, put, store)
      == WriteResult(Raised(KeyErrorText("httpMethod")), store)
  {
  }

  /** A record is stored exactly when the method is present and not OPTIONS,
      the body is an object with both `severity` and `message`, and `put_item`
      succeeds; the stored record holds those two values verbatim and the
      reply echoes its id. */
  lemma StoresIffWellFormed(event: Event, logId: string, now: string, put: PutOutcome, store: seq<Item>)
    ensures var r := HandleWrite(event, logId, now, put, store);
      var ok := event.httpMethod.Some? && event.httpMethod.value != "OPTIONS"
        && event.body.Some? && event.body.value.Parsed? && event.body.value.doc.Object?
        && "severity" in event.body.value.doc.fields && "message" in event.body.value.doc.fields
        && put.Stored?;
      && (ok <==> r.store != store)
      && (ok ==> var fields := event.body.value.doc.fields;
            && r.store == store + [LogEntry(logId, now, fields["severity"], fields["message"])]
            && r.outcome == Replied(Reply(200, Headers, Saved(SavedMessage, logId))))
  {
  }

  /** Every failure inside the try block becomes a 500 reply carrying the
      exception's text, and the table is unchanged. */
  lemma FailureReply(event: Event, logId: string, now: string, put: PutOutcome, store: seq<Item>)
    requires event.httpMethod.Some? && event.httpMethod.value != "OPTIONS"
    requires BuildEntry(event.body, logId, now).Failed? || put.PutRaised?
    ensures var r := HandleWrite(event, logId, now, put, store);
      && r.store == store
      && r.outcome.Replied? && r.outcome.reply.statusCode == 500
      && r.outcome.reply.body == Error(if BuildEntry(event.body, logId, now).Failed?
                                       then BuildEntry(event.body, logId, now).error else put.error)
  {
  }

  /** A missing key is reported as Python's KeyError text; `severity` is
      looked up first. */
  lemma MissingFieldError(fields: map<string, string>)
    requires "severity" !in fields || "message" !in fields
    ensures BuildEntry(Some(Parsed(Object(fields))), "", "")
      == Failed(KeyErrorText(if "severity" !in fields then "severity" else "message"))
  {
  }

  /** Every item in the table is a four-field record. */
  predicate WellFormedStore(store: seq<Item>)
  {
    forall i :: 0 <= i < |store| ==> store[i].Keys == RecordKeys
  }

  /** No two records share a `log_id`. */
  predicate DistinctIds(store: seq<Item>)
    requires WellFormedStore(store)
  {
    forall i, j :: 0 <= i < j < |store| ==> store[i]["log_id"] != store[j]["log_id"]
  }

  /** The handler only ever adds four-field records, and keeps ids distinct
      whenever the id it is given is not yet in the table. */
  lemma HandleWriteKeepsStoreWellFormed(
    event: Event, logId: string, now: string, put: PutOutcome, store: seq<Item>)
    requires WellFormedStore(store) && DistinctIds(store)
    requires forall i :: 0 <= i < |store| ==> store[i]["log_id"] != logId
    ensures var s := HandleWrite(event, logId, now, put, store).store;
      WellFormedStore(s) && DistinctIds(s)
  {
  }
}
