/** How the pieces fit together: what the client posts reaches the table
    verbatim, the read handler returns it, and the client displays it; and what
    the client shows for each kind of reply. */
module EndToEnd {
  import opened Wire
  import ReadFunction
  import WriteFunction
  import opened App

  /** The decoded reply body as `sendLog` sees it: `result.message` and
      `result.error` of an array are `undefined`. */
  function ReplyObject(body: Body): map<string, JsValue>
  {
    match body
    case Message(m) => map["message" := Str(m)]
    case Error(e) => map["error" := Str(e)]
    case Saved(m, id) => map["message" := Str(m), "log_id" := Str(id)]
    case Logs(_) => map[]
  }

  /** The decoded reply body as `loadLogs` sees it. */
  function AsPayload(body: Body): (r: Payload)
    ensures r.LogArray? <==> body.Logs?
  {
    if body.Logs? then LogArray(body.logs) else NotArray
  }

  /** The API Gateway event for the request `sendLog` makes. */
  function PostEvent(severity: string, message: string): Event
  {
    Event(Some("POST"), Some(Parsed(Object(RequestBody(severity, message)))))
  }

  /** Submitting through the client stores exactly the typed severity and
      message, and the alert reads "Log saved". */
  lemma SubmitStoresVerbatim(
    severity: string, message: string, logId: string, now: string, store: seq<Item>)
    ensures var r := WriteFunction.HandleWrite(PostEvent(severity, message), logId, now, WriteFunction.Stored, store);
      && r.store == store + [WriteFunction.LogEntry(logId, now, severity, message)]
      && r.outcome.Replied?
      && SendLog(severity, message, Some(ReplyObject(r.outcome.reply.body))).alerted
         == Some(Str(WriteFunction.SavedMessage))
  {
  }

  /** When storing fails the alert shows the error text, or 'Submitted' when
      that text is empty; the table is unchanged. */
  lemma SubmitFailureAlert(
    severity: string, message: string, logId: string, now: string, error: string, store: seq<Item>)
    ensures var r := WriteFunction.HandleWrite(PostEvent(severity, message), logId, now, WriteFunction.PutRaised(error), store);
      && r.store == store
      && r.outcome.Replied?
      && SendLog(severity, message, Some(ReplyObject(r.outcome.reply.body))).alerted
         == Some(if error != "" then Str(error) else DefaultAlert)
  {
  }

  /** Every item of a well-formed table has a severity, so each returned item
      becomes a line: `loadLogs` completes and shows one line per item. */
  lemma {:induction false} ReadRepliesRenderFully(event: Event, store: seq<Item>)
    requires WriteFunction.WellFormedStore(store)
    requires event.httpMethod != Some("OPTIONS")
    ensures var body := ReadFunction.HandleRead(event, ReadFunction.ScanReturned(Some(store))).body;
      && body.Logs?
      && |Rendered(body.logs)| == |body.logs|
  {
    var logs := ReadFunction.Latest(store);
    forall i | 0 <= i < |logs|
      ensures Renderable(logs[i])
    {
      assert logs[i] in multiset(logs);
      assert logs[i] in multiset(store);
      assert logs[i] in store;
    }
    RenderedPreservesOrder(logs);
  }

  /** A failed scan gives the client a non-array body, so `loadLogs` empties
      the list and then throws. */
  lemma ReadFailureIsNotArray(event: Event, error: string)
    requires event.httpMethod != Some("OPTIONS")
    ensures AsPayload(ReadFunction.HandleRead(event, ReadFunction.ScanRaised(error)).body) == NotArray
  {
  }

  /** The round trip: a log submitted while the table holds fewer than 100
      items is among the items the next read returns, and is displayed as
      `[datetime] SEVERITY: message` with the message unchanged; the line reads
      back to the server's timestamp, the upper-cased severity and the message. */
  lemma {:induction false} SubmitThenLoad(
    severity: string, message: string, logId: string, now: string, store: seq<Item>, readEvent: Event)
    requires |store| < ReadFunction.MaxLogs
    requires readEvent.httpMethod != Some("OPTIONS")
    ensures var written := WriteFunction.HandleWrite(PostEvent(severity, message), logId, now, WriteFunction.Stored, store).store;
      var logs := ReadFunction.HandleRead(readEvent, ReadFunction.ScanReturned(Some(written))).body.logs;
      var entry := WriteFunction.LogEntry(logId, now, severity, message);
      && entry in logs
      && FormatLine(entry) == "[" + now + "] " + Upper(severity) + ": " + message
      && (']' !in now && ':' !in severity ==> ParseLine(FormatLine(entry)) == Some((now, Upper(severity), message)))
  {
    var entry := WriteFunction.LogEntry(logId, now, severity, message);
    SubmitStoresVerbatim(severity, message, logId, now, store);
    var written := store + [entry];
    var logs := ReadFunction.Latest(written);
    assert multiset(logs) == multiset(written);
    assert entry in multiset(written);
    assert entry in logs;
  }
}
