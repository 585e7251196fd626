/** The browser client: `sendLog` posts the two form values and alerts the
    server's answer; `loadLogs` fills the on-page list with one formatted line
    per log entry. `fetch`, JSON decoding and the DOM are replaced by the
    values they deliver and by a sequence field holding the list's lines. */
module App {
  import opened Wire

  // ---------------------------------------------------------------- sendLog

  /** A JavaScript value as read from a decoded JSON reply; `Compound` is any
      object or array. */
  datatype JsValue = Undefined | Null | Bool(b: bool) | Num(n: real) | Str(s: string) | Compound

  predicate Truthy(v: JsValue)
  {
    match v
    case Undefined => false
    case Null => false
    case Bool(b) => b
    case Num(n) => n != 0.0
    case Str(s) => s != ""
    case Compound => true
  }

  /** JavaScript `a || b`. */
  function Or(a: JsValue, b: JsValue): JsValue
  {
    if Truthy(a) then a else b
  }

  /** `result.key`: a member absent from the object reads as `undefined`. */
  function Prop(result: map<string, JsValue>, key: string): JsValue
  {
    if key in result then result[key] else Undefined
  }

  const DefaultAlert := Str("Submitted")

  /** The argument of `alert(result.message || result.error || 'Submitted')`. */
  function AlertArg(result: map<string, JsValue>): (r: JsValue)
    ensures Truthy(r)
  {
    Or(Or(Prop(result, "message"), Prop(result, "error")), DefaultAlert)
  }

  /** Reference reading of a fallback chain: the first truthy candidate, or
      the default when there is none. */
  function FirstTruthy(candidates: seq<JsValue>, default: JsValue): (r: JsValue)
    ensures r == default || r in candidates
  {
    if candidates == [] then default
    else if Truthy(candidates[0]) then candidates[0]
    else FirstTruthy(candidates[1..], default)
  }

  /** The alert shows the message if truthy, else the error if truthy, else
      'Submitted'. */
  lemma AlertFallback(result: map<string, JsValue>)
    ensures AlertArg(result) == FirstTruthy([Prop(result, "message"), Prop(result, "error")], DefaultAlert)
    ensures Truthy(Prop(result, "message")) ==> AlertArg(result) == result["message"]
    ensures !Truthy(Prop(result, "message")) && Truthy(Prop(result, "error"))
            ==> AlertArg(result) == result["error"]
    ensures !Truthy(Prop(result, "message")) && !Truthy(Prop(result, "error"))
            ==> AlertArg(result) == DefaultAlert
  {
  }

  /** The JSON object `{ severity, message }` that `sendLog` posts. */
  function RequestBody(severity: string, message: string): (r: map<string, string>)
    ensures r.Keys == {"severity", "message"}
    ensures r["severity"] == severity && r["message"] == message
  {
    map["severity" := severity, "message" := message]
  }

  /** One call of `sendLog`: the body it posts and what it alerts. `reply` is
      the decoded response, `None` when `fetch` or `response.json()` rejects
      (then nothing is alerted). */
  datatype Submission = Submission(requestBody: map<string, string>, alerted: Option<JsValue>)

  function SendLog(severity: string, message: string, reply: Option<map<string, JsValue>>): (r: Submission)
    ensures r.requestBody == RequestBody(severity, message)
    ensures r.alerted.Some? <==> reply.Some?
    ensures reply.Some? ==> r.alerted == Some(AlertArg(reply.value))
  {
    Submission(RequestBody(severity, message), if reply.Some? then Some(AlertArg(reply.value)) else None)
  }

  /** The form is posted as typed: any two strings, even empty ones or an
      unknown severity, reach the server unchanged. */
  lemma SendLogDoesNotValidate(severity: string, message: string, reply: Option<map<string, JsValue>>)
    ensures SendLog(severity, message, reply).requestBody["severity"] == severity
    ensures SendLog(severity, message, reply).requestBody["message"] == message
  {
  }

  // --------------------------------------------------------------- loadLogs

  /** `String.prototype.toUpperCase` on ASCII letters; other characters are kept. */
  function UpperChar(c: char): char
  {
    if 'a' <= c <= 'z' then (c as int - 32) as char else c
  }

  function Upper(s: string): (r: string)
    ensures |r| == |s|
    ensures forall i :: 0 <= i < |s| ==> !('a' <= r[i] <= 'z')
    ensures forall i :: 0 <= i < |s| && !('a' <= s[i] <= 'z') ==> r[i] == s[i]
    ensures forall i :: 0 <= i < |s| && 'a' <= s[i] <= 'z' ==> r[i] as int == s[i] as int - 32
  {
    seq(|s|, i requires 0 <= i < |s| => UpperChar(s[i]))
  }

  lemma UpperIdempotent(s: string)
    ensures Upper(Upper(s)) == Upper(s)
    ensures forall i :: 0 <= i < |s| ==> !('a' <= Upper(s)[i] <= 'z')
  {
  }

  /** `${log.key}` in a template literal: a missing member prints "undefined". */
  function Field(log: Item, key: string): string
  {
    if key in log then log[key] else "undefined"
  }

  /** An entry can be rendered only if it has a severity: `log.severity.toUpperCase()`
      throws on `undefined`. */
  predicate Renderable(log: Item)
  {
    "severity" in log
  }

  /** The text of one list item, `[datetime] SEVERITY: message`. The datetime
      follows the opening bracket and the message ends the line, both unchanged.
      The format is unambiguous: when the datetime holds no ']' and the severity
      no ':', the line reads back to the datetime, the upper-cased severity and
      the message. */
  function FormatLine(log: Item): (line: string)
    requires Renderable(log)
    ensures var d := Field(log, "datetime");
      |line| > |d| && line[1..|d| + 1] == d
    ensures var m := Field(log, "message");
      |line| >= |m| && line[|line| - |m|..] == m
    ensures ']' !in Field(log, "datetime") && ':' !in log["severity"] ==>
      ParseLine(line) == Some((Field(log, "datetime"), Upper(log["severity"]), Field(log, "message")))
  {
    var d, sev, m := Field(log, "datetime"), log["severity"], Field(log, "message");
    LineParts(d, Upper(sev), m);
    LineParses(d, sev, m);
    "[" + d + "] " + Upper(sev) + ": " + m
  }

  lemma LineParts(d: string, u: string, m: string)
    ensures var line := "[" + d + "] " + u + ": " + m;
      && |line| > |d| && line[1..|d| + 1] == d
      && |line| >= |m| && line[|line| - |m|..] == m
  {
  }

  lemma LineParses(d: string, severity: string, m: string)
    ensures ']' !in d && ':' !in severity ==>
      ParseLine("[" + d + "] " + Upper(severity) + ": " + m) == Some((d, Upper(severity), m))
  {
    if ']' in d || ':' in severity {
      return;
    }
    var u := Upper(severity);
    assert ':' !in u by {
      assert forall i :: 0 <= i < |u| ==> u[i] != ':';
    }
    var tail := " " + m;
    var rest := " " + (u + [':'] + tail);
    assert "[" + d + "] " + u + ": " + m == "[" + (d + [']'] + rest);
    SplitAtFirst(d, ']', rest);
    assert rest[1..] == u + [':'] + tail;
    SplitAtFirst(u, ':', tail);
  }

  /** The first position of `c` in `s`, if any. */
  function IndexOf(s: string, c: char): (r: Option<nat>)
    ensures r.Some? ==> r.value < |s| && s[r.value] == c && c !in s[..r.value]
    ensures r.None? ==> c !in s
  {
    if s == [] then None
    else if s[0] == c then Some(0)
    else
      var rest := IndexOf(s[1..], c);
      assert s == [s[0]] + s[1..];
      if rest.Some? then
        assert s[..rest.value + 1] == [s[0]] + s[1..][..rest.value];
        Some(rest.value + 1)
      else None
  }

  /** Splits `s` at the first `c`: the text before it and the text after it. */
  function SplitAt(s: string, c: char): (r: Option<(string, string)>)
    ensures r.Some? ==> c !in r.value.0 && s == r.value.0 + [c] + r.value.1
    ensures r.None? ==> c !in s
  {
    match IndexOf(s, c)
    case None => None
    case Some(k) =>
      assert s == s[..k] + [c] + s[k + 1..];
      Some((s[..k], s[k + 1..]))
  }

  /** Reads a displayed line back into its datetime, upper-cased severity and
      message. */
  function ParseLine(line: string): Option<(string, string, string)>
  {
    if |line| < 1 || line[0] != '[' then None
    else
      match SplitAt(line[1..], ']')
      case None => None
      case Some((datetime, rest)) =>
        if |rest| < 1 || rest[0] != ' ' then None
        else
          match SplitAt(rest[1..], ':')
          case None => None
          case Some((severity, tail)) =>
            if |tail| < 1 || tail[0] != ' ' then None
            else Some((datetime, severity, tail[1..]))
  }

  lemma SplitAtFirst(a: string, c: char, b: string)
    requires c !in a
    ensures SplitAt(a + [c] + b, c) == Some((a, b))
  {
    var s := a + [c] + b;
    assert s[|a|] == c;
    assert forall k :: 0 <= k < |a| ==> s[k] == a[k];
    var r := SplitAt(s, c).value;
    assert |r.0| == |a|;
    assert r.0 == s[..|a|] == a;
    assert r.1 == s[|a| + 1..] == b;
  }

  /** The lines `loadLogs` leaves in the list for the received entries: one per
      entry, in order, up to the first entry that cannot be rendered. */
  function Rendered(logs: seq<Item>): (r: seq<string>)
    ensures |r| <= |logs|
    ensures forall i :: 0 <= i < |r| ==> Renderable(logs[i]) && r[i] == FormatLine(logs[i])
    ensures |r| < |logs| ==> !Renderable(logs[|r|])
  {
    if logs == [] || !Renderable(logs[0]) then []
    else [FormatLine(logs[0])] + Rendered(logs[1..])
  }

  /** When every entry has a severity, line `i` renders entry `i`: nothing is
      dropped, added or re-ordered. */
  lemma RenderedPreservesOrder(logs: seq<Item>)
    requires forall i :: 0 <= i < |logs| ==> Renderable(logs[i])
    ensures |Rendered(logs)| == |logs|
    ensures forall i :: 0 <= i < |logs| ==> Rendered(logs)[i] == FormatLine(logs[i])
  {
  }

  /** What `res.json()` produced: an array of entries or some other JSON value. */
  datatype Payload = LogArray(entries: seq<Item>) | NotArray

  /** The on-page `<ul id="logList">`, as the texts of its `<li>` children. */
  class LogList {
    var lines: seq<string>

    constructor ()
      ensures lines == []
    {
      lines := [];
    }

    /** `loadLogs`. `fetched` is `None` when `fetch` or `res.json()` rejects,
        before the list is touched. Otherwise the list is cleared first; a
        payload that is not an array then throws at `logs.forEach`, and an
        entry without a severity throws in the middle of the loop. `completed`
        tells whether the call returned normally. */
    method LoadLogs(fetched: Option<Payload>) returns (completed: bool)
      modifies this
      ensures fetched.None? ==> !completed && lines == old(lines)
      ensures fetched == Some(NotArray) ==> !completed && lines == []
      ensures fetched.Some? && fetched.value.LogArray? ==>
        lines == Rendered(fetched.value.entries)
        && (completed <==> |lines| == |fetched.value.entries|)
    {
      if fetched.None? {
        return false;
      }
      lines := [];
      if fetched.value.NotArray? {
        return false;
      }
      var logs := fetched.value.entries;
      var i := 0;
      while i < |logs|
        invariant 0 <= i <= |logs|
        invariant |lines| == i
        invariant forall k :: 0 <= k < i ==> Renderable(logs[k]) && lines[k] == FormatLine(logs[k])
      {
        if !Renderable(logs[i]) {
          RenderedIsLongestPrefix(logs, lines);
          return false;
        }
        lines := lines + [FormatLine(logs[i])];
        i := i + 1;
      }
      RenderedIsLongestPrefix(logs, lines);
      return true;
    }
  }

  /** Any run of formatted lines that stops at the end or at an entry without
      a severity is `Rendered`. */
  lemma RenderedIsLongestPrefix(logs: seq<Item>, lines: seq<string>)
    requires |lines| <= |logs|
    requires forall k :: 0 <= k < |lines| ==> Renderable(logs[k]) && lines[k] == FormatLine(logs[k])
    requires |lines| < |logs| ==> !Renderable(logs[|lines|])
    ensures lines == Rendered(logs)
  {
  }
}
