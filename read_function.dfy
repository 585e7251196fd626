/** The read Lambda: answers the CORS preflight, otherwise scans the log
    table and returns the 100 items with the greatest `datetime` strings,
    newest first. */
module ReadFunction {
  import opened Wire
  import opened LexOrder

  const CorsHeaders: map<string, string> := map[
    "Access-Control-Allow-Origin" := "https://logging-service.urbanversatile.com",
    "Access-Control-Allow-Headers" := "Content-Type,Authorization",
    "Access-Control-Allow-Methods" := "OPTIONS,GET",
    "Access-Control-Allow-Credentials" := "true",
    "Content-Type" := "application/json"
  ]

  const PreflightMessage := "CORS preflight OK"

  /** How many items a reply carries at most. */
  const MaxLogs: nat := 100

  /** What `table.scan()` did: raised (with the exception's text), or returned
      a response whose `Items` key may be absent. */
  datatype ScanOutcome = ScanRaised(error: string) | ScanReturned(items: Option<seq<Item>>)

  /** The sort key `x.get('datetime', '')`: the item's `datetime` when it has
      one, and the least string otherwise. */
  function SortKey(item: Item): (k: string)
    ensures "datetime" in item ==> k == item["datetime"]
    ensures "datetime" !in item ==> k == "" && forall other: string :: LexLe(k, other)
  {
    if "datetime" in item then item["datetime"] else ""
  }

  /** Newest first: no item has a greater key than an item before it. */
  predicate NonIncreasing(s: seq<Item>)
  {
    forall i, j :: 0 <= i < j < |s| ==> LexLe(SortKey(s[j]), SortKey(s[i]))
  }

  lemma ConsNonIncreasing(x: Item, s: seq<Item>)
    requires NonIncreasing(s)
    requires s != [] ==> LexLe(SortKey(s[0]), SortKey(x))
    ensures NonIncreasing([x] + s)
  {
    forall j | 0 <= j < |s|
      ensures LexLe(SortKey(s[j]), SortKey(x))
    {
      if j > 0 {
        LexLeTransitive(SortKey(s[j]), SortKey(s[0]), SortKey(x));
      }
    }
  }

  /** Puts `x`, which came before every element of `s` in the scan, in front
      of the first element whose key is not greater than its own, so that equal
      keys keep their scan order as Python's stable `sorted` does. */
  function Insert(x: Item, s: seq<Item>): (r: seq<Item>)
    requires NonIncreasing(s)
    ensures NonIncreasing(r)
    ensures multiset(r) == multiset(s) + multiset{x}
    ensures |r| == |s| + 1
    ensures r[0] == x || (s != [] && r[0] == s[0])
  {
    if s == [] || LexLe(SortKey(s[0]), SortKey(x)) then
      ConsNonIncreasing(x, s);
      [x] + s
    else
      var rest := Insert(x, s[1..]);
      InsertBehindHead(x, s, rest);
      [s[0]] + rest
  }

  /** The step of `Insert` that keeps `s[0]` in front. */
  lemma InsertBehindHead(x: Item, s: seq<Item>, rest: seq<Item>)
    requires s != [] && NonIncreasing(s) && !LexLe(SortKey(s[0]), SortKey(x))
    requires NonIncreasing(rest) && |rest| == |s|
    requires multiset(rest) == multiset(s[1..]) + multiset{x}
    requires rest[0] == x || (s[1..] != [] && rest[0] == s[1..][0])
    ensures NonIncreasing([s[0]] + rest)
    ensures multiset([s[0]] + rest) == multiset(s) + multiset{x}
  {
    LexLeTotal(SortKey(s[0]), SortKey(x));
    if rest[0] != x {
      assert rest[0] == s[1];
    }
    assert LexLe(SortKey(rest[0]), SortKey(s[0]));
    ConsNonIncreasing(s[0], rest);
    assert s == [s[0]] + s[1..];
  }

  /** `sorted(items, key=..., reverse=True)`. */
  function SortDescending(s: seq<Item>): (r: seq<Item>)
    ensures NonIncreasing(r)
    ensures multiset(r) == multiset(s)
    ensures |r| == |s|
  {
    if s == [] then []
    else
      assert s == [s[0]] + s[1..];
      Insert(s[0], SortDescending(s[1..]))
  }

  /** Stability: items whose keys all equal one another stay in scan order,
      as Python's `sorted` keeps them (`reverse=True` does not reverse them). */
  lemma {:induction false} SortKeepsOrderOfEqualKeys(s: seq<Item>)
    requires forall i :: 0 <= i < |s| ==> SortKey(s[i]) == SortKey(s[0])
    ensures SortDescending(s) == s
  {
    if s != [] {
      assert s == [s[0]] + s[1..];
      SortKeepsOrderOfEqualKeys(s[1..]);
      if s[1..] != [] {
        assert SortKey(s[1..][0]) == SortKey(s[0]);
        LexLeReflexive(SortKey(s[0]));
      }
    }
  }

  function Min(a: nat, b: nat): nat { if a <= b then a else b }

  /** `sorted(...)[:100]`: at most 100 items, newest first, each taken from the
      scan and none more often than the scan holds it; all of them when the
      scan holds no more than 100. */
  function Latest(items: seq<Item>): (r: seq<Item>)
    ensures |r| == Min(MaxLogs, |items|)
    ensures NonIncreasing(r)
    ensures multiset(r) <= multiset(items)
    ensures |items| <= MaxLogs ==> multiset(r) == multiset(items)
  {
    var sorted := SortDescending(items);
    var k := Min(MaxLogs, |items|);
    assert sorted == sorted[..k] + sorted[k..];
    sorted[..k]
  }

  /** The items left out are never newer than any item returned. */
  lemma LatestKeepsNewest(items: seq<Item>, i: nat, y: Item)
    requires i < |Latest(items)|
    requires y in multiset(items) - multiset(Latest(items))
    ensures LexLe(SortKey(y), SortKey(Latest(items)[i]))
  {
    var sorted := SortDescending(items);
    var k := Min(MaxLogs, |items|);
    assert sorted == sorted[..k] + sorted[k..];
    assert multiset(items) == multiset(sorted[..k]) + multiset(sorted[k..]);
    assert y in multiset(sorted[k..]);
    var m :| 0 <= m < |sorted[k..]| && sorted[k..][m] == y;
    assert sorted[k + m] == y;
    assert Latest(items)[i] == sorted[i];
  }

  /** Items without a `datetime` sort as "", after every item with a non-empty one. */
  lemma UndatedComeLast(items: seq<Item>, i: nat, j: nat)
    requires i < |Latest(items)| && j < |Latest(items)|
    requires SortKey(Latest(items)[i]) != "" && "datetime" !in Latest(items)[j]
    ensures i < j
  {
  }

  /** `lambda_handler`: the preflight reply for OPTIONS; otherwise the scan's
      newest 100 items, or a 500 reply carrying the exception's text. */
  function HandleRead(event: Event, scan: ScanOutcome): (r: Reply)
    ensures r.headers == CorsHeaders
    ensures r.statusCode == 200 <==> !(event.httpMethod != Some("OPTIONS") && scan.ScanRaised?)
    ensures r.statusCode == 500 <==> event.httpMethod != Some("OPTIONS") && scan.ScanRaised?
  {
    var verb := if event.httpMethod.Some? then event.httpMethod.value else "";
    if verb == "OPTIONS" then
      Reply(200, CorsHeaders, Message(PreflightMessage))
    else
      match scan
      case ScanRaised(e) => Reply(500, CorsHeaders, Error(e))
      case ScanReturned(items) =>
        var found := if items.Some? then items.value else [];
        Reply(200, CorsHeaders, Logs(Latest(found)))
  }

  /** OPTIONS is answered without looking at the table: the reply is the same
      whatever the scan would have done. */
  lemma PreflightSkipsScan(event: Event, scan1: ScanOutcome, scan2: ScanOutcome)
    requires event.httpMethod == Some("OPTIONS")
    ensures HandleRead(event, scan1) == HandleRead(event, scan2)
    ensures HandleRead(event, scan1) == Reply(200, CorsHeaders, Message(PreflightMessage))
  {
  }

  /** A missing `httpMethod` reads as "" and so takes the scan path. */
  lemma MissingMethodScans(body: Option<RawBody>, scan: ScanOutcome)
    ensures HandleRead(Event(None, body), scan) == HandleRead(Event(Some(""), body), scan)
    ensures scan.ScanRaised? ==> HandleRead(Event(None, body), scan).statusCode == 500
    ensures scan.ScanReturned? ==> HandleRead(Event(None, body), scan).body.Logs?
  {
  }

  /** A scan that succeeds yields a 200 reply whose list is the scan's newest
      `min(100, n)` items in non-increasing `datetime` order; an absent
      `Items` key yields the empty list. */
  lemma ScanReply(event: Event, items: Option<seq<Item>>)
    requires event.httpMethod != Some("OPTIONS")
    ensures var r := HandleRead(event, ScanReturned(items));
      var found := if items.Some? then items.value else [];
      && r.statusCode == 200 && r.body.Logs?
      && |r.body.logs| == Min(MaxLogs, |found|)
      && NonIncreasing(r.body.logs)
      && multiset(r.body.logs) <= multiset(found)
      && (items.None? ==> r.body.logs == [])
      && (|found| <= MaxLogs ==> multiset(r.body.logs) == multiset(found))
      && r == Reply(200, CorsHeaders, Logs(Latest(found)))
  {
  }

  /** Any exception in the try block becomes a 500 reply with `{"error": str(e)}`. */
  lemma ScanFailureReply(event: Event, error: string)
    requires event.httpMethod != Some("OPTIONS")
    ensures HandleRead(event, ScanRaised(error)) == Reply(500, CorsHeaders, Error(error))
  {
  }
}
