# simple-log-service: a Dafny model

The service stores and lists log records. A browser page (`static/app.js`) posts
`{severity, message}` to a write Lambda and fetches the record list from a read
Lambda. The write Lambda (`write-function/lambda_function.py`) stamps each
record with a fresh id and the current UTC time and puts it into a DynamoDB
table. The read Lambda (`read-function/lambda_function.py`) scans the table and
returns the 100 records with the greatest `datetime` string, newest first.
Both Lambdas answer the CORS preflight (`OPTIONS`) themselves.

This project models those three pieces in Dafny and proves what they promise.

- `wire.dfy` (module `Wire`): the event, reply and item values. A reply body
  is the value handed to `json.dumps`. A table item maps attribute names to
  strings.
- `lex_order.dfy` (module `LexOrder`): Python's `<=` on `str`, which is
  code-point lexicographic order. It is proved reflexive, total, transitive
  and antisymmetric.
- `read_function.dfy` (module `ReadFunction`): the read handler as a function
  of the event and of what `table.scan()` did. `sorted(..., reverse=True)` is
  a stable insertion sort on the `datetime` key, and `[:100]` is a prefix.
- `write_function.dfy` (module `WriteFunction`): the write handler as a
  function. It takes the event, the id and timestamp that `uuid4`/`utcnow`
  would produce, what `put_item` did, and the table as a sequence. It returns
  the outcome and the new table.
- `app.dfy` (module `App`): `sendLog`'s request body and alert choice, with
  JavaScript truthiness. `loadLogs` is a method of class `LogList`, whose
  `lines` field holds the texts of the `<li>` items.
- `end_to_end.dfy` (module `EndToEnd`): lemmas that chain the three pieces.
  What the client posts is stored verbatim, the next read returns it, and the
  client shows it as `[datetime] SEVERITY: message`.

The code performs no validation: any two strings reach the table unchanged
(`App.SendLogDoesNotValidate`, `EndToEnd.SubmitStoresVerbatim`).

Behaviours of the code that the model keeps:

- The write handler reads `event["httpMethod"]` outside its `try`. A missing
  method therefore raises out of the handler instead of producing a 500 reply.
- `loadLogs` clears the list before it calls `logs.forEach`. A non-array body,
  such as the read handler's `{"error": ...}` reply, leaves the list empty and
  throws. An entry without `severity` throws part-way through, after the
  earlier lines have been added.
- A missing `datetime` or `message` prints as `undefined`.

## Model

| member | source | states |
|---|---|---|
| `LexOrder.LexLe` | read-function/lambda_function.py:44 | Python's `str <=`: `a <= b` exactly when `a` is a prefix of `b` or, at the first position where they differ, `a` has the smaller code point |
| `LexOrder.LexLeTotal` | read-function/lambda_function.py:44 | any two `datetime` keys are comparable under Python's string order |
| `LexOrder.LexLeTransitive` | read-function/lambda_function.py:44 | Python's string order is transitive, so a sorted list is ordered pairwise |
| `LexOrder.LexLeAntisymmetric` | read-function/lambda_function.py:44 | two keys that compare both ways are the same string |
| `LexOrder.LexLeReflexive` | read-function/lambda_function.py:44 | every key compares `<=` to itself |
| `LexOrder.EmptyIsLeast` | read-function/lambda_function.py:44 | the default key `''` sorts below every other key, and only `''` is `<=` it |
| `ReadFunction.SortKey` | read-function/lambda_function.py:44 | `x.get('datetime', '')`: the item's `datetime` when present, otherwise `''`, which is below every string |
| `ReadFunction.Insert` | read-function/lambda_function.py:44 | inserting into a newest-first list keeps it newest-first, adds exactly the one item, and puts it first or after the old head |
| `ReadFunction.SortDescending` | read-function/lambda_function.py:44 | `sorted(items, key=datetime, reverse=True)` is non-increasing by key and is a permutation of the items |
| `ReadFunction.SortKeepsOrderOfEqualKeys` | read-function/lambda_function.py:44 | the sort is stable: items whose `datetime` keys are all equal keep their scan order, even with `reverse=True` |
| `ReadFunction.Latest` | read-function/lambda_function.py:44-45 | the result has `min(100, n)` items, is newest-first, takes no item more often than the scan holds it, and is a permutation of the scan when `n <= 100` |
| `ReadFunction.LatestKeepsNewest` | read-function/lambda_function.py:44-45 | no item cut by the 100 limit is newer than any item returned |
| `ReadFunction.UndatedComeLast` | read-function/lambda_function.py:44 | an item without `datetime` comes after every returned item with a non-empty `datetime` |
| `ReadFunction.HandleRead` | read-function/lambda_function.py:24-59 | every reply carries exactly `CORS_HEADERS`; the status is 500 exactly when a non-OPTIONS request meets a failing scan, and 200 otherwise |
| `ReadFunction.PreflightSkipsScan` | read-function/lambda_function.py:28-33 | OPTIONS gets 200 with the preflight message, and the reply does not depend on the scan |
| `ReadFunction.MissingMethodScans` | read-function/lambda_function.py:25 | a missing `httpMethod` is handled as `""` and takes the scan path |
| `ReadFunction.ScanReply` | read-function/lambda_function.py:39-51 | a successful scan gives 200 with exactly `Latest` of the scanned items (so `LatestKeepsNewest` applies): `min(100, n)` newest-first items drawn from the scan, all of them when `n <= 100`; a response without `Items` gives `[]` |
| `ReadFunction.ScanFailureReply` | read-function/lambda_function.py:53-59 | an exception in the try block gives 500 with `{"error": str(e)}` |
| `Wire.KeyErrorText` | write-function/lambda_function.py:42-46 | for a key of printable ASCII without quotes or backslashes (all four keys the handler looks up), `str(KeyError)` is the key in single quotes |
| `WriteFunction.LogEntry` | write-function/lambda_function.py:27-32 | the record has exactly the keys `log_id`, `datetime`, `severity`, `message`, and severity and message are the body's values unchanged |
| `WriteFunction.BuildEntry` | write-function/lambda_function.py:25-31 | a record is built exactly when the body decodes to an object holding `severity` and `message`, and it is the four-field `LogEntry` of those values; otherwise the error is the first failure's text: missing `body`, decoding, subscripting a non-object, missing `severity`, then missing `message` |
| `WriteFunction.HandleWrite` | write-function/lambda_function.py:10-47 | every reply carries the same `headers`; the table either stays the same or gains one record at the end; it grows exactly when the reply is the 200 `Log saved` reply, and the reply's `log_id` is the new record's |
| `WriteFunction.PreflightWritesNothing` | write-function/lambda_function.py:17-22 | OPTIONS gets 200 with the preflight message and nothing is stored |
| `WriteFunction.MissingMethodRaises` | write-function/lambda_function.py:17 | without `httpMethod` the handler raises a KeyError instead of replying, and nothing is stored |
| `WriteFunction.StoresIffWellFormed` | write-function/lambda_function.py:24-40 | a record is stored if and only if the method is not OPTIONS, the body is an object holding `severity` and `message`, and `put_item` succeeds; the stored record and the echoed id are then the given ones |
| `WriteFunction.FailureReply` | write-function/lambda_function.py:42-47 | a bad body or a failing `put_item` gives 500 with the exception's text, and the table is unchanged |
| `WriteFunction.MissingFieldError` | write-function/lambda_function.py:30-31 | a body missing `severity` fails with `'severity'`, otherwise one missing `message` fails with `'message'` |
| `WriteFunction.HandleWriteKeepsStoreWellFormed` | write-function/lambda_function.py:27-34 | the table holds only four-field records, and ids stay distinct when each id given is new |
| `App.AlertArg` | static/app.js:16 | the alert argument is always truthy |
| `App.AlertFallback` | static/app.js:16 | the alert shows `result.message` if truthy, else `result.error` if truthy, else `'Submitted'`: the first truthy value of the chain |
| `App.RequestBody` | static/app.js:12 | the posted body has exactly the keys `severity` and `message`, holding the two input values |
| `App.SendLog` | static/app.js:5-17 | the posted body is built from the inputs; an alert is shown exactly when a decoded reply arrives, and it is `AlertArg` of that reply (so `AlertFallback` applies) |
| `App.SendLogDoesNotValidate` | static/app.js:6-12 | any severity and message, including empty ones, are posted unchanged |
| `App.Upper` | static/app.js:28 | `toUpperCase` on ASCII: same length, lower-case letters shifted to upper case, every other character kept, no lower-case letter left |
| `App.UpperIdempotent` | static/app.js:28 | upper-casing twice equals upper-casing once, and leaves no lower-case ASCII letter |
| `App.FormatLine` | static/app.js:28 | the line `[datetime] SEVERITY: message` holds the datetime right after `[` and ends with the message, both unchanged; when the datetime has no `]` and the severity no `:`, it reads back to the datetime, the upper-cased severity and the message |
| `App.Rendered` | static/app.js:26-30 | line `i` is entry `i` formatted, for every entry up to the first one without a severity |
| `App.RenderedPreservesOrder` | static/app.js:26-29 | when every entry has a severity there is exactly one line per entry, in the order received |
| `App.LogList.LoadLogs` | static/app.js:19-31 | a failed fetch leaves the list alone; otherwise the old lines are discarded; a non-array payload leaves the list empty; an array leaves the rendered lines and completes exactly when every entry rendered |
| `EndToEnd.SubmitStoresVerbatim` | write-function/lambda_function.py:25-39 | what the client posts is stored as one record holding the typed severity and message, and the alert reads `Log saved` |
| `EndToEnd.SubmitFailureAlert` | static/app.js:16 | when storing fails the table is unchanged and the alert shows the error text, or `Submitted` when that text is empty |
| `EndToEnd.ReadRepliesRenderFully` | static/app.js:26-30 | every item the read handler returns from a table of write-handler records renders, one line per item |
| `EndToEnd.ReadFailureIsNotArray` | static/app.js:21-26 | a failed scan's reply is not an array, so `loadLogs` empties the list and then throws |
| `EndToEnd.SubmitThenLoad` | read-function/lambda_function.py:41-45 | a record written while the table holds fewer than 100 items is returned by the next read and shown as `[now] SEVERITY: message` with the message unchanged |

## Left out

- Sign-in, sessions, bearer tokens and input validation: not in the modelled code (`static/awsConfig.js` only configures the identity library with placeholder values).
- DynamoDB: `table.scan()` becomes its outcome (raised, or a response with or without `Items`). `put_item` becomes stored or raised. Only the first scan page is read, which is a property of the foreign API.
- `uuid.uuid4()` and `datetime.utcnow().isoformat()` are parameters of `HandleWrite`, taken as opaque strings.
- JSON encoding and decoding, `fetch`, HTTP transport, `alert` and DOM element creation: bodies are values and the list is a sequence of strings.
- `decimal_default` and `Decimal`-to-`float` conversion: item attributes are strings, as the write handler stores them, so `json.dumps` cannot fail in the model. The 500 path of the read handler is reached through a failing scan only.
- Request-body members that are not strings (numbers, nested objects), and entries whose `severity` is not a string. Those would make `toUpperCase` throw or print differently.
- What the Lambda runtime returns to the caller when the write handler raises: the model stops at `Raised`.
- `print(f"Error: {e}")` in the read handler: logging output only.
- `App.Upper`: ASCII upper-casing only. Unicode case mapping of `toUpperCase` is not modelled.
- `App.SendLog`: the decoded reply is always a JSON object. A `null` reply (where `result.message` throws, so nothing is alerted) and an array, number or string reply (which alert `'Submitted'`) are not modelled; neither handler sends one.
- `App.AlertArg`: gives the value passed to `alert`, not its `String()` conversion.
- `ReadFunction.SortDescending`: states order and permutation only. Stability is proved separately (`ReadFunction.SortKeepsOrderOfEqualKeys`) for runs of items that share one key, not in general for items with equal keys spread among others. The definition keeps scan order in every case.
- `ReadFunction.Latest`: does not state that items with equal `datetime` keep scan order. The definition (`Insert` puts an item before equal keys that came later) does keep it, as Python's stable sort does.
- Asynchrony and overlapping requests: each handler and client function is one sequential step.
