# Web Risk submitter: a Dafny model of its core

The system is a small Flask application that reports abusive URIs to Google's
Web Risk API. A user posts a form with the project number, the URI, optional
threat details and a service-account key. The application then does four
things:

- it builds the Web Risk request body;
- it turns the key into a bearer token;
- it calls `projects/<number>/uris:submit`;
- it records the long-running operation that comes back, in a Firestore
  collection keyed by a hash of the operation name.

An operations page lists the recorded operations with their current status.
A one-off Node script copies the collection to another one in write batches.

This project models that core and proves what it promises:

- **`_doc_id`** (`Base64Url`, `DocIds`). The document key is SHA-1, then
  URL-safe base64 as in section 5 of RFC 4648, with the `=` padding stripped.
  The key is 27 characters from the URL-safe alphabet, has no `/`, and is
  injective in the digest. Injectivity is proved by decoding.
- **The payload builder in `submit`** (`Text`, `JsonValues`, `Payload`). A
  reference function `PayloadOf` is stated beside the handler's step-by-step,
  `setdefault`-style construction (`BuildPayload`), and the two are proved
  equal. Lemmas then give, in both directions, when each section appears.
  The score takes priority over the level. Region codes are the stripped,
  upper-cased, non-blank comma pieces. Without labels or comments no
  `threatJustification` key appears anywhere, and no object sent is `{}`.
- **The operation store** (`Store`). `save_operation` is an upsert into a
  map of documents, stamped by a clock that every write advances.
  `list_operations` walks Firestore's `created`-descending listing. The model
  proves that a listing always exists, that a just-saved operation heads it,
  that saving twice leaves one document, and that every stored name is
  listed.
- **The `submit` handler** (`Submit`). It validates the form, builds the
  payload, parses the key, refreshes the token, POSTs and persists the
  operation. Every branch is stated as an outcome: the reply, the trace of
  external effects, and the new store. Validation and score errors happen
  before any credential is touched.
- **The operations page** (`OperationsPage`). It builds one row per listed
  name: the state class, the time column, the stored URL and payload with
  their fallbacks, or an error row. A failure is confined to its own row.
  An operation saved by `submit` whose status can be fetched and read is
  shown with the URL and payload value it was saved with, up to the order of
  the payload's keys; otherwise its row is an error row.
- **`copyCollection`** (`Migration`). The loop commits exactly the
  500-write chunks of the copy writes. Every batch holds 1 to 500 writes,
  there are ceil(n/500) batches, and together they are the writes in order.
  Afterwards the destination is overlaid with the source documents under
  the same IDs, and every other collection is unchanged.

External services enter as function parameters, with no body of their own:

- the SHA-1 function;
- `float()`;
- `json.loads` of the key;
- credential refresh;
- the Web Risk POST and GET;
- timestamp formatting.

A few behaviours of the code are easy to misread; the model follows the code:

- `save_operation` writes `created` with a fresh server timestamp on every
  call (main.py:31), so re-saving a name re-stamps it.
- `list_operations` orders by `created` descending (main.py:38): newest
  first, although its docstring (main.py:35) says "oldest first".
- `regionCodes` is sent whenever `regions` is non-empty, even when every
  piece is blank and the list is `[]` (main.py:496-497).
- Once the POST has succeeded, a failure while logging or saving the
  operation (main.py:538-540) is caught by the handler's outer `except` and
  answered with 400 (main.py:543-544). The model's store writes cannot fail
  (see below), so this path is not represented.
- `comments` is sent as posted, without stripping (main.py:484-488).

## Model

| member | source | states |
|---|---|---|
| Text.IsSpace | main.py:464-465 | the set of characters `str.isspace()` accepts, which `strip()` removes (also at main.py:497 and 506): U+0009-000D, U+001C-001F, U+0020, U+0085, U+00A0, U+1680, U+2000-200A, U+2028, U+2029, U+202F, U+205F, U+3000 |
| Text.TrimStart | main.py:464-465 | `lstrip()`; its contract is stated by `TrimStartSpec` |
| Text.TrimEnd | main.py:464-465 | `rstrip()`; its contract is stated by `TrimEndSpec` |
| Text.Strip | main.py:464-465 | `strip()`, the two trims composed; specified by `StripSpec`, `StripUnique` and `StripEmptyIffAllSpace` |
| Text.TrimStartSpec | main.py:464-465 | the result is a suffix of the input, all that was cut is whitespace, and it does not start with whitespace |
| Text.TrimEndSpec | main.py:464-465 | the result is a prefix of the input, all that was cut is whitespace, and it does not end with whitespace |
| Text.StripSpec | main.py:464-465 | `strip()` returns a slice of its input with only whitespace cut on either side, and the slice neither starts nor ends with whitespace |
| Text.StripEmptyIffAllSpace | main.py:466 | a stripped field is empty exactly when the posted value is all whitespace |
| Text.StripIdempotent | main.py:464-465 | stripping a stripped value changes nothing |
| Text.TrimStartSkips | main.py:464-465 | leading whitespace before a part that does not start with whitespace is exactly what is cut |
| Text.TrimEndSkips | main.py:464-465 | trailing whitespace after a part that does not end with whitespace is exactly what is cut |
| Text.StripUnique | main.py:464-465 | whitespace, a non-empty core without surrounding whitespace, and whitespace again strip to that core, so `strip()` is determined by `StripSpec` |
| Text.UpperChar | main.py:497 | upper-casing maps lower-case ASCII letters into `A`-`Z`, never yields a lower-case letter, and keeps every other character |
| Text.UpperCharTable | main.py:497 | each lower-case letter upper-cases to its own capital, checked against the two alphabets written out |
| Text.Upper | main.py:497 | `upper()` keeps the length and upper-cases each character in place |
| Text.Split | main.py:497 | `split(",")` yields at least one piece |
| Text.JoinSplit | main.py:497 | joining the pieces of `split` with the separator gives back the string, and no piece contains the separator |
| Text.SplitJoin | main.py:497 | splitting a join of separator-free pieces gives back the pieces |
| Text.SplitNoSep | main.py:497 | a string without the separator splits into itself alone |
| Text.SplitPrefix | main.py:497 | a leading piece followed by the separator splits off as the first piece |
| Base64Url.Encode | main.py:22 | `urlsafe_b64encode`; its shape is stated by `EncodeShape` and its inverse by `DecodeEncode` |
| Base64Url.EncodeChar | main.py:22 | each 6-bit value maps to a character of the URL-safe alphabet (table 2 of RFC 4648) |
| Base64Url.EncodeTable | main.py:22 | value `v` encodes to the `v`-th character of `A`-`Z`, `a`-`z`, `0`-`9`, `-`, `_` written out, which is table 2 of RFC 4648 |
| Base64Url.DecodeChar | main.py:22 | every character reads back as a 6-bit value |
| Base64Url.DecodeEncodeChar | main.py:22 | reading a character back gives the value that was encoded |
| Base64Url.StripPadding | main.py:22 | `rstrip("=")` returns a prefix, removes only `=`, and leaves no trailing `=` |
| Base64Url.EncodeShape | main.py:22 | an encoding has 4 characters per started 3-byte group: alphabet characters, then exactly the padding `=` |
| Base64Url.GroupRoundTrip | main.py:22 | the four 6-bit values of a 3-byte group recombine into the three bytes |
| Base64Url.DecodeFullGroup | main.py:22 | decoding a full encoded group gives back its three bytes, followed by the decoding of the rest |
| Base64Url.DecodeOneByte | main.py:22 | decoding a final group padded with `==` gives back its one byte |
| Base64Url.DecodeTwoBytes | main.py:22 | decoding a final group padded with `=` gives back its two bytes |
| Base64Url.DecodeEncodeOne | main.py:22 | a single byte encodes and decodes back to itself |
| Base64Url.DecodeEncodeTwo | main.py:22 | two bytes encode and decode back to themselves |
| Base64Url.DecodeEncodeStep | main.py:22 | for three or more bytes, decoding the encoding gives the first three bytes back ahead of the decoding of the rest |
| Base64Url.EncodeFullGroup | main.py:22 | input of three or more bytes encodes as its first group followed by the encoding of the rest |
| Base64Url.DecodeEncode | main.py:22 | decoding inverts the URL-safe encoding |
| Base64Url.EncodeInjective | main.py:22 | distinct byte strings have distinct encodings |
| DocIds.DocIdOfDigest | main.py:16-22 | the key of a 20-byte digest is 27 URL-safe characters, and the padded encoding is the key plus one `=` |
| DocIds.DocId | main.py:16-22 | `_doc_id(name)` is 27 URL-safe characters |
| DocIds.DigestOfDocIdInverts | main.py:16-22 | the digest is recoverable from the document ID |
| DocIds.DocIdInjective | main.py:16-22 | distinct digests give distinct document IDs |
| DocIds.SameDocIdIffSameDigest | main.py:16-22 | two operation names share a document exactly when their SHA-1 digests collide |
| DocIds.DocIdIsPathSafe | main.py:18 | a document ID contains no `/`, `+` or `=` |
| JsonValues.Truthy | main.py:537 | Python truthiness of a decoded value, as `if op_name:` (and `if iso_ts:` at main.py:578) tests it: null, false, zero, `""`, `[]` and `{}` are falsy; `NameOf` and `Status` state what follows from it |
| JsonValues.Get | main.py:536 | `d.get(key)` is absent exactly when no field has the key, and otherwise is the value of the last field with that key |
| Payload.Given | main.py:473-496 | a form field counts as given when `request.form.get(...)` returns a non-empty string, the truthiness test of each optional field; the presence lemmas state each section in its terms |
| Payload.InfoOrEmpty | main.py:474-489 | `payload.setdefault("threatInfo", {})`: the existing `threatInfo`, or an empty one; `BuildPayload` states the result of the whole construction |
| Payload.CodesOf | main.py:497 | the list comprehension over the comma pieces; specified by `CodesOfSpec`, `CodesOfKept` and `CodesOfDropped` |
| Payload.RegionCodes | main.py:496-497 | `regionCodes` for a `regions` field; specified by `RegionCodesSpec` |
| Payload.PayloadOf | main.py:470-498 | the reference payload; `BuildPayload` is proved equal to it and the presence lemmas below state each section |
| Payload.ToJson | main.py:528 | the body posted, `json.dumps(payload)` as a JSON value; `NoJustificationKey` and `NoEmptySections` state what it never contains |
| Payload.UpperKeepsSpace | main.py:497 | upper-casing neither creates nor removes whitespace or commas |
| Payload.PieceCode | main.py:497 | a non-blank piece without commas becomes a well-formed code: non-empty, no surrounding whitespace, no comma, no lower-case letter |
| Payload.CodesOfSpec | main.py:497 | the list comprehension yields, in order, one well-formed code per non-blank piece: the upper-cased stripped piece |
| Payload.RegionCodesSpec | main.py:496-497 | the region codes are exactly the upper-cased stripped non-blank comma pieces of `regions`, in order |
| Payload.BuildPayload | main.py:469-498 | the handler's step-by-step `setdefault` construction yields exactly the reference payload `PayloadOf`, including its failure on a score that does not parse |
| Payload.OnlyUriPayload | main.py:470 | with no optional field given, the body is exactly `{"submission": {"uri": uri}}` |
| Payload.ScoreParseFailure | main.py:476-479 | building fails exactly when a score is given and does not parse |
| Payload.ThreatInfoPresence | main.py:470-489 | the submission carries the URI, and `threatInfo` is present exactly when abuse type, score, level, labels or comments is given |
| Payload.ConfidencePriority | main.py:476-481 | a given score is sent as the parsed float and the level is dropped; the level is sent only without a score; never both |
| Payload.JustificationPresence | main.py:483-489 | `threatJustification` is present exactly when labels or comments are given; `labels` is the posted list and `comments` the one-element list of the comment, each present exactly when given |
| Payload.DiscoveryPresence | main.py:491-498 | `threatDiscovery` is present exactly when platform or regions is given, with `platform` and `regionCodes` each present exactly when given |
| Payload.FieldsLackConcat | main.py:470-498 | concatenated field lists lack a key when both parts lack it |
| Payload.StrsLack | main.py:487-497 | a list of strings holds no object key |
| Payload.InfoLacksJustification | main.py:473-489 | a `threatInfo` without a justification has no `threatJustification` key anywhere |
| Payload.DiscoveryLacks | main.py:491-498 | the `threatDiscovery` section holds only `platform` and `regionCodes` keys |
| Payload.NoJustificationKey | main.py:483-489 | without labels or comments, no `threatJustification` key appears anywhere in the JSON sent |
| Payload.FieldsFullConcat | main.py:470-498 | concatenated field lists have no empty object when neither part has one |
| Payload.StrsFull | main.py:487-497 | a list of strings holds no empty object |
| Payload.ConfidenceFull | main.py:476-481 | a built `threatConfidence` contains no empty object |
| Payload.JustificationFull | main.py:483-489 | a built `threatJustification` contains no empty object |
| Payload.InfoFull | main.py:473-489 | a built `threatInfo` contains no empty object |
| Payload.DiscoveryFull | main.py:491-498 | a built `threatDiscovery` contains no empty object |
| Payload.NoEmptySections | main.py:470-498 | no object in the JSON sent is `{}`: every section is created only with content |
| Payload.StripPieces | main.py:497 | `strip()` turns `" us"` into `"us"`, `" fr "` into `"fr"`, and `""` and `" "` into `""` |
| Payload.UpperPieces | main.py:497 | `upper()` turns `"us"` into `"US"` and `"fr"` into `"FR"` |
| Payload.CodesOfKept | main.py:497 | a non-blank piece contributes its code in front of the codes of the rest |
| Payload.CodesOfDropped | main.py:497 | a blank piece contributes nothing |
| Payload.SplitExample | main.py:497 | `" us, fr ,"` splits into `" us"`, `" fr "`, `""` |
| Payload.CodesOfExample | main.py:497 | those pieces give `["US", "FR"]` |
| Payload.RegionCodesExample | main.py:497 | regions `" us, fr ,"` give the codes `["US", "FR"]` |
| Payload.RegionCodesBlankExample | main.py:497 | regions `" , "` give the empty list, which is still sent |
| Store.IsListing | main.py:36-39 | what `order_by("created", direction=DESCENDING).stream()` is assumed to yield: every document ID of the collection exactly once, and only those, with `created` never increasing along the listing; the order among equal stamps is left open; `ListingExists` shows such a listing always exists |
| Store.DisplayName | main.py:44 | `data.get("name") or d.id`; `StoredNameListed` and `SavedHeadsListing` state what it shows |
| Store.Upsert | main.py:26-32 | after a save the document set is the old one plus the key; the key holds exactly the new name, URL, payload and stamp; every other document is untouched |
| Store.NewestExists | main.py:36-40 | a non-empty collection has a document with the newest `created`, and the lemma names it |
| Store.ConsListing | main.py:36-40 | the newest document followed by a listing of the others is a listing |
| Store.ListingExists | main.py:36-40 | every collection has a `created`-descending listing that holds each document once |
| Store.SavedHeadsListing | main.py:27-44 | the operation just saved carries the newest stamp, heads every listing, and is the first name listed (its ID if the name is empty) |
| Store.SaveTwice | main.py:24-32 | saving the same name twice leaves one document under its key, holding the second call's fields and stamp |
| Store.StoredNameListed | main.py:42-44 | every stored document with a non-empty name is listed under that name |
| Store.NamesOf | main.py:42-45 | the names `list_operations` returns for a listing; `ListOperations`, `StoredNameListed` and `SavedHeadsListing` state them |
| Store.OperationStore.constructor | main.py:12-13 | the handle on a collection that already holds any documents, none stamped after the current server time |
| Store.OperationStore.SaveOperation | main.py:24-32 | the documents become `Upsert` of the old ones under `_doc_id(name)`, stamped with a clock that has advanced, keeping every stamp at or before the clock |
| Store.OperationStore.ListOperations | main.py:34-45 | the loop returns the names of the listing Firestore streams (`data.get("name") or d.id`, in order) and changes nothing |
| Submit.Message | main.py:467-544 | the text of each 400 answer; `Submit` states which error each failing branch answers with |
| Submit.Validate | main.py:464-469 | a missing `parent`, then a missing `uri`, is a missing field; otherwise the form is accepted exactly when neither is all whitespace, with both values stripped and non-empty |
| Submit.KeyOf | main.py:506-508 | `json.loads(request.form["sa_key"].strip())`, the key parser being an oracle that answers none for text that is not JSON; `Submit` states the 400 for that case |
| Submit.Response | main.py:522-533 | the POST of the body to `SubmitUrl` with the refreshed token, followed by `raise_for_status()` and `resp.json()`, as one oracle that answers the decoded result or the error text; `Submit` states each outcome |
| Submit.SubmitUrl | main.py:523 | the endpoint `https://webrisk.googleapis.com/v1/projects/<number>/uris:submit`, with `parent` built at main.py:469; `Submit` states that the POST goes there |
| Submit.NameOf | main.py:536-539 | an operation name is taken exactly when the response is an object whose `name` is a non-empty string; absent or falsy means no name; a truthy non-string name or a non-object response makes the handler raise |
| Submit.Submit | main.py:461-544 | the reply, the effect trace and the new store for every branch: validation and score failures answer 400 with no effect and no change; a missing key field, a key that is not JSON, a refusal to refresh, a failed POST and a malformed result each answer 400 with the effects up to that step; a success answers with the result, saving and logging its name when it has one, with a stamp later than every document already stored |
| OperationsPage.StateClass | main.py:587-590 | "success" exactly for SUCCEEDED, "running" exactly for RUNNING, "closed" for every other state |
| OperationsPage.ErrorRow | main.py:597-604 | the error row; `RowFor` and `ErrorIsolated` state when it is shown |
| OperationsPage.Metadata | main.py:575 | `data.get("metadata", {})`: the response's `metadata` value, or an empty object when absent; `Status` states what is read from it |
| OperationsPage.Status | main.py:576-586 | a response that is not an object, or whose `metadata` is not an object, cannot be read; otherwise the state is `metadata.state` or UNKNOWN; the time is "-" when `createTime` is missing or falsy, the formatted stamp when it is a string the formatter accepts, and the read fails when the formatter fails or the stamp is not a string |
| OperationsPage.StatusOfOperation | main.py:576-586 | an operation whose metadata holds a creation time and a state is read as that time, formatted, and that state |
| OperationsPage.RowFor | main.py:561-602 | an empty name gives no row; a failed request or an unreadable status gives the error row with its message; a readable status gives a data row with that time and state; the URL and payload are the stored document's, "(unknown)" and `{}` when missing; error rows show the name and the state ERROR; the class always matches the state |
| OperationsPage.RowsOf | main.py:559-602 | there are never more rows than names |
| OperationsPage.RowsOfAppend | main.py:561-602 | the rows of a concatenation of names are the rows of each part, in order |
| OperationsPage.BuildRows | main.py:559-602 | the loop yields exactly `RowsOf` of the listed names with `RowFor` as the row of each |
| OperationsPage.RowCount | main.py:561-602 | when every name has a row, there are as many rows as names |
| OperationsPage.RowAt | main.py:561-602 | when every name has a row, the row at each position is the row of the name at that position |
| OperationsPage.OneRowPerName | main.py:561-563 | with no empty name, there is exactly one row per name, in listing order |
| OperationsPage.ErrorIsolated | main.py:564-602 | a failed status request turns only that operation's row into an error row; every other row is as it would have been |
| OperationsPage.SavedOperationShown | main.py:570-590 | an operation saved by `submit` whose status can be fetched and read is shown with the URL and payload value it was saved with, and with that status |
| Migration.Collection | migration.js:16 | a collection never written reads as empty, as in Firestore |
| Migration.Set | migration.js:21 | a `set` replaces one document of one collection and leaves every other collection alone |
| Migration.ApplyWrites | migration.js:20-28 | the writes applied in order; `ApplyWritesAppend` and `ApplyCopy` state what they do |
| Migration.ApplyWritesAppend | migration.js:20-28 | applying two runs of writes is applying their concatenation |
| Migration.Chunks | migration.js:20-28 | how the loop cuts the writes into batches; specified by `ChunksSpec`, `ChunksAppend` and `ChunksLast` |
| Migration.ChunksSpec | migration.js:20-28 | every committed batch holds 1 to 500 writes, the batches concatenated are the writes in order, and there are ceil(n/500) of them |
| Migration.ChunksAppend | migration.js:22-26 | a run that starts with whole batches is cut into those batches first |
| Migration.ChunksLast | migration.js:22-28 | one more batch after whole batches adds exactly that batch, and a full one ends on a batch boundary |
| Migration.IsSnapshot | migration.js:16 | what `db.collection(fromColl).get()` is assumed to return: each document of the collection exactly once, with its ID and data, and nothing else; `SnapshotMapIsCollection` turns it back into the collection |
| Migration.CopyWrites | migration.js:20-21 | one write per source document, in snapshot order, to the same ID in the destination with the same data |
| Migration.ApplyCopy | migration.js:21 | copying a run of documents overlays them on the destination and touches no other collection |
| Migration.SnapshotMapSpec | migration.js:16 | with distinct IDs, the snapshot read as a map holds each document and nothing else |
| Migration.SnapshotMapIsCollection | migration.js:16 | a snapshot read as a map is the collection it was taken from |
| Migration.CopyOutcome | migration.js:16-21 | after the copy, the destination is its old documents overlaid with every source document under the same ID, and every other collection, including a distinct source, is unchanged |
| Migration.Database.constructor | migration.js:6-10 | the database starts with the given collections and no commits |
| Migration.Database.Commit | migration.js:23 | committing applies the batch's writes in order and appends the batch to the commit log |
| Migration.CommitBatch | migration.js:22-28 | committing the batch after the writes committed so far extends the log and the applied writes by that batch |
| Migration.CopyCollection | migration.js:15-30 | the loop commits exactly `Chunks` of the copy writes, the data ends as those writes applied (and, for a true snapshot, as `CopyOutcome` states), and the reported count is the snapshot size; the loop keeps `ops` equal to the uncommitted batch size and below 500 |

## Left out

- SHA-1 itself: the digest function is a parameter, and `_doc_id` is modelled from the digest on.
- Text.UpperChar, Text.Upper: only ASCII letters are upper-cased; Python's full Unicode case mapping (`ß` to `SS`, for example) is not modelled.
- Text.Strip: no Unicode normalisation; the whitespace set is the one `str.isspace` accepts.
- Payload.PayloadOf: the score oracle returns a `real`, so the `nan` and `inf` values that Python's `float()` accepts at main.py:479, which `json.dumps` would post as `NaN` and `Infinity`, are not modelled.
- Store.Upsert: `set(..., merge=True)` merges nested maps; the model replaces the `payload` field whole. Every field is rewritten on each save, so this matters only for payload keys an earlier save had that a later one lacks.
- Store.IsListing: documents without a `created` field, which Firestore's `order_by` leaves out, cannot occur, because every save writes the field. The order among equal stamps is left open.
- Store.OperationStore.ListOperations: the stream is a parameter constrained to be a valid listing. Documents without a `name` fall back to the ID. Non-string `name` values are not modelled.
- Store and database failures (Firestore errors, failed commits) are not modelled; every write succeeds.
- Submit.Submit: credentials (`from_service_account_info`, `refresh`), `json.loads` of the key, the HTTP POST, `raise_for_status` and `resp.json()` are oracle parameters. The server-side Web Risk behaviour is not modelled.
- Submit.Submit: the append to the local `operations` file is the effect `AppendLog` and is assumed to succeed. A failure to open or write that file, or to save to Firestore, after a successful POST (answered 400 by the outer `except`) is not modelled.
- Submit.Message: for a missing form field and a malformed response, the text is a stand-in for Werkzeug's or Python's exception text.
- The `print` of the payload and of the collection name, `jsonify`, and `json.dumps` formatting of the body (its bytes, indentation) are not modelled; the body is a JSON value.
- OperationsPage.RowFor: the existence check on the `operations` file (404), `get_access_token`, the HTTP GET and its timeout are outside the model; the status request is an oracle. `datetime.fromisoformat` and `strftime` are the `formatTime` oracle. `json.dumps(payload, indent=2)` is shown as the JSON value itself. The key order of a payload read back from Firestore, and so of its `json.dumps` text, is not modelled: Firestore does not promise to return map fields in the order they were written, and the page's payload is compared as the stored value.
- OperationsPage.Status: the text of Python's AttributeError for a malformed response is a stand-in constant.
- The HTML templates, CSS, `index` route and `render_template_string` are presentation only.
- Migration.CopyCollection: the Firestore client configuration, `await` and concurrency, the final `console.log` line and the top-level `.catch(console.error)` are not modelled. The snapshot is a parameter; the copy outcome is stated for a snapshot that lists the source collection.
