# google-search-publisher, modelled in Dafny

google-search-publisher submits the URLs of one or more sites to the Google
Indexing API. Each project is a directory under the storage path. It holds
a service-account key `sa.json`, the URL list `urls.csv`, and a ledger
`urls_processed.csv` of the URLs already submitted. A run visits the projects
in order. For each one it:

1. loads the three files;
2. exchanges the key for an access token;
3. selects the URLs that are not yet in the ledger, up to the daily limit;
4. cuts them into batches of at most 100;
5. posts each batch to `https://indexing.googleapis.com/batch` as a
   `multipart/mixed` body of `POST /v3/urlNotifications:publish` parts;
6. rewrites the ledger as the old ledger followed by the selected URLs.

The model follows this core of `src/commands/run.ts` and
`src/helpers/storage.ts`:

- `Selection` (`selection.dfy`) models `pickActualUrls` as a filter against
  the ledger followed by a clamped slice.
- `Batching` (`batching.dfy`) models `batchUrls`. The imperative loop is a
  method, proved equal to a recursive reference definition, `Batches`.
- `Multipart` (`multipart.dfy`) models `composeMultipart`. It also defines a
  reader that splits a body on the delimiter, checks each envelope and its
  `content-length`, and parses the JSON. This reader is the model's own
  inverse of the composer, not a general RFC 2046 parser. The main property
  is that the reader gets back exactly the batch's URLs, in order.
- `StorageHelpers` (`storage.dfy`) models the project store:
  - the file system is a map from path to content;
  - `fpath`, `loadDataUrls` (a missing file loads as no URLs) and `loadData`
    are functions;
  - `Storage` is a class whose `SaveUrlsProcessed` (write the header, then
    append line by line) and `FlushUrlsProcessed` update its `files` field.
- `Indexing` (`indexing.dfy`) models `processProject` and `run` as methods.
  Each is proved equal to a specification function (`Process`, `RunFrom`).
  Lemmas about those functions state:
  - which requests are posted, and in which order;
  - what every request carries;
  - what every ledger holds after a completed run;
  - where a failed run stops;
  - that a second run over settled projects changes nothing.
- `Text` (`text.dfy`) holds the string toolkit used on both sides: find,
  split, join, and decimal printing and parsing. `Wrappers`
  (`wrappers.dfy`) holds `Option` and `Result`.

External effects become parameters:

- `authorize: string -> Option<string>` maps the text of `sa.json` to an
  access token. It gives `None` when the key does not parse or the JWT
  exchange fails.
- `accept: Request -> bool` says whether the endpoint answers a post with a
  success status.
- Both are fixed functions: the same key text always gets the same answer,
  and so does the same request.
- `limit` is the configured `dailyAPILimit`.

`run.ts` catches no exception, so the first failure ends the whole run:

- a missing `sa.json`;
- a rejected credential;
- a rejected post.

The failing project's ledger is not rewritten. Batches of that project that
were already posted stay posted. There is no per-project error handling:
one failure ends the run for every later project.

## Model

| member | source | states |
|---|---|---|
| Selection.Unprocessed | src/commands/run.ts:74 | every URL in the ledger is dropped; every other URL keeps its number of occurrences; the result keeps the input's order (subsequence) and is no longer than it |
| Selection.PickActualUrls | src/commands/run.ts:73-76 | the selection is the first min(limit, #unprocessed) unprocessed URLs, a subsequence of the URL list, and no selected URL is in the ledger |
| Selection.UnprocessedKeeps | src/commands/run.ts:74 | a URL outside the ledger survives the filter |
| Selection.UnprocessedOfEmptyLedger | src/commands/run.ts:74 | with an empty ledger nothing is filtered out |
| Selection.NothingLeft | src/commands/run.ts:73-76 | when every URL is in the ledger the selection is empty |
| Selection.UnlimitedSelection | src/commands/run.ts:75 | a limit of at least the list's length does not truncate |
| Batching.BatchUrls | src/commands/run.ts:81-101 | the loop returns the reference batching: concatenated, the batches give the input back; every batch holds 1..100 URLs, all but the last exactly 100; the count is ceil(n/100) |
| Batching.BatchesFlatten | src/commands/run.ts:81-101 | laying the batches end to end gives back the input exactly |
| Batching.BatchesShape | src/commands/run.ts:7-7 | batch sizes bounded by GOOGLE_BATCH_LIMIT, only the last partial, ceil(n/100) batches |
| Batching.BatchesMembers | src/commands/run.ts:85-87 | every URL in a batch comes from the input |
| Multipart.PublishPartIsLines | src/commands/run.ts:128-137 | a part is its ten lines joined by line breaks: the fixed envelope, `content-length: <len>`, an empty line, the JSON |
| Multipart.ReadNotificationJson | src/commands/run.ts:123-126 | the JSON of `{url, type}` parses back to the same URL and type |
| Multipart.ReadPublishPart | src/commands/run.ts:128-137 | a part reads back as (url, URL_UPDATED); its content-length equals the length of its JSON |
| Multipart.PublishPartSeparable | src/commands/run.ts:128-137 | a part never contains the delimiter `\n--boundary\n`, so splitting on it cannot cut a part |
| Multipart.SplitComposed | src/commands/run.ts:142-144 | splitting the body on the delimiter gives an empty preamble, the parts in order, and an empty epilogue |
| Multipart.ReadComposed | src/commands/run.ts:121-147 | round trip: the model's reader (the composer's inverse) reads the composed body as exactly the batch's URLs, in order, each marked URL_UPDATED |
| Text.ParseDecimalRoundTrip | src/commands/run.ts:135 | the printed content-length parses back to the number printed |
| Text.SplitJoin | src/commands/run.ts:143 | splitting a join of delimiter-free items on the delimiter gives the items back |
| Text.SplitTerminated | src/helpers/storage.ts:91-95 | splitting line-terminated items on the line break gives the items and one empty last piece |
| StorageHelpers.FilePathInjective | src/helpers/storage.ts:120-124 | paths of valid project names coincide only for the same project and file |
| StorageHelpers.FilePathsDiffer | src/helpers/storage.ts:120-124 | different projects or different file names give different paths |
| StorageHelpers.ReadCsvColumn | src/helpers/storage.ts:127-146 | no row read from a CSV file contains a line break |
| StorageHelpers.ReadSerialized | src/helpers/storage.ts:87-96 | round trip: the URL column read from a saved ledger is the list saved |
| StorageHelpers.LoadDataFrame | src/helpers/storage.ts:35-45 | loading a project depends on its three files only |
| StorageHelpers.LoadAfterSave | src/helpers/storage.ts:35-45 | after saving a ledger the project loads with the same key and URL list and the saved ledger |
| StorageHelpers.LoadOtherProject | src/helpers/storage.ts:87-96 | saving one project's ledger does not change what another project loads |
| StorageHelpers.LoadAfterFlush | src/helpers/storage.ts:70-75 | after a flush the ledger is missing and loads as empty; the key and URL list are unchanged |
| StorageHelpers.Storage.constructor | src/helpers/storage.ts:18-20 | the store is rooted at the given path over the given files |
| StorageHelpers.Storage.SaveUrlsProcessed | src/helpers/storage.ts:87-96 | after the header write and one append per URL, the ledger holds `URL` and then each URL on its own line; no other file changes |
| StorageHelpers.Storage.FlushUrlsProcessed | src/helpers/storage.ts:103-111 | the ledger is removed (nothing happens when it is missing); no other file changes |
| Indexing.BatchRequestReadable | src/commands/run.ts:44-59 | a batch request goes to the batch endpoint with the bearer token; its Content-Type names the boundary its body is delimited with; its body reads as the batch's URLs |
| Indexing.SubmitAllStops | src/commands/run.ts:43-62 | the posted requests are a prefix of the batch requests; all but the last were accepted; all accepted exactly when all were posted; otherwise the last posted was rejected |
| Indexing.SubmitAllAccepted | src/commands/run.ts:43-62 | when the endpoint accepts every request, every request is posted |
| Indexing.PostAll | src/commands/run.ts:43-62 | the posting loop posts exactly what SubmitAll describes and reports whether all were accepted |
| Indexing.ProcessProject | src/commands/run.ts:35-65 | `processProject` posts and returns exactly what Process describes |
| Indexing.Attempt | src/commands/run.ts:23-24 | a project can succeed only when its data loads |
| Indexing.ProcessPostsBatches | src/commands/run.ts:35-65 | with a token, the posts are a prefix of the requests for the selected batches, in order; success means every one was posted and accepted, and the result is the selected URLs; failure means the last post was rejected |
| Indexing.ProcessRequestsReadable | src/commands/run.ts:43-59 | the i-th posted request carries the bearer token and the boundary, and reads back as the i-th batch of the selected URLs; the batches together are the selection |
| Indexing.ProcessNothingToDo | src/commands/run.ts:40-64 | a project whose URLs are all in its ledger posts nothing and selects nothing |
| Indexing.TwoBatchScenario | src/commands/run.ts:40-64 | 250 fresh URLs with a limit of 120: a request for the first 100, then one for the next 20, and the first 120 URLs reported |
| Indexing.FlushResubmits | src/helpers/storage.ts:103-111 | after a flush the next selection starts again at the head of the URL list |
| Indexing.Run | src/commands/run.ts:13-33 | the project loop leaves the files, posts the requests and reports the failure that RunFrom describes |
| Indexing.RunFrame | src/commands/run.ts:20-32 | a run writes no file other than its projects' ledgers |
| Indexing.LoadedLines | src/commands/run.ts:27-28 | every URL of a ledger the run writes is a single line |
| Indexing.RunLedgers | src/commands/run.ts:20-32 | after a completed run, each project's ledger is its old ledger followed by its selected URLs, and the project loads with that ledger |
| Indexing.RunFailure | src/commands/run.ts:20-32 | a failed run stops at one project k: the run of the projects before k completed; the files are exactly theirs; the posts are theirs followed by project k's |
| Indexing.RunKeepsLaterLedgers | src/commands/run.ts:20-32 | the ledgers of the failing project and of later projects are not touched |
| Indexing.SettledRunIsNoOp | src/commands/run.ts:20-32 | a run over settled projects posts nothing and changes no file |
| Indexing.SecondRunIsNoOp | src/commands/run.ts:13-33 | idempotence: when every project's remaining (unprocessed) URLs fit the limit, a second run after a completed one posts nothing and changes nothing |

## Left out

- The JWT exchange (`getCredentials`, src/commands/run.ts:109-119) and
  `JSON.parse` of `sa.json` are not modelled. They are folded into the
  `authorize` parameter.
- The HTTP transport (`axios.post`) and its response are the `accept`
  parameter. A non-2xx answer is modelled as a rejection, which ends the run
  as the thrown error does. The response status text is only logged.
- Console logging is left out. It does not affect any state.
- `async`/`await` is left out. Every call is awaited before the next one
  starts, so the model runs the steps sequentially.
- `listProjects` (directory listing through `readdirSync`/`statSync`) is left
  out. The projects are a parameter of `Run`.
- src/commands/status.ts, src/commands/flush.ts and src/index.ts are callers
  of the core and are not part of this model. The flush path is covered
  through `Storage.FlushUrlsProcessed`.
- StorageHelpers.ReadCsvColumn: fast-csv parsing is reduced to lines.
  - The first line is taken as the header without checking its name.
  - Quoting, commas and CRLF line endings are not handled.
  - Rows keep the order of the file.
  - `saveUrlsProcessed` writes each URL without CSV quoting
    (src/helpers/storage.ts:94). fast-csv splits rows at commas and treats
    quotes specially. So in the program, a ledger holding a URL with a comma
    or a quote reads back differently, or fails to load.
  - The round-trip lemmas (`ReadSerialized`, `LoadAfterSave`, `RunLedgers`)
    are about the line reader. For such URLs they say nothing about the
    program.
- Multipart.NotificationJson covers only URLs that `JSON.stringify` copies
  unchanged (no quote, backslash or control character). The round-trip
  lemmas require this.
- Multipart.PublishPart measures `content-length` in characters, as
  `data.length` does. For a character outside the basic multilingual plane,
  JavaScript would count two UTF-16 units.
- StorageHelpers.FilePath joins with `/` and does not normalise `..`, `.` or
  repeated separators as `path.join` does.
- `os.EOL` is fixed to `\n`, the POSIX line ending.
- Storage.SaveUrlsProcessed writes into the map. Disk errors and partial
  writes are not modelled.
- The `[...urls]` copy before `batchUrls` is implicit, because Dafny
  sequences are values.
- Multipart.ComposeMultipart ends the body with the plain delimiter
  `\n--boundary\n`, as src/commands/run.ts:144 does. There is no RFC 2046
  close-delimiter `--boundary--` (section 5.1.1). `ReadComposed` is
  therefore a round trip against the model's own reader. It does not prove
  that an RFC-conforming parser accepts the body.
- Indexing.SecondRunIsNoOp: its "the second run does not fail" part relies
  on `authorize` and `accept` answering the same on every call.
  `jwtClient.authorize()` runs a fresh network exchange on every run, and it
  can fail the second time. The model does not cover that case. Such a
  failure would stop the run before it posts or writes anything, so
  "nothing is posted and no file changes" would still be true.
- `Storage.loadDataSA` fails with one error value that carries the path; the
  message text is not modelled.
