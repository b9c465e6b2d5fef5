/**
 * The submission driver of src/commands/run.ts: for each project in turn,
 * load its data, exchange its service account for an access token, select
 * the unprocessed URLs up to the daily limit, post them in batches to the
 * Google Indexing batch endpoint, and save the ledger extended by the
 * selected URLs. Nothing catches an error, so the first failure of any step
 * ends the whole run and leaves that project's ledger as it was.
 *
 * The credential exchange and the network are parameters: `authorize` maps
 * the content of `sa.json` to an access token (None when parsing or the
 * exchange fails) and `accept` says whether the endpoint accepts a request.
 */
module Indexing {
  import opened Wrappers
  import opened Text
  import opened Selection
  import opened Batching
  import opened Multipart
  import opened StorageHelpers

  const Endpoint := "https://indexing.googleapis.com/batch"
  const Boundary := "--batchboundary"
  const MultipartMixed := "multipart/mixed; boundary="
  const BearerPrefix := "Bearer "

  /** One POST: endpoint, Content-Type and Authorization headers, and body. */
  datatype Request = Request(endpoint: string, contentType: string, authorization: string, body: string)

  /** Why a run stopped. */
  datatype Failure =
    | LoadFailed(project: string, cause: LoadError)
    | CredentialRejected(project: string)
    | SubmissionRejected(project: string)

  /** The request `processProject` posts for one batch. */
  function BatchRequest(batch: seq<string>, token: string): Request {
    Request(Endpoint, MultipartMixed + Boundary, BearerPrefix + token, ComposeMultipart(batch, Boundary))
  }

  /** The boundary parameter of a `multipart/mixed` Content-Type, as the model's reader takes it. */
  function BoundaryOf(contentType: string): Option<string> {
    if |contentType| >= |MultipartMixed| && contentType[..|MultipartMixed|] == MultipartMixed
    then Some(contentType[|MultipartMixed|..])
    else None
  }

  /**
   * A batch request names the boundary its body is delimited with, and the
   * body reads back as the batch's URLs, in order, each tagged URL_UPDATED.
   */
  lemma BatchRequestReadable(batch: seq<string>, token: string)
    requires |batch| > 0 && forall i :: 0 <= i < |batch| ==> JsonSafe(batch[i])
    ensures var req := BatchRequest(batch, token);
            && req.endpoint == Endpoint
            && req.authorization == BearerPrefix + token
            && BoundaryOf(req.contentType) == Some(Boundary)
            && ReadMultipart(req.body, Boundary) == Some(Updated(batch))
  {
    var ct := MultipartMixed + Boundary;
    assert ct[..|MultipartMixed|] == MultipartMixed && ct[|MultipartMixed|..] == Boundary;
    ReadComposed(batch, Boundary);
  }

  /** One request per batch, in batch order. */
  function Requests(batches: seq<seq<string>>, token: string): (r: seq<Request>)
    ensures |r| == |batches|
    ensures forall i :: 0 <= i < |r| ==> r[i] == BatchRequest(batches[i], token)
  {
    seq(|batches|, i requires 0 <= i < |batches| => BatchRequest(batches[i], token))
  }

  /** The requests posted and whether every one was accepted. */
  datatype Submission = Submission(posted: seq<Request>, accepted: bool)

  /** Posts the requests in order and stops at the first rejection. */
  function SubmitAll(requests: seq<Request>, accept: Request -> bool): Submission {
    if |requests| == 0 then Submission([], true)
    else if !accept(requests[0]) then Submission([requests[0]], false)
    else
      var rest := SubmitAll(requests[1..], accept);
      Submission([requests[0]] + rest.posted, rest.accepted)
  }

  /**
   * What is posted is a prefix of the requests, every one but the last was
   * accepted, and all were accepted exactly when every request was posted;
   * otherwise the last one posted is the one rejected.
   */
  lemma {:induction false} SubmitAllStops(requests: seq<Request>, accept: Request -> bool)
    ensures var r := SubmitAll(requests, accept);
            && r.posted <= requests
            && (forall i :: 0 <= i < |r.posted| - 1 ==> accept(r.posted[i]))
            && (r.accepted <==> r.posted == requests && forall i :: 0 <= i < |r.posted| ==> accept(r.posted[i]))
            && (!r.accepted ==> |r.posted| > 0 && !accept(r.posted[|r.posted| - 1]))
    decreases |requests|
  {
    if |requests| > 0 && accept(requests[0]) {
      var rest := SubmitAll(requests[1..], accept);
      SubmitAllStops(requests[1..], accept);
      var posted := [requests[0]] + rest.posted;
      assert forall i :: 1 <= i < |posted| ==> posted[i] == rest.posted[i - 1];
      assert requests == [requests[0]] + requests[1..];
    }
  }

  /** What handling one project posted, and either the URLs it selected or why it failed. */
  datatype Outcome = Outcome(posted: seq<Request>, result: Result<seq<string>, Failure>)

  /** `processProject` on loaded data. */
  function Process(project: string, data: ProjectData, limit: nat,
                   authorize: string -> Option<string>, accept: Request -> bool): Outcome
  {
    match authorize(data.sa)
    case None => Outcome([], Err(CredentialRejected(project)))
    case Some(token) =>
      var urls := PickActualUrls(data.urls, data.processed, limit);
      var submission := SubmitAll(Requests(Batches(urls), token), accept);
      Outcome(submission.posted, if submission.accepted then Ok(urls) else Err(SubmissionRejected(project)))
  }

  /** One iteration of the project loop in `run` up to the ledger write: load, then process. */
  function Attempt(fs: Files, root: string, project: string, limit: nat,
                   authorize: string -> Option<string>, accept: Request -> bool): (out: Outcome)
    ensures out.result.Ok? ==> LoadData(fs, root, project).Ok?
  {
    match LoadData(fs, root, project)
    case Err(e) => Outcome([], Err(LoadFailed(project, e)))
    case Ok(data) => Process(project, data, limit, authorize, accept)
  }

  /** The files after a run, everything it posted, and the failure that ended it, if any. */
  datatype RunState = RunState(files: Files, posted: seq<Request>, failure: Option<Failure>)

  /** `run` over the given projects, starting from the file system `fs`. */
  function RunFrom(fs: Files, root: string, projects: seq<string>, limit: nat,
                   authorize: string -> Option<string>, accept: Request -> bool): RunState
    decreases |projects|
  {
    if |projects| == 0 then RunState(fs, [], None)
    else
      var project := projects[0];
      var out := Attempt(fs, root, project, limit, authorize, accept);
      match out.result
      case Err(f) => RunState(fs, out.posted, Some(f))
      case Ok(selected) =>
        var ledger := LoadData(fs, root, project).value.processed + selected;
        var next := RunFrom(fs[LedgerPath(root, project) := Serialize(ledger)], root, projects[1..], limit, authorize, accept);
        RunState(next.files, out.posted + next.posted, next.failure)
  }

  // ---------------------------------------------------------------------------
  // The imperative driver.

  /**
   * The posting loop of `processProject`: the requests are posted in order
   * and a rejected post ends the loop.
   */
  method PostAll(requests: seq<Request>, accept: Request -> bool)
    returns (posted: seq<Request>, accepted: bool)
    ensures Submission(posted, accepted) == SubmitAll(requests, accept)
  {
    ghost var all := SubmitAll(requests, accept);
    posted := [];
    for i := 0 to |requests|
      invariant all.posted == posted + SubmitAll(requests[i..], accept).posted
      invariant all.accepted == SubmitAll(requests[i..], accept).accepted
    {
      var request := requests[i];
      SubmitAllFrom(requests, accept, i);
      ghost var before := posted;
      posted := posted + [request];
      if !accept(request) {
        return posted, false;
      }
      AppendAssociative(before, [request], SubmitAll(requests[i + 1..], accept).posted);
    }
    assert requests[|requests|..] == [];
    return posted, true;
  }

  /** One step of SubmitAll on a suffix of the requests. */
  lemma SubmitAllFrom(requests: seq<Request>, accept: Request -> bool, i: nat)
    requires i < |requests|
    ensures var rest := SubmitAll(requests[i + 1..], accept);
            SubmitAll(requests[i..], accept)
              == if accept(requests[i]) then Submission([requests[i]] + rest.posted, rest.accepted)
                 else Submission([requests[i]], false)
  {
    assert requests[i..][0] == requests[i];
    assert requests[i..][1..] == requests[i + 1..];
  }

  /**
   * `processProject`: obtain the token, select the work, cut it into batches
   * and post them.
   */
  method ProcessProject(project: string, data: ProjectData, limit: nat,
                        authorize: string -> Option<string>, accept: Request -> bool)
    returns (posted: seq<Request>, result: Result<seq<string>, Failure>)
    ensures Outcome(posted, result) == Process(project, data, limit, authorize, accept)
  {
    var credentials := authorize(data.sa);
    if credentials.None? {
      return [], Err(CredentialRejected(project));
    }
    var urls := PickActualUrls(data.urls, data.processed, limit);
    var batches := BatchUrls(urls);
    var requests := Requests(batches, credentials.value);
    var accepted;
    posted, accepted := PostAll(requests, accept);
    result := if accepted then Ok(urls) else Err(SubmissionRejected(project));
  }

  /**
   * `run`: the projects in order; after each project the ledger is saved as
   * the old ledger followed by the selected URLs. Ends at the first failure.
   */
  method Run(storage: Storage, projects: seq<string>, limit: nat,
             authorize: string -> Option<string>, accept: Request -> bool)
    returns (posted: seq<Request>, failure: Option<Failure>)
    modifies storage
    ensures var spec := RunFrom(old(storage.files), storage.path, projects, limit, authorize, accept);
            storage.files == spec.files && posted == spec.posted && failure == spec.failure
  {
    ghost var spec := RunFrom(storage.files, storage.path, projects, limit, authorize, accept);
    posted := [];
    for i := 0 to |projects|
      invariant var rest := RunFrom(storage.files, storage.path, projects[i..], limit, authorize, accept);
                spec.files == rest.files && spec.posted == posted + rest.posted && spec.failure == rest.failure
    {
      assert projects[i..][1..] == projects[i + 1..];
      var project := projects[i];
      var data := LoadData(storage.files, storage.path, project);
      if data.Err? {
        return posted, Some(LoadFailed(project, data.error));
      }
      var sent, result := ProcessProject(project, data.value, limit, authorize, accept);
      posted := posted + sent;
      if result.Err? {
        return posted, Some(result.error);
      }
      var urlsProcessed := data.value.processed + result.value;
      storage.SaveUrlsProcessed(project, urlsProcessed);
    }
    return posted, None;
  }

  // ---------------------------------------------------------------------------
  // One project.

  /**
   * With a token, a project posts a prefix of the requests for the batches of
   * its selected URLs, in order; it succeeds exactly when every one was posted
   * and accepted, and then reports the selected URLs. Otherwise the last
   * request posted is the one that was rejected.
   */
  lemma ProcessPostsBatches(project: string, data: ProjectData, limit: nat, token: string,
                            authorize: string -> Option<string>, accept: Request -> bool)
    requires authorize(data.sa) == Some(token)
    ensures var out := Process(project, data, limit, authorize, accept);
            var selected := PickActualUrls(data.urls, data.processed, limit);
            var requests := Requests(Batches(selected), token);
            && out.posted <= requests
            && (forall i :: 0 <= i < |out.posted| - 1 ==> accept(out.posted[i]))
            && (out.result.Ok? <==> out.posted == requests && forall i :: 0 <= i < |out.posted| ==> accept(out.posted[i]))
            && (out.result.Ok? ==> out.result.value == selected)
            && (out.result.Err? ==> out.result.error == SubmissionRejected(project)
                                    && |out.posted| > 0 && !accept(out.posted[|out.posted| - 1]))
  {
    var selected := PickActualUrls(data.urls, data.processed, limit);
    var requests := Requests(Batches(selected), token);
    var submission := SubmitAll(requests, accept);
    assert Process(project, data, limit, authorize, accept)
        == Outcome(submission.posted, if submission.accepted then Ok(selected) else Err(SubmissionRejected(project)));
    SubmitAllStops(requests, accept);
  }

  /** When every request is accepted, all of them are posted. */
  lemma {:induction false} SubmitAllAccepted(requests: seq<Request>, accept: Request -> bool)
    requires forall i :: 0 <= i < |requests| ==> accept(requests[i])
    ensures SubmitAll(requests, accept) == Submission(requests, true)
    decreases |requests|
  {
    if |requests| > 0 {
      SubmitAllAccepted(requests[1..], accept);
      assert requests == [requests[0]] + requests[1..];
    }
  }

  /**
   * Each request a project posts names its boundary and its body reads back
   * as the URLs of the corresponding batch, each marked URL_UPDATED; the
   * batches together are the selected URLs.
   */
  lemma ProcessRequestsReadable(project: string, data: ProjectData, limit: nat, token: string,
                                authorize: string -> Option<string>, accept: Request -> bool, i: nat)
    requires authorize(data.sa) == Some(token)
    requires forall j :: 0 <= j < |data.urls| ==> JsonSafe(data.urls[j])
    requires i < |Process(project, data, limit, authorize, accept).posted|
    ensures var request := Process(project, data, limit, authorize, accept).posted[i];
            var selected := PickActualUrls(data.urls, data.processed, limit);
            && Flatten(Batches(selected)) == selected
            && i < |Batches(selected)|
            && request.endpoint == Endpoint
            && request.authorization == BearerPrefix + token
            && BoundaryOf(request.contentType) == Some(Boundary)
            && ReadMultipart(request.body, Boundary) == Some(Updated(Batches(selected)[i]))
  {
    var selected := PickActualUrls(data.urls, data.processed, limit);
    var batches := Batches(selected);
    var request := Process(project, data, limit, authorize, accept).posted[i];
    ProcessPostsBatches(project, data, limit, token, authorize, accept);
    assert request == Requests(batches, token)[i];
    BatchesFlatten(selected);
    BatchesShape(selected);
    BatchesJsonSafe(data.urls, selected);
    BatchRequestReadable(batches[i], token);
  }

  /** The batches of URLs drawn from a JSON-safe list are JSON-safe. */
  lemma BatchesJsonSafe(urls: seq<string>, selected: seq<string>)
    requires forall j :: 0 <= j < |urls| ==> JsonSafe(urls[j])
    requires forall u :: u in selected ==> u in urls
    ensures forall i, j :: 0 <= i < |Batches(selected)| && 0 <= j < |Batches(selected)[i]| ==> JsonSafe(Batches(selected)[i][j])
  {
    BatchesMembers(selected);
    MembersJsonSafe(urls);
  }

  lemma MembersJsonSafe(urls: seq<string>)
    requires forall j :: 0 <= j < |urls| ==> JsonSafe(urls[j])
    ensures forall u :: u in urls ==> JsonSafe(u)
  {
    forall u | u in urls ensures JsonSafe(u) {
      var k :| 0 <= k < |urls| && urls[k] == u;
    }
  }

  /** A project whose URLs are all in its ledger posts nothing and selects nothing. */
  lemma ProcessNothingToDo(project: string, data: ProjectData, limit: nat,
                           authorize: string -> Option<string>, accept: Request -> bool)
    requires authorize(data.sa).Some?
    requires forall u :: u in data.urls ==> u in data.processed
    ensures Process(project, data, limit, authorize, accept) == Outcome([], Ok([]))
  {
    NothingLeft(data.urls, data.processed, limit);
    assert Requests(Batches([]), authorize(data.sa).value) == [];
  }

  /**
   * An example: 250 fresh URLs and a daily limit of 120 give one batch
   * of 100 and one of 20, posted in that order, and the first 120 URLs are
   * reported as submitted.
   */
  lemma TwoBatchScenario(project: string, data: ProjectData, token: string,
                         authorize: string -> Option<string>, accept: Request -> bool)
    requires |data.urls| == 250 && data.processed == []
    requires authorize(data.sa) == Some(token)
    requires forall r :: accept(r)
    ensures Process(project, data, 120, authorize, accept)
         == Outcome([BatchRequest(data.urls[..100], token), BatchRequest(data.urls[100..120], token)],
                    Ok(data.urls[..120]))
  {
    var urls := data.urls;
    ScenarioSelection(urls);
    TwoRequests(urls[..100], urls[100..120], token);
    var requests := Requests(Batches(urls[..120]), token);
    SubmitAllAccepted(requests, accept);
  }

  lemma TwoRequests(first: seq<string>, second: seq<string>, token: string)
    ensures Requests([first, second], token) == [BatchRequest(first, token), BatchRequest(second, token)]
  {
    var r := Requests([first, second], token);
    assert |r| == 2 && r[0] == BatchRequest(first, token) && r[1] == BatchRequest(second, token);
  }

  /** 250 fresh URLs with a limit of 120: the first 120 are selected, in batches of 100 and 20. */
  lemma ScenarioSelection(urls: seq<string>)
    requires |urls| == 250
    ensures PickActualUrls(urls, [], 120) == urls[..120]
    ensures Batches(urls[..120]) == [urls[..100], urls[100..120]]
  {
    UnprocessedOfEmptyLedger(urls);
    var selected := urls[..120];
    assert selected[..BatchLimit] == urls[..100] && selected[BatchLimit..] == urls[100..120];
  }

  /**
   * After `flushUrlsProcessed` the project loads with an empty ledger, so the
   * next selection starts again from the head of its URL list.
   */
  lemma FlushResubmits(fs: Files, root: string, project: string, limit: nat)
    requires LoadData(fs, root, project).Ok?
    ensures var after := LoadData(fs - {LedgerPath(root, project)}, root, project);
            && after.Ok?
            && after.value.processed == []
            && after.value.urls == LoadData(fs, root, project).value.urls
            && PickActualUrls(after.value.urls, after.value.processed, limit) == after.value.urls[..Min(limit, |after.value.urls|)]
  {
    LoadAfterFlush(fs, root, project);
    UnprocessedOfEmptyLedger(LoadData(fs, root, project).value.urls);
  }

  // ---------------------------------------------------------------------------
  // Whole runs.

  /** Project directory names: no path separator, no two alike. */
  predicate ValidProjects(projects: seq<string>) {
    && (forall i :: 0 <= i < |projects| ==> ValidName(projects[i]))
    && (forall i, j :: 0 <= i < j < |projects| ==> projects[i] != projects[j])
  }

  /** A run writes nothing but the ledgers of its projects. */
  lemma {:induction false} RunFrame(fs: Files, root: string, projects: seq<string>, limit: nat,
                                    authorize: string -> Option<string>, accept: Request -> bool, path: string)
    requires forall i :: 0 <= i < |projects| ==> path != LedgerPath(root, projects[i])
    ensures SameAt(fs, RunFrom(fs, root, projects, limit, authorize, accept).files, path)
    decreases |projects|
  {
    if |projects| > 0 {
      var project := projects[0];
      var out := Attempt(fs, root, project, limit, authorize, accept);
      if out.result.Ok? {
        var ledger := LoadData(fs, root, project).value.processed + out.result.value;
        var fs' := fs[LedgerPath(root, project) := Serialize(ledger)];
        assert forall i :: 0 <= i < |projects[1..]| ==> projects[1..][i] == projects[i + 1];
        RunFrame(fs', root, projects[1..], limit, authorize, accept, path);
      }
    }
  }

  /** Every URL of a loaded list, and so of every ledger a run writes, is one line. */
  lemma LoadedLines(fs: Files, root: string, project: string, selected: seq<string>)
    requires LoadData(fs, root, project).Ok?
    requires forall u :: u in selected ==> u in LoadData(fs, root, project).value.urls
    ensures var ledger := LoadData(fs, root, project).value.processed + selected;
            forall i :: 0 <= i < |ledger| ==> '\n' !in ledger[i]
  {
    var d := LoadData(fs, root, project).value;
    var ledger := d.processed + selected;
    forall i | 0 <= i < |ledger| ensures '\n' !in ledger[i] {
      if i >= |d.processed| {
        assert ledger[i] == selected[i - |d.processed|];
        assert ledger[i] in d.urls;
      }
    }
  }

  /**
   * After a run that ran to the end, every project's ledger is its old ledger
   * followed by the URLs selected for it, and the project loads with that
   * ledger and everything else as before.
   */
  lemma {:induction false} RunLedgers(fs: Files, root: string, projects: seq<string>, limit: nat,
                                      authorize: string -> Option<string>, accept: Request -> bool, k: nat)
    requires ValidProjects(projects)
    requires RunFrom(fs, root, projects, limit, authorize, accept).failure.None?
    requires k < |projects|
    ensures LoadData(fs, root, projects[k]).Ok?
    ensures var d := LoadData(fs, root, projects[k]).value;
            var ledger := d.processed + PickActualUrls(d.urls, d.processed, limit);
            var after := RunFrom(fs, root, projects, limit, authorize, accept).files;
            && authorize(d.sa).Some?
            && LedgerPath(root, projects[k]) in after
            && after[LedgerPath(root, projects[k])] == Serialize(ledger)
            && LoadData(after, root, projects[k]) == Ok(d.(processed := ledger))
    decreases |projects|
  {
    var project := projects[0];
    var rest := projects[1..];
    var out := Attempt(fs, root, project, limit, authorize, accept);
    var d := LoadData(fs, root, project).value;
    var ledger := d.processed + out.result.value;
    var fs' := fs[LedgerPath(root, project) := Serialize(ledger)];
    var after := RunFrom(fs, root, projects, limit, authorize, accept).files;
    assert after == RunFrom(fs', root, rest, limit, authorize, accept).files;
    assert forall i :: 0 <= i < |rest| ==> rest[i] == projects[i + 1];
    if k == 0 {
      RunLedgerOfFirst(fs, root, projects, limit, authorize, accept);
    } else {
      RunLedgers(fs', root, rest, limit, authorize, accept, k - 1);
      LoadOtherProject(fs, root, project, projects[k], Serialize(ledger));
    }
  }

  /** A file of one project is not the ledger of any other project. */
  lemma NotOthersLedger(root: string, project: string, fname: string, others: seq<string>)
    requires ValidName(project)
    requires forall i :: 0 <= i < |others| ==> ValidName(others[i]) && others[i] != project
    ensures forall i :: 0 <= i < |others| ==> FilePath(root, project, fname) != LedgerPath(root, others[i])
  {
    forall i | 0 <= i < |others| ensures FilePath(root, project, fname) != LedgerPath(root, others[i]) {
      FilePathsDiffer(root, project, fname, others[i], LedgerName + ".csv");
    }
  }

  /** The first project of a completed run: its ledger is written and not touched again. */
  lemma RunLedgerOfFirst(fs: Files, root: string, projects: seq<string>, limit: nat,
                         authorize: string -> Option<string>, accept: Request -> bool)
    requires ValidProjects(projects) && |projects| > 0
    requires Attempt(fs, root, projects[0], limit, authorize, accept).result.Ok?
    ensures var d := LoadData(fs, root, projects[0]).value;
            var ledger := d.processed + PickActualUrls(d.urls, d.processed, limit);
            var after := RunFrom(fs, root, projects, limit, authorize, accept).files;
            && authorize(d.sa).Some?
            && LedgerPath(root, projects[0]) in after
            && after[LedgerPath(root, projects[0])] == Serialize(ledger)
            && LoadData(after, root, projects[0]) == Ok(d.(processed := ledger))
  {
    var project := projects[0];
    var rest := projects[1..];
    var d := LoadData(fs, root, project).value;
    var selected := PickActualUrls(d.urls, d.processed, limit);
    assert Attempt(fs, root, project, limit, authorize, accept).result == Ok(selected);
    var ledger := d.processed + selected;
    var fs' := fs[LedgerPath(root, project) := Serialize(ledger)];
    var after := RunFrom(fs, root, projects, limit, authorize, accept).files;
    assert after == RunFrom(fs', root, rest, limit, authorize, accept).files;
    assert forall i :: 0 <= i < |rest| ==> rest[i] == projects[i + 1];
    NotOthersLedger(root, project, ServiceAccountFile, rest);
    NotOthersLedger(root, project, UrlsName + ".csv", rest);
    NotOthersLedger(root, project, LedgerName + ".csv", rest);
    RunFrame(fs', root, rest, limit, authorize, accept, FilePath(root, project, ServiceAccountFile));
    RunFrame(fs', root, rest, limit, authorize, accept, FilePath(root, project, UrlsName + ".csv"));
    RunFrame(fs', root, rest, limit, authorize, accept, LedgerPath(root, project));
    LoadDataFrame(fs', after, root, project);
    LoadedLines(fs, root, project, selected);
    LoadAfterSave(fs, root, project, ledger);
  }

  /**
   * A run that fails stops at the project `k` where it failed: the files are
   * exactly those left by running the projects before it, and what was posted
   * is theirs followed by what project `k` posted.
   */
  lemma {:induction false} RunFailure(fs: Files, root: string, projects: seq<string>, limit: nat,
                                      authorize: string -> Option<string>, accept: Request -> bool)
    returns (k: nat)
    requires RunFrom(fs, root, projects, limit, authorize, accept).failure.Some?
    ensures k < |projects|
    ensures var done := RunFrom(fs, root, projects[..k], limit, authorize, accept);
            var all := RunFrom(fs, root, projects, limit, authorize, accept);
            var out := Attempt(done.files, root, projects[k], limit, authorize, accept);
            && done.failure.None?
            && out.result.Err?
            && all.failure == Some(out.result.error)
            && all.files == done.files
            && all.posted == done.posted + out.posted
    decreases |projects|
  {
    var project := projects[0];
    var rest := projects[1..];
    var out := Attempt(fs, root, project, limit, authorize, accept);
    if out.result.Err? {
      k := 0;
      assert projects[..0] == [];
    } else {
      var ledger := LoadData(fs, root, project).value.processed + out.result.value;
      var fs' := fs[LedgerPath(root, project) := Serialize(ledger)];
      assert forall i :: 0 <= i < |rest| ==> rest[i] == projects[i + 1];
      var k' := RunFailure(fs', root, rest, limit, authorize, accept);
      k := k' + 1;
      assert projects[..k][1..] == rest[..k'];
      assert projects[..k][0] == project;
      assert projects[k] == rest[k'];
      var done' := RunFrom(fs', root, rest[..k'], limit, authorize, accept);
      var done := RunFrom(fs, root, projects[..k], limit, authorize, accept);
      assert done == RunState(done'.files, out.posted + done'.posted, done'.failure);
      var next := RunFrom(fs', root, rest, limit, authorize, accept);
      var last := Attempt(done'.files, root, rest[k'], limit, authorize, accept);
      assert next.posted == done'.posted + last.posted;
      AppendAssociative(out.posted, done'.posted, last.posted);
    }
  }

  /**
   * Running only the projects before `k` leaves the ledgers of project `k` and
   * every later project as they were; with RunFailure, a failed run leaves them
   * untouched.
   */
  lemma RunKeepsLaterLedgers(fs: Files, root: string, projects: seq<string>, limit: nat,
                             authorize: string -> Option<string>, accept: Request -> bool, k: nat)
    requires ValidProjects(projects) && k <= |projects|
    ensures forall j :: k <= j < |projects| ==>
              SameAt(fs, RunFrom(fs, root, projects[..k], limit, authorize, accept).files, LedgerPath(root, projects[j]))
  {
    forall j | k <= j < |projects|
      ensures SameAt(fs, RunFrom(fs, root, projects[..k], limit, authorize, accept).files, LedgerPath(root, projects[j]))
    {
      forall i | 0 <= i < |projects[..k]|
        ensures LedgerPath(root, projects[j]) != LedgerPath(root, projects[..k][i])
      {
        FilePathsDiffer(root, projects[j], LedgerName + ".csv", projects[i], LedgerName + ".csv");
      }
      RunFrame(fs, root, projects[..k], limit, authorize, accept, LedgerPath(root, projects[j]));
    }
  }

  lemma AppendAssociative(a: seq<Request>, b: seq<Request>, c: seq<Request>)
    ensures a + (b + c) == (a + b) + c
  {
  }

  /**
   * A project is settled when it loads, its credentials are accepted, every
   * URL is in its ledger, and the ledger file is exactly as
   * `saveUrlsProcessed` would write it.
   */
  predicate Settled(fs: Files, root: string, project: string, authorize: string -> Option<string>) {
    && LoadData(fs, root, project).Ok?
    && var d := LoadData(fs, root, project).value;
    && authorize(d.sa).Some?
    && (forall u :: u in d.urls ==> u in d.processed)
    && LedgerPath(root, project) in fs
    && fs[LedgerPath(root, project)] == Serialize(d.processed)
  }

  /** A run over settled projects posts nothing and leaves every file as it was. */
  lemma {:induction false} SettledRunIsNoOp(fs: Files, root: string, projects: seq<string>, limit: nat,
                                            authorize: string -> Option<string>, accept: Request -> bool)
    requires forall i :: 0 <= i < |projects| ==> Settled(fs, root, projects[i], authorize)
    ensures RunFrom(fs, root, projects, limit, authorize, accept) == RunState(fs, [], None)
    decreases |projects|
  {
    if |projects| > 0 {
      var project := projects[0];
      var d := LoadData(fs, root, project).value;
      ProcessNothingToDo(project, d, limit, authorize, accept);
      assert d.processed + [] == d.processed;
      assert fs[LedgerPath(root, project) := Serialize(d.processed)] == fs;
      assert forall i :: 0 <= i < |projects[1..]| ==> projects[1..][i] == projects[i + 1];
      SettledRunIsNoOp(fs, root, projects[1..], limit, authorize, accept);
    }
  }

  /**
   * Idempotence: when the URLs each project still has to submit fit within
   * the limit, a second run after a completed one posts nothing and changes
   * nothing.
   */
  lemma SecondRunIsNoOp(fs: Files, root: string, projects: seq<string>, limit: nat,
                        authorize: string -> Option<string>, accept: Request -> bool)
    requires ValidProjects(projects)
    requires RunFrom(fs, root, projects, limit, authorize, accept).failure.None?
    requires forall i :: 0 <= i < |projects| ==>
               |Unprocessed(LoadDataUrls(fs, root, projects[i], UrlsName), LoadDataUrls(fs, root, projects[i], LedgerName))| <= limit
    ensures var first := RunFrom(fs, root, projects, limit, authorize, accept).files;
            RunFrom(first, root, projects, limit, authorize, accept) == RunState(first, [], None)
  {
    var first := RunFrom(fs, root, projects, limit, authorize, accept).files;
    forall i | 0 <= i < |projects| ensures Settled(first, root, projects[i], authorize) {
      RunLedgers(fs, root, projects, limit, authorize, accept, i);
      var d := LoadData(fs, root, projects[i]).value;
      assert PickActualUrls(d.urls, d.processed, limit) == Unprocessed(d.urls, d.processed);
      var ledger := d.processed + Unprocessed(d.urls, d.processed);
      forall u | u in d.urls ensures u in ledger {
        if u !in d.processed {
          UnprocessedKeeps(d.urls, d.processed, u);
        }
      }
    }
    SettledRunIsNoOp(first, root, projects, limit, authorize, accept);
  }
}
