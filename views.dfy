/**
 * The batch coordinator `upload_folder`: keep the uploads whose name ends in
 * `.pdf` (ignoring case), run each through the pipeline against one fresh
 * session, and answer with the per-file results and the final session state.
 * The uploads are processed one after another, in submission order.
 */
module Views {
  import opened Wrappers
  import opened Strings
  import opened TextExtraction
  import opened Classifier
  import opened Scanner

  /** `name.lower().endswith(".pdf")`. */
  predicate IsPdfName(name: string) {
    EndsWith(LowerStr(name), ".pdf")
  }

  /** The uploads that are submitted for processing, in their original order. */
  function PdfUploads(uploads: seq<Upload>): (pdfs: seq<Upload>)
    ensures |pdfs| <= |uploads|
    ensures forall k :: 0 <= k < |pdfs| ==> IsPdfName(pdfs[k].name)
    ensures forall u :: u in pdfs ==> u in uploads
    ensures forall u :: u in uploads && IsPdfName(u.name) ==> u in pdfs
  {
    if |uploads| == 0 then []
    else
      var last := uploads[|uploads| - 1];
      var front := PdfUploads(uploads[..|uploads| - 1]);
      assert uploads == uploads[..|uploads| - 1] + [last];
      if IsPdfName(last.name) then front + [last] else front
  }

  /** The results collected so far and the session state they leave. */
  datatype Run = Run(results: seq<Option<Report>>, state: SessionState)

  /** The per-file job submitted to the worker pool: a session state and an upload to a step. */
  type Worker = (SessionState, Upload) -> Step

  /** `process_single_pdf` with the claim parser fixed. */
  function Pipeline(parse: string -> Option<Claim>): Worker {
    (st: SessionState, u: Upload) => ProcessUpload(st, u, parse)
  }

  /** Processing `files` one after another, starting from `st`: one result per file. */
  function RunFiles(st: SessionState, files: seq<Upload>, worker: Worker): (run: Run)
    ensures |run.results| == |files|
  {
    if |files| == 0 then Run([], st)
    else
      var prev := RunFiles(st, files[..|files| - 1], worker);
      var step := worker(prev.state, files[|files| - 1]);
      Run(prev.results + [step.report], step.state)
  }

  function EmptySession(): SessionState {
    SessionState({}, map[], [])
  }

  /** One request's batch: a fresh session, then every PDF-named upload in order. */
  function Batch(uploads: seq<Upload>, parse: string -> Option<Claim>): Run {
    RunFiles(EmptySession(), PdfUploads(uploads), Pipeline(parse))
  }

  /** Every step of `worker` changes the session only as its report records, the upload's path being `media/uploads/<name>`. */
  ghost predicate RecordsAlways(worker: Worker) {
    forall st, u :: StepRecords(st, worker(st, u), PathJoin(UploadDir, u.name))
  }

  /** The scanner pipeline changes the session only as its reports record. */
  lemma PipelineRecords(parse: string -> Option<Claim>)
    ensures RecordsAlways(Pipeline(parse))
  {
    forall st, u ensures StepRecords(st, Pipeline(parse)(st, u), PathJoin(UploadDir, u.name)) {
      var s := ProcessUpload(st, u, parse);
      assert Pipeline(parse)(st, u) == s;
      ProcessPdfRecords(st, u.markers, Normalize(RawText(u.pages)), PathJoin(UploadDir, u.name), parse);
    }
  }

  /** The lower-cased identities of the Verified results. */
  ghost function VerifiedNames(results: seq<Option<Report>>): set<string> {
    set k | 0 <= k < |results| && IsVerified(results[k]) :: LowerStr(results[k].value.identity)
  }

  /** The file names of the Fake results that carry a non-empty claimed identity. */
  ghost function FakeNames(results: seq<Option<Report>>): set<string> {
    set k | 0 <= k < |results| && IsFake(results[k]) && Truthy(results[k].value.claimed) :: results[k].value.file
  }

  /** Whether a result writes the entry `fake_files_dict[f]`. */
  predicate WritesFakeEntry(r: Option<Report>, f: string) {
    IsFake(r) && Truthy(r.value.claimed) && r.value.file == f
  }

  /** The fake index after the results, one `FakeIndexAfter` per result, in order. */
  function FakeIndexOf(fakes: map<string, string>, results: seq<Option<Report>>): map<string, string> {
    if |results| == 0 then fakes
    else FakeIndexAfter(FakeIndexOf(fakes, results[..|results| - 1]), results[|results| - 1])
  }

  /** The moves the results record, one `MoveOf` per result, in order; `files[k]` is the upload of `results[k]`. */
  function RunMoves(results: seq<Option<Report>>, files: seq<Upload>): seq<Move>
    requires |results| == |files|
  {
    if |results| == 0 then []
    else
      var n := |results| - 1;
      RunMoves(results[..n], files[..n]) + MoveOf(results[n], PathJoin(UploadDir, files[n].name))
  }

  /** An HTTP request: its HTTP method and, if present, the `folder` file list. */
  datatype Request = Request(verb: string, folder: Option<seq<Upload>>)

  datatype Body =
    | Error(error: string)
    | Results(results: seq<Option<Report>>, originalNames: set<string>, fakeFiles: map<string, string>)

  datatype Response = Response(status: nat, body: Body)

  /** The answer to a request, with the moves its processing performed. */
  datatype Handled = Handled(response: Response, moves: seq<Move>)

  /** What `upload_folder` answers, and what it moves. */
  function UploadFolderSpec(request: Request, parse: string -> Option<Claim>): (h: Handled)
    // a bad request is refused before anything is processed or moved
    ensures h.response.status == 400 <==> request.verb != "POST" || request.folder.None?
    ensures h.response.status == 400 ==> h.response.body.Error? && h.moves == []
    ensures h.response.status != 400 ==> h.response.status == 200 && h.response.body.Results?
  {
    if request.verb != "POST" then Handled(Response(400, Error("Invalid request")), [])
    else if request.folder.None? then Handled(Response(400, Error("No folder uploaded")), [])
    else
      var run := Batch(request.folder.value, parse);
      Handled(Response(200, Results(run.results, run.state.processedNames, run.state.fakeFiles)), run.state.moves)
  }

  /** `upload_folder`, with the worker pool replaced by a sequential loop. */
  method UploadFolder(request: Request, parse: string -> Option<Claim>) returns (response: Response, moves: seq<Move>)
    ensures Handled(response, moves) == UploadFolderSpec(request, parse)
  {
    if request.verb == "POST" {
      var session := new Session();
      if request.folder.None? {
        return Response(400, Error("No folder uploaded")), [];
      }
      var results := ProcessFolder(session, request.folder.value, parse);
      return Response(200, Results(results, session.processedNames, session.fakeFiles)), session.moves;
    }
    return Response(400, Error("Invalid request")), [];
  }

  /**
   * The submission loop of `upload_folder` followed by the collection of the
   * results: every PDF-named upload runs against the shared session, in order.
   */
  method ProcessFolder(session: Session, folder: seq<Upload>, parse: string -> Option<Claim>)
    returns (results: seq<Option<Report>>)
    modifies session
    ensures Run(results, session.State()) == RunFiles(old(session.State()), PdfUploads(folder), Pipeline(parse))
  {
    results := [];
    for i := 0 to |folder|
      invariant Run(results, session.State()) == RunFiles(old(session.State()), PdfUploads(folder[..i]), Pipeline(parse))
    {
      assert folder[..i + 1][..i] == folder[..i];
      ghost var files := PdfUploads(folder[..i]);
      if !IsPdfName(folder[i].name) {
        assert PdfUploads(folder[..i + 1]) == files;
        continue;
      }
      assert PdfUploads(folder[..i + 1]) == files + [folder[i]];
      assert (files + [folder[i]])[..|files|] == files;
      var r := session.ProcessSinglePdf(folder[i], parse);
      results := results + [r];
    }
    assert folder[..|folder|] == folder;
  }

  /** Filtering distributes over concatenation. */
  lemma {:induction false} PdfUploadsAppend(a: seq<Upload>, b: seq<Upload>)
    ensures PdfUploads(a + b) == PdfUploads(a) + PdfUploads(b)
    decreases |b|
  {
    if |b| == 0 {
      assert a + b == a;
    } else {
      var b' := b[..|b| - 1];
      assert (a + b)[..|a + b| - 1] == a + b';
      PdfUploadsAppend(a, b');
    }
  }

  /** When every upload is PDF-named, the filter keeps them all, in order. */
  lemma {:induction false} PdfUploadsKeepsPdfs(uploads: seq<Upload>)
    requires forall k :: 0 <= k < |uploads| ==> IsPdfName(uploads[k].name)
    ensures PdfUploads(uploads) == uploads
  {
    if |uploads| > 0 {
      var front := uploads[..|uploads| - 1];
      PdfUploadsKeepsPdfs(front);
      assert uploads == front + [uploads[|uploads| - 1]];
    }
  }

  /** An upload whose name does not end in `.pdf` is never processed and leaves no trace. */
  lemma NonPdfIgnored(before: seq<Upload>, u: Upload, after: seq<Upload>, parse: string -> Option<Claim>)
    requires !IsPdfName(u.name)
    ensures Batch(before + [u] + after, parse) == Batch(before + after, parse)
  {
    PdfUploadsAppend(before + [u], after);
    PdfUploadsAppend(before, [u]);
    PdfUploadsAppend(before, after);
    PdfUploadsOne(u);
    assert before + [] == before;
  }

  /** A single upload is kept exactly when its name ends in `.pdf`, ignoring case. */
  lemma PdfUploadsOne(u: Upload)
    ensures PdfUploads([u]) == if IsPdfName(u.name) then [u] else []
  {
    assert [u][..0] == [];
  }

  /** `.pdf` is recognised in any letter case, and only as the last suffix. */
  lemma PdfSuffixAnyCase(stem: string)
    ensures IsPdfName(stem + ".pdf") && IsPdfName(stem + ".PDF") && IsPdfName(stem + ".Pdf")
    ensures !IsPdfName(stem + ".pdf.txt")
  {
    LowerStrAppend(stem, ".pdf");
    LowerStrAppend(stem, ".PDF");
    LowerStrAppend(stem, ".Pdf");
    LowerStrAppend(stem, ".pdf.txt");
    assert LowerStr(".PDF") == ".pdf" && LowerStr(".Pdf") == ".pdf" && LowerStr(".pdf") == ".pdf";
    var l := LowerStr(stem + ".pdf.txt");
    assert l[|l| - 1] == 't';
  }

  /** A request without any PDF-named upload processes nothing: no result, empty set and index, no move. */
  lemma BatchWithoutPdfs(uploads: seq<Upload>, parse: string -> Option<Claim>)
    requires forall k :: 0 <= k < |uploads| ==> !IsPdfName(uploads[k].name)
    ensures Batch(uploads, parse) == Run([], EmptySession())
  {
    NoPdfsKept(uploads);
  }

  lemma {:induction false} NoPdfsKept(uploads: seq<Upload>)
    requires forall k :: 0 <= k < |uploads| ==> !IsPdfName(uploads[k].name)
    ensures PdfUploads(uploads) == []
  {
    if |uploads| > 0 {
      var front := uploads[..|uploads| - 1];
      assert forall k :: 0 <= k < |front| ==> front[k] == uploads[k];
      NoPdfsKept(front);
    }
  }

  /** Results come out in submission order: the k-th result is the k-th file's outcome. */
  lemma {:induction false} ResultsInOrder(st: SessionState, files: seq<Upload>, worker: Worker, k: nat)
    requires k < |files|
    ensures RunFiles(st, files, worker).results[k] == worker(RunFiles(st, files[..k], worker).state, files[k]).report
    decreases |files|
  {
    var n := |files| - 1;
    if k < n {
      assert files[..n][..k] == files[..k];
      ResultsInOrder(st, files[..n], worker, k);
    }
  }

  /**
   * The session state after a run is the state before it plus exactly what
   * the results record: the seen set gains the verified identities, the fake
   * index gains the fake files with a claimed identity, and the moves are
   * the results' moves in order (`RunFilesLog`).
   */
  lemma {:induction false} RunFilesState(st: SessionState, files: seq<Upload>, worker: Worker)
    requires RecordsAlways(worker)
    ensures var run := RunFiles(st, files, worker);
      && run.state.processedNames == st.processedNames + VerifiedNames(run.results)
      && run.state.fakeFiles.Keys == st.fakeFiles.Keys + FakeNames(run.results)
    decreases |files|
  {
    if |files| > 0 {
      var prev := RunFiles(st, files[..|files| - 1], worker);
      RunFilesState(st, files[..|files| - 1], worker);
      var run := RunFiles(st, files, worker);
      assert StepRecords(prev.state, worker(prev.state, files[|files| - 1]), PathJoin(UploadDir, files[|files| - 1].name));
      var last := run.results[|files| - 1];
      assert run.results == prev.results + [last];
      VerifiedNamesSnoc(prev.results, last);
      FakeNamesSnoc(prev.results, last);
    }
  }

  /**
   * The fake index after a run is the one before it updated by each result in
   * order, and the moves after it are the ones before it followed by each
   * result's move, in order.
   */
  lemma {:induction false} RunFilesLog(st: SessionState, files: seq<Upload>, worker: Worker)
    requires RecordsAlways(worker)
    ensures var run := RunFiles(st, files, worker);
      && run.state.fakeFiles == FakeIndexOf(st.fakeFiles, run.results)
      && run.state.moves == st.moves + RunMoves(run.results, files)
    decreases |files|
  {
    if |files| > 0 {
      var n := |files| - 1;
      var prev := RunFiles(st, files[..n], worker);
      RunFilesLog(st, files[..n], worker);
      var path := PathJoin(UploadDir, files[n].name);
      var step := worker(prev.state, files[n]);
      assert StepRecords(prev.state, step, path);
      var run := RunFiles(st, files, worker);
      assert run == Run(prev.results + [step.report], step.state);
      assert run.results[..n] == prev.results && run.results[n] == step.report;
      assert FakeIndexOf(st.fakeFiles, run.results) == FakeIndexAfter(FakeIndexOf(st.fakeFiles, prev.results), step.report);
      assert RunMoves(run.results, files) == RunMoves(prev.results, files[..n]) + MoveOf(step.report, path);
    }
  }

  /** `results[k]` is the last result that writes `fake_files_dict[f]`. */
  ghost predicate LastFakeWrite(results: seq<Option<Report>>, k: int, f: string) {
    && 0 <= k < |results|
    && WritesFakeEntry(results[k], f)
    && forall j :: k < j < |results| ==> !WritesFakeEntry(results[j], f)
  }

  /**
   * Starting from an empty index, each entry `f` of the fake index holds the
   * claimed identity of the last Fake result with a claim that names `f`.
   */
  lemma {:induction false} FakeIndexLastClaim(results: seq<Option<Report>>)
    ensures forall f :: f in FakeIndexOf(map[], results) ==>
      exists k :: LastFakeWrite(results, k, f) && results[k].value.claimed == Some(FakeIndexOf(map[], results)[f])
  {
    if |results| > 0 {
      var n := |results| - 1;
      var prev := results[..n];
      var last := results[n];
      FakeIndexLastClaim(prev);
      var before := FakeIndexOf(map[], prev);
      var index := FakeIndexOf(map[], results);
      assert index == FakeIndexAfter(before, last);
      forall f | f in index
        ensures exists k :: LastFakeWrite(results, k, f) && results[k].value.claimed == Some(index[f])
      {
        if WritesFakeEntry(last, f) {
          assert LastFakeWrite(results, n, f);
        } else {
          assert f in before && index[f] == before[f];
          var k :| LastFakeWrite(prev, k, f) && prev[k].value.claimed == Some(before[f]);
          forall j | k < j < |results| ensures !WritesFakeEntry(results[j], f) {
            if j < n {
              assert results[j] == prev[j];
            }
          }
          assert results[k] == prev[k];
          assert LastFakeWrite(results, k, f);
        }
      }
    }
  }

  /**
   * The fake index and the moves of a 200 answer: each `fake_files` entry is
   * the identity claimed by the last Fake result with a claim for that file,
   * and the moves are exactly the results' moves, in order.
   */
  lemma UploadFolderLog(request: Request, parse: string -> Option<Claim>)
    requires request.verb == "POST" && request.folder.Some?
    ensures var h := UploadFolderSpec(request, parse);
      var rs := h.response.body.results;
      && (forall f :: f in h.response.body.fakeFiles ==>
            exists k :: LastFakeWrite(rs, k, f) && rs[k].value.claimed == Some(h.response.body.fakeFiles[f]))
      && h.moves == RunMoves(rs, PdfUploads(request.folder.value))
  {
    var files := PdfUploads(request.folder.value);
    PipelineRecords(parse);
    RunFilesLog(EmptySession(), files, Pipeline(parse));
    FakeIndexLastClaim(RunFiles(EmptySession(), files, Pipeline(parse)).results);
  }

  lemma VerifiedNamesSnoc(results: seq<Option<Report>>, last: Option<Report>)
    ensures VerifiedNames(results + [last]) == VerifiedNames(results) + NewName(last)
  {
    var all := results + [last];
    forall x | x in VerifiedNames(all) ensures x in VerifiedNames(results) + NewName(last) {
      var k :| 0 <= k < |all| && IsVerified(all[k]) && LowerStr(all[k].value.identity) == x;
      if k < |results| {
        assert all[k] == results[k];
      }
    }
    forall x | x in VerifiedNames(results) ensures x in VerifiedNames(all) {
      var k :| 0 <= k < |results| && IsVerified(results[k]) && LowerStr(results[k].value.identity) == x;
      assert all[k] == results[k];
    }
    if IsVerified(last) {
      assert all[|results|] == last;
    }
  }

  lemma FakeNamesSnoc(results: seq<Option<Report>>, last: Option<Report>)
    ensures FakeNames(results + [last]) == FakeNames(results) + NewFakeKey(last)
  {
    var all := results + [last];
    forall x | x in FakeNames(all) ensures x in FakeNames(results) + NewFakeKey(last) {
      var k :| 0 <= k < |all| && IsFake(all[k]) && Truthy(all[k].value.claimed) && all[k].value.file == x;
      if k < |results| {
        assert all[k] == results[k];
      }
    }
    forall x | x in FakeNames(results) ensures x in FakeNames(all) {
      var k :| 0 <= k < |results| && IsFake(results[k]) && Truthy(results[k].value.claimed) && results[k].value.file == x;
      assert all[k] == results[k];
    }
    if IsFake(last) && Truthy(last.value.claimed) {
      assert all[|results|] == last;
    }
  }

  /**
   * Under sequential processing, each lower-cased identity is Verified at most
   * once per run, and never when it was already seen before the run.
   */
  lemma {:induction false} AtMostOneVerified(st: SessionState, files: seq<Upload>, worker: Worker)
    requires RecordsAlways(worker)
    ensures var rs := RunFiles(st, files, worker).results;
      forall i, j :: 0 <= i < j < |rs| && IsVerified(rs[i]) && IsVerified(rs[j]) ==>
        LowerStr(rs[i].value.identity) != LowerStr(rs[j].value.identity)
    ensures var rs := RunFiles(st, files, worker).results;
      forall i :: 0 <= i < |rs| && IsVerified(rs[i]) ==> LowerStr(rs[i].value.identity) !in st.processedNames
    decreases |files|
  {
    if |files| > 0 {
      var n := |files| - 1;
      var prev := RunFiles(st, files[..n], worker);
      AtMostOneVerified(st, files[..n], worker);
      RunFilesState(st, files[..n], worker);
      var rs := RunFiles(st, files, worker).results;
      assert StepRecords(prev.state, worker(prev.state, files[n]), PathJoin(UploadDir, files[n].name));
      assert rs == prev.results + [rs[n]];
      if IsVerified(rs[n]) {
        var name := LowerStr(rs[n].value.identity);
        assert name !in prev.state.processedNames;
        forall i | 0 <= i < n && IsVerified(rs[i]) ensures LowerStr(rs[i].value.identity) != name {
          assert rs[i] == prev.results[i];
          assert LowerStr(rs[i].value.identity) in VerifiedNames(prev.results);
        }
      }
      forall i | 0 <= i < n ensures rs[i] == prev.results[i] { }
    }
  }

  /**
   * A Duplicate result is never the first of its identity: its lower-cased
   * identity was seen before the run or was Verified by an earlier file.
   */
  lemma {:induction false} DuplicateFollowsVerified(st: SessionState, files: seq<Upload>, worker: Worker)
    requires RecordsAlways(worker)
    ensures var rs := RunFiles(st, files, worker).results;
      forall i :: 0 <= i < |rs| && IsDuplicate(rs[i]) ==>
        || LowerStr(rs[i].value.identity) in st.processedNames
        || exists j :: 0 <= j < i && IsVerified(rs[j]) && LowerStr(rs[j].value.identity) == LowerStr(rs[i].value.identity)
    decreases |files|
  {
    if |files| > 0 {
      var n := |files| - 1;
      var prev := RunFiles(st, files[..n], worker);
      DuplicateFollowsVerified(st, files[..n], worker);
      RunFilesState(st, files[..n], worker);
      var rs := RunFiles(st, files, worker).results;
      assert StepRecords(prev.state, worker(prev.state, files[n]), PathJoin(UploadDir, files[n].name));
      assert rs == prev.results + [rs[n]];
      forall i | 0 <= i < n ensures rs[i] == prev.results[i] { }
      if IsDuplicate(rs[n]) {
        var name := LowerStr(rs[n].value.identity);
        assert name in prev.state.processedNames;
        if name !in st.processedNames {
          assert name in VerifiedNames(prev.results);
          var j :| 0 <= j < |prev.results| && IsVerified(prev.results[j]) && LowerStr(prev.results[j].value.identity) == name;
          assert rs[j] == prev.results[j];
        }
      }
    }
  }

  /**
   * Two PDF uploads carrying the same claim, each corroborated by its own
   * text: the first is Verified and moved, the second is a Duplicate of it.
   */
  lemma SameClaimTwice(a: Upload, b: Upload, marker: string, id: string, parse: string -> Option<Claim>)
    requires IsPdfName(a.name) && IsPdfName(b.name)
    requires a.markers == [marker] && b.markers == [marker] && IsCandidate(marker)
    requires parse(marker) == Some(Claim(Some(id)))
    requires Corroborated(Some(id), Normalize(RawText(a.pages))) && Corroborated(Some(id), Normalize(RawText(b.pages)))
    ensures var run := Batch([a, b], parse);
      && run.results == [Some(Verified(Basename(PathJoin(UploadDir, a.name)), OriginalDir, id)),
                         Some(Duplicate(id, PathJoin(UploadDir, b.name)))]
      && run.state.processedNames == {LowerStr(id)}
  {
    assert PdfUploads([a, b]) == [a, b] by {
      PdfUploadsKeepsPdfs([a, b]);
    }
    var worker := Pipeline(parse);
    RunTwo(EmptySession(), a, b, worker);
    var first := ProcessUpload(EmptySession(), a, parse);
    assert worker(EmptySession(), a) == first;
    assert worker(first.state, b) == ProcessUpload(first.state, b, parse);
    SameClaimSteps(a, b, marker, id, parse);
  }

  /** The two pipeline steps of `SameClaimTwice`, from a fresh session. */
  lemma SameClaimSteps(a: Upload, b: Upload, marker: string, id: string, parse: string -> Option<Claim>)
    requires a.markers == [marker] && b.markers == [marker] && IsCandidate(marker)
    requires parse(marker) == Some(Claim(Some(id)))
    requires Corroborated(Some(id), Normalize(RawText(a.pages))) && Corroborated(Some(id), Normalize(RawText(b.pages)))
    ensures var first := ProcessUpload(EmptySession(), a, parse);
      var second := ProcessUpload(first.state, b, parse);
      && first.report == Some(Verified(Basename(PathJoin(UploadDir, a.name)), OriginalDir, id))
      && second.report == Some(Duplicate(id, PathJoin(UploadDir, b.name)))
      && second.state.processedNames == {LowerStr(id)}
  {
    var first := ProcessUpload(EmptySession(), a, parse);
    SingleClaimUpload(EmptySession(), a, marker, id, parse);
    SingleClaimUpload(first.state, b, marker, id, parse);
  }

  /** An upload whose only QR string carries a corroborated claim is Verified when unseen, else a Duplicate. */
  lemma SingleClaimUpload(st: SessionState, u: Upload, marker: string, id: string, parse: string -> Option<Claim>)
    requires u.markers == [marker] && IsCandidate(marker)
    requires parse(marker) == Some(Claim(Some(id))) && Corroborated(Some(id), Normalize(RawText(u.pages)))
    ensures var path := PathJoin(UploadDir, u.name);
      ProcessUpload(st, u, parse) ==
        if LowerStr(id) in st.processedNames then Step(Some(Duplicate(id, path)), st)
        else Step(Some(Verified(Basename(path), OriginalDir, id)),
                  SessionState(st.processedNames + {LowerStr(id)}, st.fakeFiles,
                               st.moves + [Move(path, PathJoin(OriginalDir, Basename(path)))]))
  {
    var text := Normalize(RawText(u.pages));
    var path := PathJoin(UploadDir, u.name);
    SingleMarker(st, u, marker, parse);
    if LowerStr(id) in st.processedNames {
      InfosysDuplicate(st, marker, parse, text, path, id);
    } else {
      InfosysVerified(st, marker, parse, text, path, id);
    }
  }

  /** A run over two files is the first file's step followed by the second's. */
  lemma RunTwo(st: SessionState, a: Upload, b: Upload, worker: Worker)
    ensures var first := worker(st, a);
      var second := worker(first.state, b);
      RunFiles(st, [a, b], worker) == Run([first.report, second.report], second.state)
  {
    var first := worker(st, a);
    assert RunFiles(st, [a], worker) == Run([first.report], first.state) by {
      assert [a][..0] == [];
      assert RunFiles(st, [], worker) == Run([], st);
    }
    assert [a, b][..1] == [a];
  }

  /** A document whose only QR string is JSON-shaped is decided by that string. */
  lemma SingleMarker(st: SessionState, u: Upload, marker: string, parse: string -> Option<Claim>)
    requires u.markers == [marker] && IsCandidate(marker)
    ensures ProcessUpload(st, u, parse) == Infosys(st, marker, parse, Normalize(RawText(u.pages)), PathJoin(UploadDir, u.name))
  {
    assert u.markers[0] == marker;
  }

  /**
   * What a client of `upload_folder` observes: a 400 error and no move for a
   * non-POST request or a missing folder; otherwise status 200, one result per
   * PDF-named upload in order, `original_names` exactly the verified
   * identities, `fake_files` keyed exactly by the fake files with a claim
   * (`UploadFolderLog` gives its values and the moves), no
   * identity verified twice, and every duplicate preceded by the Verified
   * result of its identity.
   */
  lemma UploadFolderResponse(request: Request, parse: string -> Option<Claim>)
    ensures var h := UploadFolderSpec(request, parse);
      request.verb != "POST" ==> h == Handled(Response(400, Error("Invalid request")), [])
    ensures var h := UploadFolderSpec(request, parse);
      request.verb == "POST" && request.folder.None? ==> h == Handled(Response(400, Error("No folder uploaded")), [])
    ensures var h := UploadFolderSpec(request, parse);
      request.verb == "POST" && request.folder.Some? ==>
        var rs := h.response.body.results;
        && h.response.status == 200
        && |rs| == |PdfUploads(request.folder.value)|
        && h.response.body.originalNames == VerifiedNames(rs)
        && h.response.body.fakeFiles.Keys == FakeNames(rs)
        && (forall i, j :: 0 <= i < j < |rs| && IsVerified(rs[i]) && IsVerified(rs[j]) ==>
              LowerStr(rs[i].value.identity) != LowerStr(rs[j].value.identity))
        && (forall i :: 0 <= i < |rs| && IsDuplicate(rs[i]) ==>
              exists j :: 0 <= j < i && IsVerified(rs[j]) && LowerStr(rs[j].value.identity) == LowerStr(rs[i].value.identity))
  {
    if request.verb == "POST" && request.folder.Some? {
      var files := PdfUploads(request.folder.value);
      PipelineRecords(parse);
      RunFilesState(EmptySession(), files, Pipeline(parse));
      AtMostOneVerified(EmptySession(), files, Pipeline(parse));
      DuplicateFollowsVerified(EmptySession(), files, Pipeline(parse));
    }
  }
}
