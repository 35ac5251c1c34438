/**
 * The per-document decision of `process_pdf_file` and `process_infosys`, as
 * functions from the session state before a document to its report and the
 * session state after it. The class `Scanner.Session` runs the same decision
 * in place and is proved against these functions.
 */
module Classifier {
  import opened Wrappers
  import opened Strings
  import opened TextExtraction

  const OriginalDir: string := "media/original"
  const FakeDir: string := "media/fake"
  const UploadDir: string := "media/uploads"

  /** What the classifier reads from a decoded credential: `credentialSubject.issuedTo`, if present. */
  datatype Claim = Claim(issuedTo: Option<string>)

  /** One uploaded PDF, as the two extractors see it: its decoded QR strings and its pages of words. */
  datatype Upload = Upload(name: string, markers: seq<string>, pages: seq<seq<string>>)

  /** A file relocation (`shutil.move(source, destination)`). */
  datatype Move = Move(source: string, destination: string)

  /**
   * The state shared by the documents of one batch: the lower-cased verified
   * identities (`processed_names`), the fake-file index (`fake_files_dict`) and
   * the moves made so far.
   */
  datatype SessionState = SessionState(processedNames: set<string>, fakeFiles: map<string, string>, moves: seq<Move>)

  /** The result dictionary returned for one document. */
  datatype Report =
    | NoQrCodes(file: string)
    | NotRecognized(file: string)
    | Verified(file: string, storedIn: string, identity: string)
    | Duplicate(identity: string, file: string)
    | Fake(file: string, storedIn: string, claimed: Option<string>)

  /** A document's report (`None` when its claim did not parse) and the state after it. */
  datatype Step = Step(report: Option<Report>, state: SessionState)

  /** The move a report records: a Verified or Fake file goes from `path` to its directory under its name. */
  function MoveOf(r: Option<Report>, path: string): seq<Move> {
    if IsVerified(r) || IsFake(r) then [Move(path, PathJoin(r.value.storedIn, r.value.file))] else []
  }

  /** The three outcomes of the identity check. */
  datatype Verdict = Genuine | DuplicateGenuine | Counterfeit

  /** `qr_data.startswith("{")`. */
  predicate IsCandidate(marker: string) {
    |marker| > 0 && marker[0] == '{'
  }

  /** Python truthiness of `issued_to`: present and non-empty. */
  predicate Truthy(issuedTo: Option<string>) {
    issuedTo.Some? && issuedTo.value != ""
  }

  predicate IsVerified(r: Option<Report>) {
    r.Some? && r.value.Verified?
  }

  predicate IsDuplicate(r: Option<Report>) {
    r.Some? && r.value.Duplicate?
  }

  predicate IsFake(r: Option<Report>) {
    r.Some? && r.value.Fake?
  }

  /** The identity a report adds to `processed_names`. */
  function NewName(r: Option<Report>): set<string> {
    if IsVerified(r) then {LowerStr(r.value.identity)} else {}
  }

  /** The file name a report adds to `fake_files_dict`. */
  function NewFakeKey(r: Option<Report>): set<string> {
    if IsFake(r) && Truthy(r.value.claimed) then {r.value.file} else {}
  }

  /** `fake_files_dict` after a report: a Fake report with a non-empty identity indexes its file. */
  function FakeIndexAfter(fakes: map<string, string>, r: Option<Report>): map<string, string> {
    if IsFake(r) && Truthy(r.value.claimed) then fakes[r.value.file := r.value.claimed.value] else fakes
  }

  /**
   * How one document's step `s` changes the session `st`, read off its report:
   * the seen set gains just a Verified report's lower-cased identity, which was
   * new (a Duplicate report's identity was already in it), the fake index is
   * updated only by a Fake report with a non-empty identity, and the only move
   * appended is the reported file's, from `path`.
   */
  predicate StepRecords(st: SessionState, s: Step, path: string) {
    && s.state.processedNames == st.processedNames + NewName(s.report)
    && (IsVerified(s.report) ==> LowerStr(s.report.value.identity) !in st.processedNames)
    && (IsDuplicate(s.report) ==> LowerStr(s.report.value.identity) in st.processedNames)
    && s.state.fakeFiles == FakeIndexAfter(st.fakeFiles, s.report)
    && s.state.moves == st.moves + MoveOf(s.report, path)
  }

  /** The `"status"` field of a report. */
  function Status(r: Report): (status: string)
    ensures r.Duplicate? <==> StartsWith(status, "Duplicate Original: ")
    ensures r.Verified? <==> status == "Infosys Verified"
    ensures r.Fake? <==> status == "Infosys Fake"
  {
    match r
    case NoQrCodes(_) => "No QR codes found"
    case NotRecognized(_) => "QR not recognized"
    case Verified(_, _, _) => "Infosys Verified"
    case Duplicate(identity, _) => "Duplicate Original: " + identity
    case Fake(_, _, _) => "Infosys Fake"
  }

  /** A caller can tell the outcome, and a duplicate's identity, from the status string alone. */
  lemma StatusIdentifiesOutcome(a: Report, b: Report)
    requires Status(a) == Status(b)
    ensures a.NoQrCodes? == b.NoQrCodes? && a.NotRecognized? == b.NotRecognized?
    ensures a.Verified? == b.Verified? && a.Duplicate? == b.Duplicate? && a.Fake? == b.Fake?
    ensures a.Duplicate? ==> a.identity == b.identity
  {
    if a.Duplicate? {
      var p := "Duplicate Original: ";
      assert Status(a)[|p|..] == a.identity && Status(b)[|p|..] == b.identity;
    }
  }

  /** The claimed identity is non-empty and occurs, ignoring case, in the document text. */
  ghost predicate Corroborated(issuedTo: Option<string>, text: string) {
    Truthy(issuedTo) && IsSubstring(LowerStr(issuedTo.value), LowerStr(text))
  }

  /**
   * The identity check of `process_infosys`: the claimed identity must be
   * non-empty and occur, ignoring case, in the document text; a match whose
   * lower-cased identity was already verified in this batch is a duplicate.
   */
  function Classify(issuedTo: Option<string>, text: string, seen: set<string>): (v: Verdict)
    ensures v == Genuine <==> Corroborated(issuedTo, text) && LowerStr(issuedTo.value) !in seen
    ensures v == DuplicateGenuine <==> Corroborated(issuedTo, text) && LowerStr(issuedTo.value) in seen
    ensures v == Counterfeit <==> !Corroborated(issuedTo, text)
  {
    if Truthy(issuedTo) && Contains(LowerStr(text), LowerStr(issuedTo.value)) then
      if LowerStr(issuedTo.value) !in seen then Genuine else DuplicateGenuine
    else Counterfeit
  }

  /**
   * `process_infosys`: parse the candidate, check the claimed identity, and
   * record the outcome in the session (a move, a verified name, a fake entry).
   */
  function Infosys(st: SessionState, qrData: string, parse: string -> Option<Claim>, text: string, path: string): (s: Step)
    // a claim that does not parse gives no report and changes nothing
    ensures s.report.None? <==> parse(qrData).None?
    ensures s.report.None? ==> s.state == st
    ensures s.report.Some? ==> s.report.value.Verified? || s.report.value.Duplicate? || s.report.value.Fake?
    // a moved file is reported under the basename of its path
    ensures IsVerified(s.report) || IsFake(s.report) ==> s.report.value.file == Basename(path)
  {
    match parse(qrData)
    case None => Step(None, st)
    case Some(claim) =>
      var filename := Basename(path);
      match Classify(claim.issuedTo, text, st.processedNames)
      case Genuine =>
        var id := claim.issuedTo.value;
        Step(Some(Verified(filename, OriginalDir, id)),
             st.(processedNames := st.processedNames + {LowerStr(id)},
                 moves := st.moves + [Move(path, PathJoin(OriginalDir, filename))]))
      case DuplicateGenuine =>
        Step(Some(Duplicate(claim.issuedTo.value, path)), st)
      case Counterfeit =>
        var fakes := if Truthy(claim.issuedTo) then st.fakeFiles[filename := claim.issuedTo.value] else st.fakeFiles;
        Step(Some(Fake(filename, FakeDir, claim.issuedTo)),
             st.(fakeFiles := fakes, moves := st.moves + [Move(path, PathJoin(FakeDir, filename))]))
  }

  /**
   * `process_infosys` only inserts: the seen set gains just a Verified
   * report's lower-cased identity, which was not in it before (a Duplicate
   * report's identity was); the fake index
   * gains just a Fake report's basename, and only for a non-empty identity;
   * the one move made is the reported file's.
   */
  lemma InfosysRecords(st: SessionState, qrData: string, parse: string -> Option<Claim>, text: string, path: string)
    ensures StepRecords(st, Infosys(st, qrData, parse, text, path), path)
  {
    if parse(qrData).Some? {
      var claimed := parse(qrData).value.issuedTo;
      if !Truthy(claimed) || !IsSubstring(LowerStr(claimed.value), LowerStr(text)) {
        InfosysFake(st, qrData, parse, text, path, claimed);
      } else if LowerStr(claimed.value) in st.processedNames {
        InfosysDuplicate(st, qrData, parse, text, path, claimed.value);
      } else {
        InfosysVerified(st, qrData, parse, text, path, claimed.value);
      }
    }
  }

  /**
   * Verified: a non-empty claimed identity that occurs, ignoring case, in the
   * text and was not seen before is added (lower-cased) to the seen set, and
   * the file moves to the original directory under its basename; the fake
   * index does not change.
   */
  lemma InfosysVerified(st: SessionState, qrData: string, parse: string -> Option<Claim>, text: string, path: string,
                        id: string)
    requires parse(qrData) == Some(Claim(Some(id))) && id != ""
    requires IsSubstring(LowerStr(id), LowerStr(text)) && LowerStr(id) !in st.processedNames
    ensures Infosys(st, qrData, parse, text, path) ==
      Step(Some(Verified(Basename(path), OriginalDir, id)),
           SessionState(st.processedNames + {LowerStr(id)}, st.fakeFiles,
                        st.moves + [Move(path, PathJoin(OriginalDir, Basename(path)))]))
  {
  }

  /**
   * Duplicate: a corroborated identity that was already verified in the batch
   * changes nothing; the report carries the identity and the upload path.
   */
  lemma InfosysDuplicate(st: SessionState, qrData: string, parse: string -> Option<Claim>, text: string, path: string,
                         id: string)
    requires parse(qrData) == Some(Claim(Some(id))) && id != ""
    requires IsSubstring(LowerStr(id), LowerStr(text)) && LowerStr(id) in st.processedNames
    ensures Infosys(st, qrData, parse, text, path) == Step(Some(Duplicate(id, path)), st)
  {
  }

  /**
   * Fake: an absent or empty identity, or one that does not occur in the
   * text, sends the file to the fake directory under its basename; only a
   * non-empty identity is indexed under that basename; the seen set does not change.
   */
  lemma InfosysFake(st: SessionState, qrData: string, parse: string -> Option<Claim>, text: string, path: string,
                    claimed: Option<string>)
    requires parse(qrData) == Some(Claim(claimed))
    requires !Truthy(claimed) || !IsSubstring(LowerStr(claimed.value), LowerStr(text))
    ensures Infosys(st, qrData, parse, text, path) ==
      Step(Some(Fake(Basename(path), FakeDir, claimed)),
           SessionState(st.processedNames,
                        if Truthy(claimed) then st.fakeFiles[Basename(path) := claimed.value] else st.fakeFiles,
                        st.moves + [Move(path, PathJoin(FakeDir, Basename(path)))]))
  {
  }

  /** The index of the first marker that starts with `{`, if any. */
  function FirstCandidate(markers: seq<string>): (r: Option<nat>)
    ensures r.Some? ==> r.value < |markers| && IsCandidate(markers[r.value])
    ensures r.Some? ==> forall j :: 0 <= j < r.value ==> !IsCandidate(markers[j])
    ensures r.None? ==> forall j :: 0 <= j < |markers| ==> !IsCandidate(markers[j])
  {
    if |markers| == 0 then None
    else if IsCandidate(markers[0]) then Some(0)
    else match FirstCandidate(markers[1..])
      case None => None
      case Some(k) => Some(k + 1)
  }

  /**
   * `process_pdf_file` once the markers and the text are known: no marker,
   * no JSON-shaped marker, or the outcome of the first JSON-shaped marker.
   */
  function ProcessPdf(st: SessionState, markers: seq<string>, text: string, path: string,
                      parse: string -> Option<Claim>): (s: Step)
    ensures markers == [] ==> s == Step(Some(NoQrCodes(path)), st)
    ensures markers != [] && (forall j :: 0 <= j < |markers| ==> !IsCandidate(markers[j])) ==>
      s == Step(Some(NotRecognized(path)), st)
  {
    if markers == [] then Step(Some(NoQrCodes(path)), st)
    else match FirstCandidate(markers)
      case None => Step(Some(NotRecognized(path)), st)
      case Some(i) => Infosys(st, markers[i], parse, text, path)
  }

  /** The first JSON-shaped marker, wherever it is, decides the document. */
  lemma FirstCandidateDecides(st: SessionState, markers: seq<string>, i: nat, text: string, path: string,
                              parse: string -> Option<Claim>)
    requires i < |markers| && IsCandidate(markers[i])
    requires forall j :: 0 <= j < i ==> !IsCandidate(markers[j])
    ensures ProcessPdf(st, markers, text, path, parse) == Infosys(st, markers[i], parse, text, path)
  {
    var k := FirstCandidate(markers).value;
    assert !(k < i) && !(i < k);
  }

  /** `process_pdf_file` changes the session only as its report records (see `InfosysRecords`). */
  lemma ProcessPdfRecords(st: SessionState, markers: seq<string>, text: string, path: string,
                          parse: string -> Option<Claim>)
    ensures StepRecords(st, ProcessPdf(st, markers, text, path, parse), path)
  {
    if markers != [] && FirstCandidate(markers).Some? {
      InfosysRecords(st, markers[FirstCandidate(markers).value], parse, text, path);
    }
  }

  /** `qr_data.startswith("{")`, as `IsCandidate` tests it. */
  lemma IsCandidateStartsWith(marker: string)
    ensures IsCandidate(marker) <==> StartsWith(marker, "{")
  {
    if |marker| > 0 {
      assert marker[..1] == [marker[0]];
    }
  }

  /** `process_single_pdf`: the upload is stored under the upload directory, then processed. */
  function ProcessUpload(st: SessionState, u: Upload, parse: string -> Option<Claim>): Step {
    ProcessPdf(st, u.markers, Normalize(RawText(u.pages)), PathJoin(UploadDir, u.name), parse)
  }

  /**
   * An upload with a plain name keeps it: a Verified or Fake upload is
   * reported under its own name and moved from `media/uploads/<name>` to the
   * reported directory under that name; the other reports name the upload
   * path and leave the session as it was.
   */
  lemma UploadKeepsName(st: SessionState, u: Upload, parse: string -> Option<Claim>)
    requires '/' !in u.name
    ensures var s := ProcessUpload(st, u, parse);
      var path := PathJoin(UploadDir, u.name);
      && (IsVerified(s.report) || IsFake(s.report) ==>
            && s.report.value.file == u.name
            && s.state.moves == st.moves + [Move(path, PathJoin(s.report.value.storedIn, u.name))])
      && (s.report.Some? && (s.report.value.NoQrCodes? || s.report.value.NotRecognized? || s.report.value.Duplicate?) ==>
            s.report.value.file == path && s.state == st)
  {
    var text := Normalize(RawText(u.pages));
    var path := PathJoin(UploadDir, u.name);
    if u.markers != [] && FirstCandidate(u.markers).Some? {
      var i := FirstCandidate(u.markers).value;
      FirstCandidateDecides(st, u.markers, i, text, path, parse);
      MovedUnderUploadName(st, u.markers[i], parse, text, u.name);
      InfosysRecords(st, u.markers[i], parse, text, path);
      var s := Infosys(st, u.markers[i], parse, text, path);
      if s.report.Some? && s.report.value.Duplicate? {
        assert s.state == SessionState(st.processedNames, st.fakeFiles, st.moves);
      }
    }
  }

  /** Only the first JSON-shaped marker matters: markers after it never change the outcome. */
  lemma LaterMarkersIgnored(st: SessionState, markers: seq<string>, later: seq<string>, text: string,
                            path: string, parse: string -> Option<Claim>)
    requires exists i :: 0 <= i < |markers| && IsCandidate(markers[i])
    ensures ProcessPdf(st, markers + later, text, path, parse) == ProcessPdf(st, markers, text, path, parse)
  {
    var i :| 0 <= i < |markers| && IsCandidate(markers[i]);
    var k := FirstCandidate(markers).value;
    assert (markers + later)[k] == markers[k];
    assert forall j :: 0 <= j < k ==> (markers + later)[j] == markers[j];
    FirstCandidateDecides(st, markers, k, text, path, parse);
    FirstCandidateDecides(st, markers + later, k, text, path, parse);
  }

  /**
   * A first JSON-shaped marker that does not parse ends the document's
   * processing with no report and no change, even when a later marker would parse.
   */
  lemma ParseFailureAborts(st: SessionState, markers: seq<string>, i: nat, text: string, path: string,
                           parse: string -> Option<Claim>)
    requires i < |markers| && IsCandidate(markers[i]) && parse(markers[i]).None?
    requires forall j :: 0 <= j < i ==> !IsCandidate(markers[j])
    ensures ProcessPdf(st, markers, text, path, parse) == Step(None, st)
  {
    FirstCandidateDecides(st, markers, i, text, path, parse);
  }

  /**
   * A relocated upload keeps its name: the report names the uploaded file and
   * the one move appended takes it from the upload directory to the reported
   * directory under the same name.
   */
  lemma MovedUnderUploadName(st: SessionState, qrData: string, parse: string -> Option<Claim>, text: string, name: string)
    requires '/' !in name
    ensures var s := Infosys(st, qrData, parse, text, PathJoin(UploadDir, name));
      IsVerified(s.report) || IsFake(s.report) ==>
        && s.report.value.file == name
        && s.state.moves == st.moves + [Move(PathJoin(UploadDir, name), PathJoin(s.report.value.storedIn, name))]
  {
    BasenameOfJoin(UploadDir, name);
  }
}
