/**
 * The scanner pipeline as it runs: one `Session` object holds the mutable
 * state of a batch (`processed_names`, `fake_files_dict`, and the file moves
 * made), and each method updates it in place. Every method is proved against
 * the corresponding function of `Classifier`.
 */
module Scanner {
  import opened Wrappers
  import opened Strings
  import opened TextExtraction
  import opened Classifier

  class Session {
    /** Lower-cased identities verified so far (`processed_names`). */
    var processedNames: set<string>
    /** File name to claimed identity for every fake with a non-empty claim (`fake_files_dict`). */
    var fakeFiles: map<string, string>
    /** The relocations performed, in order. */
    var moves: seq<Move>

    /** The session as a value. */
    function State(): SessionState
      reads this
    {
      SessionState(processedNames, fakeFiles, moves)
    }

    /** A batch starts with an empty seen set, an empty fake index and no move. */
    constructor ()
      ensures State() == SessionState({}, map[], [])
    {
      processedNames := {};
      fakeFiles := map[];
      moves := [];
    }

    /** `process_infosys`. */
    method ProcessInfosys(qrData: string, parse: string -> Option<Claim>, text: string, path: string)
      returns (r: Option<Report>)
      modifies this
      ensures Step(r, State()) == Infosys(old(State()), qrData, parse, text, path)
    {
      ghost var st := State();
      var parsed := parse(qrData);
      if parsed.None? {
        return None;
      }
      var issuedTo := parsed.value.issuedTo;
      var filename := Basename(path);
      if Truthy(issuedTo) && Contains(LowerStr(text), LowerStr(issuedTo.value)) {
        var extractedName := issuedTo.value;
        if LowerStr(extractedName) !in processedNames {
          InfosysVerified(st, qrData, parse, text, path, extractedName);
          moves := moves + [Move(path, PathJoin(OriginalDir, filename))];
          processedNames := processedNames + {LowerStr(extractedName)};
          r := Some(Verified(filename, OriginalDir, extractedName));
        } else {
          InfosysDuplicate(st, qrData, parse, text, path, extractedName);
          r := Some(Duplicate(extractedName, path));
        }
      } else {
        InfosysFake(st, qrData, parse, text, path, issuedTo);
        moves := moves + [Move(path, PathJoin(FakeDir, filename))];
        if Truthy(issuedTo) {
          fakeFiles := fakeFiles[filename := issuedTo.value];
        }
        r := Some(Fake(filename, FakeDir, issuedTo));
      }
    }

    /**
     * `process_pdf_file` on a document whose QR strings are `markers` and
     * whose pages of words are `pages`: scan the markers in order and hand the
     * first JSON-shaped one to `ProcessInfosys`.
     */
    method ProcessPdfFile(path: string, markers: seq<string>, pages: seq<seq<string>>,
                          parse: string -> Option<Claim>)
      returns (r: Option<Report>)
      modifies this
      ensures Step(r, State()) == ProcessPdf(old(State()), markers, Normalize(RawText(pages)), path, parse)
    {
      var text := ExtractText(pages);
      if |markers| == 0 {
        return Some(NoQrCodes(path));
      }
      var i := 0;
      while i < |markers|
        invariant 0 <= i <= |markers|
        invariant forall j :: 0 <= j < i ==> !IsCandidate(markers[j])
      {
        if IsCandidate(markers[i]) {
          FirstCandidateDecides(State(), markers, i, text, path, parse);
          r := ProcessInfosys(markers[i], parse, text, path);
          return;
        }
        i := i + 1;
      }
      return Some(NotRecognized(path));
    }

    /** `process_single_pdf`: the upload is written under the upload directory and processed there. */
    method ProcessSinglePdf(u: Upload, parse: string -> Option<Claim>) returns (r: Option<Report>)
      modifies this
      ensures Step(r, State()) == ProcessUpload(old(State()), u, parse)
    {
      var filePath := PathJoin(UploadDir, u.name);
      r := ProcessPdfFile(filePath, u.markers, u.pages, parse);
    }
  }
}
