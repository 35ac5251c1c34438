# CertiSure certificate scanner — a Dafny model

CertiSure checks a batch of uploaded PDF certificates. Each PDF carries a QR
code whose payload is a JSON credential; the scanner reads the claimed
holder (`credentialSubject.issuedTo`), looks for that name, ignoring case, in
the PDF's own text, and routes the file: a corroborated name seen for the
first time in the batch is *Infosys Verified* and the file moves to
`media/original`; a corroborated name already verified in the batch is a
*Duplicate Original* and the file stays where it is; a missing, empty or
uncorroborated name is *Infosys Fake* and the file moves to `media/fake`,
with the claimed name indexed by file name. Documents without QR strings, or
without a JSON-shaped one, are reported as such; a JSON-shaped first
candidate that fails to parse yields no report (`None`).

The model covers:

- `TextExtraction` (`text.dfy`): the text side of `extract_text_from_pdf` —
  the page loop that joins each page's words, then `replace("\n", " ")`,
  one `replace("  ", " ")` pass and `strip()`. `ExtractText` is the loop,
  proved against `Normalize(RawText(pages))`.
- `Strings` (`strings.dfy`): `str.lower()`, the `in` substring test
  (`Contains`, proved equal to a window-based definition), `startswith`,
  `endswith`, `os.path.basename` and `os.path.join`.
- `Classifier` (`classifier.dfy`): the decision of `process_infosys` and
  `process_pdf_file` as functions from the session state before a document to
  its report and the session state after it.
- `Scanner` (`scanner.dfy`): class `Session`, whose fields are the batch's
  mutable state (`processed_names`, `fake_files_dict`, and the log of file
  moves); its methods perform the same decision in place, with the marker
  loop and early return of `process_pdf_file`, and are proved against the
  `Classifier` functions.
- `Views` (`views.dfy`): `upload_folder` — the `.pdf` filter, a fresh session
  per request, one result per PDF upload in submission order, the response
  built from the final session state, and the two 400 answers. The worker
  pool is modelled as a sequential fold (`RunFiles`) whose per-file step is a
  parameter (`Worker`); `Pipeline(parse)` is the scanner's step, and
  `PipelineRecords` proves the one property of it the batch lemmas use.

The JSON parser is a parameter `parse: string -> Option<Claim>`: `None` is a
`json.JSONDecodeError`, and `Claim.issuedTo` is
`qr_json.get("credentialSubject", {}).get("issuedTo", None)`. A PDF is given
by what the two extractors deliver: its decoded QR strings (`markers`) and its
pages of words. A file move is recorded as a `Move(source, destination)`
appended to the session's move log.

Behaviours of the code that the model keeps as written:

- `extract_text_from_pdf` makes one non-overlapping `replace("  ", " ")` pass,
  so a run of `k` blanks becomes `ceil(k / 2)` blanks (`CollapseRun`,
  `ThreeBlanksSurvive`); every non-blank character survives, in order
  (`CollapseKeepsNonBlanks`).
- Results come back in submission order, because `upload_folder` reads them
  from the `futures` list in the order the files were submitted
  (`ResultsInOrder`).
- `file_move_lock` guards only the two moves (`utils.py` lines 70-71 and
  87-88). The "already seen?" check at line 68 and the insert at line 72 are
  outside it, so `AtMostOneVerified` holds for serial execution only, not for
  the threaded program.
- A duplicate's report carries the upload path (`media/uploads/<name>`), not
  the bare file name, and its status embeds the name (`Duplicate Original: <name>`).

## Model

| member | source | states |
|---|---|---|
| `Strings.Contains` | major/major/scanner/utils.py:66 | the left-to-right search answers true exactly when some window of the text equals the needle |
| `Strings.LowerStrLowers` | major/major/scanner/utils.py:66-68 | lower-casing keeps the length, turns each `A`–`Z` into its `a`–`z` partner, keeps every other character in place, leaves no `A`–`Z`, and is idempotent |
| `Strings.SubstringInConcat` | major/major/scanner/utils.py:27 | a string occurring in either part occurs in their concatenation |
| `Strings.Basename` | major/major/scanner/utils.py:64 | the file name holds no `/`, is no longer than the path, and when shorter follows a `/` |
| `Strings.BasenameIsSuffix` | major/major/scanner/utils.py:64 | the file name is the tail of the path, hence its longest `/`-free suffix |
| `Strings.BasenameOfJoin` | major/major/scanner/utils.py:119 | the basename of `os.path.join(dir, name)` is `name` for a `/`-free name |
| `Strings.PathJoinParts` | major/major/scanner/utils.py:119 | `os.path.join(dir, name)` ends with `name`; an absolute `name` replaces `dir`; otherwise the result starts with `dir`, and one `/` is inserted right after `dir` exactly when `dir` is non-empty and does not already end in `/` |
| `TextExtraction.ReplaceNewlines` | major/major/scanner/utils.py:29 | same length, each `\n` becomes a blank, every other character kept in place |
| `TextExtraction.IsSpaceAscii` | major/major/scanner/utils.py:29 | below U+0080, `str.isspace()` holds exactly for blank, `\t`, `\n`, `\v`, `\f`, `\r` and U+001C–U+001F |
| `TextExtraction.WordInJoin` | major/major/scanner/utils.py:27 | every word of a page occurs in the page's `" ".join` of its words |
| `TextExtraction.WordInRawText` | major/major/scanner/utils.py:24-27 | every word of every page occurs in the text the page loop accumulates |
| `TextExtraction.CollapseDoubleSpaces` | major/major/scanner/utils.py:29 | the single replacement pass never lengthens the text and introduces no new character |
| `TextExtraction.CollapseKeepsNonBlanks` | major/major/scanner/utils.py:29 | the replacement pass removes only blanks: the non-blank characters are exactly those of the input, in order |
| `TextExtraction.CollapseRunThen` | major/major/scanner/utils.py:29 | a run of `k` blanks before a non-blank character becomes `ceil(k / 2)` blanks, and the rest of the text is processed independently |
| `TextExtraction.LeadingSpaces` | major/major/scanner/utils.py:29 | the count of leading characters `strip()` removes: all whitespace, and the next one is not |
| `TextExtraction.TrailingSpaces` | major/major/scanner/utils.py:29 | the count of trailing characters `strip()` removes: all whitespace, and the one before is not |
| `TextExtraction.Strip` | major/major/scanner/utils.py:29 | the result is a middle slice between an all-whitespace prefix and suffix, and neither starts nor ends with whitespace |
| `TextExtraction.Normalize` | major/major/scanner/utils.py:29 | the normalised text holds no `\n`, has no leading or trailing whitespace, and is no longer than the raw text |
| `TextExtraction.ExtractText` | major/major/scanner/utils.py:22-30 | the page loop plus normalisation yields `Normalize(RawText(pages))`, hence no `\n`, no outer whitespace, no longer than the joined words |
| `TextExtraction.CollapseRun` | major/major/scanner/utils.py:29 | one pass turns a run of `k` blanks into `ceil(k / 2)` blanks, so runs of three or more are not collapsed |
| `TextExtraction.ThreeBlanksSurvive` | major/major/scanner/utils.py:24-29 | two empty pages between words leave a double blank in the extracted text |
| `Classifier.StatusIdentifiesOutcome` | major/major/scanner/utils.py:73-96 | equal status strings mean the same outcome kind, and for duplicates the same identity |
| `Classifier.Status` | major/major/scanner/utils.py:73-114 | the status starts with `Duplicate Original: ` exactly for a Duplicate, is `Infosys Verified` exactly for Verified and `Infosys Fake` exactly for Fake |
| `Classifier.IsCandidateStartsWith` | major/major/scanner/utils.py:110 | a marker is a candidate exactly when it starts with `{` |
| `Classifier.Classify` | major/major/scanner/utils.py:66-68 | Genuine iff the claim is non-empty, its lower-case form occurs in the lower-cased text and is unseen; DuplicateGenuine iff it occurs and is seen; Counterfeit iff it is empty/absent or does not occur |
| `Classifier.Infosys` | major/major/scanner/utils.py:60-99 | no report exactly when the claim does not parse, and then nothing changes; otherwise the report is Verified, Duplicate or Fake, and a moved file is reported under the basename of its path |
| `Classifier.InfosysRecords` | major/major/scanner/utils.py:66-96 | insertion only: the seen set gains just a Verified report's lower-cased identity, which was new (a Duplicate's was already there); the fake index gains just basename → identity for a Fake report with a non-empty identity; the one move appended is the reported file's |
| `Classifier.InfosysVerified` | major/major/scanner/utils.py:66-78 | a non-empty identity that occurs, ignoring case, in the text and is unseen: Verified, the seen set gains exactly its lower-case form, the fake index is unchanged, the file moves to `media/original` under its basename |
| `Classifier.InfosysDuplicate` | major/major/scanner/utils.py:66-83 | a corroborated identity already seen: Duplicate carrying the identity and the upload path; no move, seen set and fake index unchanged |
| `Classifier.InfosysFake` | major/major/scanner/utils.py:85-96 | an absent, empty or uncorroborated identity: Fake, the file moves to `media/fake` under its basename, the fake index gains basename → identity only for a non-empty identity, the seen set is unchanged |
| `Classifier.FirstCandidate` | major/major/scanner/utils.py:109-110 | the index of the first marker starting with `{`, or none when no marker does |
| `Classifier.ProcessPdf` | major/major/scanner/utils.py:102-114 | no markers: "No QR codes found" with the path, state unchanged; markers but none starting with `{`: "QR not recognized" with the path, state unchanged |
| `Classifier.FirstCandidateDecides` | major/major/scanner/utils.py:109-112 | when marker `i` is the first to start with `{`, the document's outcome is `process_infosys` on marker `i` |
| `Classifier.ProcessPdfRecords` | major/major/scanner/utils.py:102-114 | the document changes the session only as its report records: insertion only, one move for a Verified or Fake report, none otherwise |
| `Classifier.LaterMarkersIgnored` | major/major/scanner/utils.py:109-112 | markers after the first JSON-shaped one never change the outcome |
| `Classifier.ParseFailureAborts` | major/major/scanner/utils.py:109-112 | a first JSON-shaped marker that fails to parse gives no report and no change, whatever follows it |
| `Classifier.MovedUnderUploadName` | major/major/scanner/utils.py:64-96 | a verified or fake upload is reported under its own name and moved from the upload directory to the reported directory under that name |
| `Classifier.UploadKeepsName` | major/major/scanner/utils.py:117-125 | for a `/`-free upload name: a Verified or Fake upload is reported under that name and exactly one move, from `media/uploads/<name>` to the reported directory under that name, is appended; no QR, unrecognised and Duplicate reports carry the upload path and leave the session unchanged |
| `Scanner.Session.constructor` | major/major/scanner/views.py:13-14 | a session starts with an empty seen set, an empty fake index and no moves |
| `Scanner.Session.ProcessInfosys` | major/major/scanner/utils.py:60-99 | the in-place update and the report equal `Infosys` on the old state |
| `Scanner.Session.ProcessPdfFile` | major/major/scanner/utils.py:102-114 | the marker loop with early return equals `ProcessPdf` on the old state and the extracted text |
| `Scanner.Session.ProcessSinglePdf` | major/major/scanner/utils.py:117-125 | the upload is processed at `media/uploads/<name>` |
| `Views.PdfUploads` | major/major/scanner/views.py:24-26 | the kept uploads all have a `.pdf` name (any case), come from the input, and include every such upload |
| `Views.PdfUploadsOne` | major/major/scanner/views.py:24-26 | a single upload is kept exactly when its name ends in `.pdf`, ignoring case |
| `Views.PdfSuffixAnyCase` | major/major/scanner/views.py:25 | `.pdf`, `.PDF` and `.Pdf` names are all accepted; a name ending in `.pdf.txt` is not |
| `Views.NoPdfsKept` | major/major/scanner/views.py:24-26 | when no upload is PDF-named, none is submitted |
| `Views.BatchWithoutPdfs` | major/major/scanner/views.py:13-34 | a request without PDF-named uploads yields no result, an empty seen set, an empty fake index and no moves |
| `Views.RunFiles` | major/major/scanner/views.py:22-29 | one result per processed file |
| `Views.PipelineRecords` | major/major/scanner/utils.py:66-96 | every document step changes the session exactly as its report records (`StepRecords`): the seen set gains just a Verified report's new identity (a Duplicate's is already in it), the fake index is updated only by a Fake report with a claim, and the one move appended is the reported file's |
| `Views.UploadFolder` | major/major/scanner/views.py:11-37 | the handler's response and moves equal `UploadFolderSpec` |
| `Views.UploadFolderSpec` | major/major/scanner/views.py:11-37 | status 400 exactly for a non-POST request or a missing folder, and then an error body and no moves; otherwise status 200 with a results body |
| `Views.ProcessFolder` | major/major/scanner/views.py:22-29 | the submission loop runs the PDF uploads in order against the shared session |
| `Views.PdfUploadsKeepsPdfs` | major/major/scanner/views.py:24-26 | when every upload is PDF-named, all are processed, in order |
| `Views.PdfUploadsAppend` | major/major/scanner/views.py:24-26 | filtering distributes over concatenation |
| `Views.NonPdfIgnored` | major/major/scanner/views.py:24-26 | inserting a non-PDF upload anywhere changes neither results nor final state |
| `Views.ResultsInOrder` | major/major/scanner/views.py:23-29 | the k-th result is the k-th file's outcome against the state left by the files before it |
| `Views.RunFilesState` | major/major/scanner/views.py:27-34 | the final seen set is the initial one plus the verified identities, and the fake-index keys are the initial ones plus the fake files with a claim |
| `Views.RunFilesLog` | major/major/scanner/utils.py:70-90 | the final fake index is the initial one updated by each result in order, and the final moves are the initial ones followed by each Verified or Fake result's move, in order |
| `Views.FakeIndexLastClaim` | major/major/scanner/utils.py:89-90 | from an empty index, each entry `f` holds the identity claimed by the last Fake result with a claim whose file is `f` |
| `Views.AtMostOneVerified` | major/major/scanner/utils.py:68-72 | under sequential processing no lower-cased identity is Verified twice, nor when already seen |
| `Views.DuplicateFollowsVerified` | major/major/scanner/utils.py:68-83 | every Duplicate's lower-cased identity was seen before the run or Verified by an earlier file |
| `Views.SingleMarker` | major/major/scanner/utils.py:106-112 | a document whose only QR string starts with `{` is decided by that string |
| `Views.SingleClaimUpload` | major/major/scanner/utils.py:66-83 | an upload whose only QR string carries a corroborated claim is Verified (and moved) when the identity is unseen, and a Duplicate otherwise |
| `Views.SameClaimTwice` | major/major/scanner/views.py:13-29 | two PDF uploads with the same corroborated claim in one request: the first is Verified, the second a Duplicate of it, and the seen set is that one identity |
| `Views.UploadFolderResponse` | major/major/scanner/views.py:11-37 | non-POST or missing folder: status 400, nothing moved; otherwise status 200, one result per PDF upload, `original_names` exactly the verified identities, `fake_files` keyed exactly by the fake files with a claim, no identity verified twice, every Duplicate preceded by the Verified result of its identity |
| `Views.UploadFolderLog` | major/major/scanner/views.py:13-34 | in a 200 answer each `fake_files[f]` is the identity claimed by the last Fake result with a claim for `f`, and the moves are exactly the results' moves in submission order |

## Left out

- PDF reading with PyMuPDF (`fitz.open`, `get_text`, `get_images`, `extract_image`): foreign code; a PDF is given as its pages of words and its decoded QR strings.
- `extract_qr_from_pdf` and the QR web service call: network I/O; its output, the ordered list of strings that decoded, is an input.
- `json.loads`: replaced by the `parse` parameter; the crash paths where `credentialSubject` is not an object or `issuedTo` is not a string are not modelled.
- File system effects: the chunked write of each upload, `os.makedirs`, and `shutil.move` itself; a move is a recorded `Move`, and a failing move is not modelled.
- Django request and response objects and `csrf_exempt`: a request is its HTTP method and an optional `folder` list; a response is a status and a body. Django's `UploadedFile` reduces each upload's name to its basename before `pdf_file.name` is read at `utils.py` line 118, so upload names contain no `/`; `Classifier.UploadKeepsName` and `Classifier.MovedUnderUploadName` assume this.
- Exceptions that end the request: `future.result()` (`views.py` line 29) re-raises any exception of a worker (an unreadable PDF in `fitz.open`, a `credentialSubject` that is not an object, an `issuedTo` that is not a string, a failing move), which aborts the whole request, possibly after earlier files were already moved; the model has no such path, and every document yields a result.
- `ThreadPoolExecutor` and `file_move_lock`: the batch runs sequentially; nothing here claims the threaded dedup is race-free.
- `Strings.LowerStr`: maps only ASCII `A`–`Z`; Python's full Unicode case mapping is not modelled.
- `Views.UploadFolder`: `original_names` is the seen set itself; the order in which `list(processed_names)` lists it is not modelled.
- `Views.AtMostOneVerified`: holds for serial execution only, because the source's check and insert are outside the lock.
