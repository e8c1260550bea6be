/**
 * Download statuses. The source declares them as consecutive integers
 * (`iota`), and the retry controller and the link log branch on their
 * numeric order, so the model keeps both: a datatype naming each status and
 * `Code`, its integer, through which every comparison goes.
 */
module Status {
  import opened Wrappers
  import Text

  datatype DownloadStatus =
    | Success
    | Ignored
    | Skipped
    | SkippedDuplicate
    | SkippedUnpermittedDomain
    | SkippedUnpermittedType
    | SkippedUnpermittedExtension
    | SkippedDetectedDuplicate
    | Failed
    | Failed404
    | FailedInvalidSource
    | FailedInvalidPath
    | FailedCreatingFolder
    | FailedRequesting
    | FailedDownloadingResponse
    | FailedReadResponse
    | FailedCreatingSubfolder
    | FailedWritingFile
    | FailedWritingDatabase

  /** The statuses that are policy rejections. */
  predicate IsSkip(s: DownloadStatus) {
    s.Skipped? || s.SkippedDuplicate? || s.SkippedUnpermittedDomain? || s.SkippedUnpermittedType?
    || s.SkippedUnpermittedExtension? || s.SkippedDetectedDuplicate?
  }

  /** The statuses that are failures. */
  predicate IsFailure(s: DownloadStatus) {
    s.Failed? || s.Failed404? || s.FailedInvalidSource? || s.FailedInvalidPath? || s.FailedCreatingFolder?
    || s.FailedRequesting? || s.FailedDownloadingResponse? || s.FailedReadResponse?
    || s.FailedCreatingSubfolder? || s.FailedWritingFile? || s.FailedWritingDatabase?
  }

  /** Number of declared statuses. */
  const StatusCount := 19

  /** The integer `iota` gives each status. Its ranges are the severity order:
      success, then ignored, then every skip, then every failure, with the
      generic `Failed` lowest among the failures. */
  function Code(s: DownloadStatus): (c: nat)
    ensures c < StatusCount
    ensures s == Success <==> c == 0
    ensures s == Ignored <==> c == 1
    ensures IsSkip(s) <==> 2 <= c < 8
    ensures s == Skipped <==> c == 2
    ensures IsFailure(s) <==> 8 <= c
    ensures s == Failed <==> c == 8
    ensures FromCode(c) == Some(s)
  {
    match s
    case Success => 0
    case Ignored => 1
    case Skipped => 2
    case SkippedDuplicate => 3
    case SkippedUnpermittedDomain => 4
    case SkippedUnpermittedType => 5
    case SkippedUnpermittedExtension => 6
    case SkippedDetectedDuplicate => 7
    case Failed => 8
    case Failed404 => 9
    case FailedInvalidSource => 10
    case FailedInvalidPath => 11
    case FailedCreatingFolder => 12
    case FailedRequesting => 13
    case FailedDownloadingResponse => 14
    case FailedReadResponse => 15
    case FailedCreatingSubfolder => 16
    case FailedWritingFile => 17
    case FailedWritingDatabase => 18
  }

  /** The status an integer denotes, if it denotes one. */
  function FromCode(c: int): (r: Option<DownloadStatus>)
    ensures r.Some? <==> 0 <= c < StatusCount
  {
    if c == 0 then Some(Success)
    else if c == 1 then Some(Ignored)
    else if c == 2 then Some(Skipped)
    else if c == 3 then Some(SkippedDuplicate)
    else if c == 4 then Some(SkippedUnpermittedDomain)
    else if c == 5 then Some(SkippedUnpermittedType)
    else if c == 6 then Some(SkippedUnpermittedExtension)
    else if c == 7 then Some(SkippedDetectedDuplicate)
    else if c == 8 then Some(Failed)
    else if c == 9 then Some(Failed404)
    else if c == 10 then Some(FailedInvalidSource)
    else if c == 11 then Some(FailedInvalidPath)
    else if c == 12 then Some(FailedCreatingFolder)
    else if c == 13 then Some(FailedRequesting)
    else if c == 14 then Some(FailedDownloadingResponse)
    else if c == 15 then Some(FailedReadResponse)
    else if c == 16 then Some(FailedCreatingSubfolder)
    else if c == 17 then Some(FailedWritingFile)
    else if c == 18 then Some(FailedWritingDatabase)
    else None
  }

  /** Distinct statuses have distinct codes, and every declared code names a status. */
  lemma CodeBijective(s: DownloadStatus, t: DownloadStatus, c: int)
    ensures Code(s) == Code(t) ==> s == t
    ensures 0 <= c < StatusCount ==> FromCode(c).Some? && Code(FromCode(c).value) == c
  {
    assert FromCode(Code(s)) == Some(s) && FromCode(Code(t)) == Some(t);
  }

  /** The severity order: status `a` ranks below status `b`. */
  predicate Below(a: DownloadStatus, b: DownloadStatus) {
    Code(a) < Code(b)
  }

  /** The severity order is strict and total. */
  lemma SeverityOrder(a: DownloadStatus, b: DownloadStatus, c: DownloadStatus)
    ensures Below(Success, Ignored)
    ensures IsSkip(a) ==> Below(Ignored, a) && Below(a, Failed)
    ensures IsFailure(a) ==> !Below(a, Failed)
    ensures IsSkip(a) && IsFailure(b) ==> Below(a, b)
    ensures a == b || Below(a, b) || Below(b, a)
    ensures !Below(a, a)
    ensures Below(a, b) && Below(b, c) ==> Below(a, c)
  {
    CodeBijective(a, b, 0);
  }

  const SkippedText := "Download Skipped"
  const FailedText := "Download Failed"

  /** getDownloadStatusString, over the integer a status is. */
  function StatusText(code: int): (r: string)
    ensures r == "Unknown Error" <==> FromCode(code).None?
  {
    if code == 0 then "Download Succeeded"
    else if code == 1 then "Download Ignored"
    else if code == 2 then SkippedText
    else if code == 3 then SkippedText + " - Duplicate"
    else if code == 4 then SkippedText + " - Unpermitted Domain"
    else if code == 5 then SkippedText + " - Unpermitted File Type"
    else if code == 6 then SkippedText + " - Unpermitted File Extension"
    else if code == 7 then SkippedText + " - Detected Duplicate"
    else if code == 8 then FailedText
    else if code == 9 then FailedText + " - 404 NOT FOUND"
    else if code == 10 then FailedText + " - Invalid Source"
    else if code == 11 then FailedText + " - Invalid Path"
    else if code == 12 then FailedText + " - Error Creating Folder"
    else if code == 13 then FailedText + " - Error Requesting URL Data"
    else if code == 14 then FailedText + " - Error Downloading URL Response"
    else if code == 15 then FailedText + " - Error Reading URL Response"
    else if code == 16 then FailedText + " - Error Creating Subfolder for Type"
    else if code == 17 then FailedText + " - Error Writing File"
    else if code == 18 then FailedText + " - Error Writing to Database"
    else "Unknown Error"
  }

  /** Every declared status has its own text, which names its severity class. */
  lemma StatusTextNamesClass(s: DownloadStatus)
    ensures StatusText(Code(s)) != "Unknown Error"
    ensures s == Success ==> StatusText(Code(s)) == "Download Succeeded"
    ensures IsSkip(s) ==> Text.HasPrefix(StatusText(Code(s)), SkippedText)
    ensures IsFailure(s) ==> Text.HasPrefix(StatusText(Code(s)), FailedText)
  {
  }

  /** Reads the code back from a status text by its length and, where two texts
      share a length, one character that tells them apart. */
  function CodeOfText(r: string): int {
    if |r| == 18 then 0
    else if |r| == 16 then (if r[9] == 'I' then 1 else 2)
    else if |r| == 28 then 3
    else if |r| == 37 then (if r[19] == 'U' then 4 else 7)
    else if |r| == 40 then 5
    else if |r| == 45 then 6
    else if |r| == 15 then 8
    else if |r| == 31 then 9
    else if |r| == 32 then 10
    else if |r| == 30 then 11
    else if |r| == 39 then 12
    else if |r| == 43 then (if r[24] == 'R' then 13 else 18)
    else if |r| == 48 then 14
    else if |r| == 44 then 15
    else if |r| == 51 then 16
    else if |r| == 36 then 17
    else -1
  }

  lemma SuccessAndSkipTextsDecode(s: DownloadStatus)
    requires Code(s) < Code(Failed)
    ensures CodeOfText(StatusText(Code(s))) == Code(s)
  {
    match s
    case Success =>
    case Ignored =>
    case Skipped =>
    case SkippedDuplicate =>
    case SkippedUnpermittedDomain =>
    case SkippedUnpermittedType =>
    case SkippedUnpermittedExtension =>
    case SkippedDetectedDuplicate =>
  }

  lemma EarlyFailureTextsDecode(s: DownloadStatus)
    requires Code(Failed) <= Code(s) < Code(FailedRequesting)
    ensures CodeOfText(StatusText(Code(s))) == Code(s)
  {
    match s
    case Failed =>
    case Failed404 =>
    case FailedInvalidSource =>
    case FailedInvalidPath =>
    case FailedCreatingFolder =>
  }

  lemma LateFailureTextsDecode(s: DownloadStatus)
    requires Code(FailedRequesting) <= Code(s)
    ensures CodeOfText(StatusText(Code(s))) == Code(s)
  {
    match s
    case FailedRequesting =>
    case FailedDownloadingResponse =>
    case FailedReadResponse =>
    case FailedCreatingSubfolder =>
    case FailedWritingFile =>
    case FailedWritingDatabase =>
  }

  /** The text of a status determines its code. */
  lemma StatusTextDecodes(s: DownloadStatus)
    ensures CodeOfText(StatusText(Code(s))) == Code(s)
  {
    if Code(s) < Code(Failed) {
      SuccessAndSkipTextsDecode(s);
    } else if Code(s) < Code(FailedRequesting) {
      EarlyFailureTextsDecode(s);
    } else {
      LateFailureTextsDecode(s);
    }
  }

  /** Distinct statuses have distinct texts. */
  lemma StatusTextInjective(s: DownloadStatus, t: DownloadStatus)
    ensures StatusText(Code(s)) == StatusText(Code(t)) ==> s == t
  {
    StatusTextDecodes(s);
    StatusTextDecodes(t);
    CodeBijective(s, t, 0);
  }

  type Error = string

  /** A status together with the error that caused it (nil when there is none). */
  datatype StatusResult = StatusResult(status: DownloadStatus, error: Option<Error>)

  /** mDownloadStatus: the variadic error argument keeps its first value, which may
      itself be nil; without one the error is nil. */
  function MakeStatus(status: DownloadStatus, errors: seq<Option<Error>>): (r: StatusResult)
    ensures r.status == status
    ensures |errors| == 0 ==> r.error == None
    ensures |errors| > 0 ==> r.error == errors[0]
  {
    if |errors| == 0 then StatusResult(status, None) else StatusResult(status, errors[0])
  }
}
