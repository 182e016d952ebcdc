/** The upload handler of the application shell (`handleFileUpload`): check
    that the five sheets the parser extracts are listed, parse, and move the
    upload status from processing to success or error. Reading the file and
    decoding it belong to the browser and the spreadsheet library; their
    outcome is a parameter. */
module App {
  import opened Values
  import opened Workbooks
  import opened JsText
  import opened AircraftModels
  import opened SheetExtractors
  import opened CgBalance
  import opened ExcelParser

  /** The sheets the handler requires, in the order it reports them. The
      handler lists the same five sheets, in the same order, as the parse
      reads them, so the list is defined once. */
  const RequiredSheets := ExtractedSheets

  /** What reading and decoding the chosen file gave: a workbook, or the
      message of the error the library threw. */
  datatype Decoded = Decoded(wb: Workbook) | Unreadable(message: string)

  /** The indices of the required names that are not listed, ascending. */
  ghost function MissingIndices(required: seq<string>, names: seq<string>): seq<nat> {
    if required == [] then []
    else
      MissingIndices(required[..|required| - 1], names)
        + (if required[|required| - 1] in names then [] else [|required| - 1])
  }

  /** `r` is `required` with the listed names taken out: entry `j` of `r`
      is the required name at index `idx[j]`, the indices ascend, and every
      unlisted required name is picked. */
  ghost predicate PicksUnlisted(r: seq<string>, required: seq<string>, names: seq<string>, idx: seq<nat>) {
    && |idx| == |r|
    && (forall j :: 0 <= j < |idx| ==> idx[j] < |required| && r[j] == required[idx[j]] && r[j] !in names)
    && (forall i, j :: 0 <= i < j < |idx| ==> idx[i] < idx[j])
    && (forall k :: 0 <= k < |required| && required[k] !in names ==> k in idx)
  }

  /** `required.filter(sheet => !names.includes(sheet))` */
  function MissingFrom(required: seq<string>, names: seq<string>): (r: seq<string>)
    ensures |r| <= |required|
    ensures forall s :: s in r <==> s in required && s !in names
    ensures PicksUnlisted(r, required, names, MissingIndices(required, names))
  {
    if required == [] then []
    else
      var init := required[..|required| - 1];
      var last := required[|required| - 1];
      var r := MissingFrom(init, names) + (if last in names then [] else [last]);
      PicksUnlistedExtends(MissingFrom(init, names), required, names, MissingIndices(init, names));
      r
  }

  /** Extending the picks of `required` without its last name by that name,
      when unlisted, gives the picks of `required`. */
  lemma PicksUnlistedExtends(r0: seq<string>, required: seq<string>, names: seq<string>, idx0: seq<nat>)
    requires required != []
    requires PicksUnlisted(r0, required[..|required| - 1], names, idx0)
    ensures var n := |required| - 1;
            PicksUnlisted(r0 + (if required[n] in names then [] else [required[n]]), required, names,
                          idx0 + (if required[n] in names then [] else [n]))
  {
    var n := |required| - 1;
    var r := r0 + (if required[n] in names then [] else [required[n]]);
    var idx := idx0 + (if required[n] in names then [] else [n]);
    forall k | 0 <= k < |required| && required[k] !in names ensures k in idx {
      if k < n {
        assert required[..n][k] == required[k];
        assert k in idx0;
      } else {
        assert idx[|idx| - 1] == n;
      }
    }
    forall j | 0 <= j < |idx| ensures idx[j] < |required| && r[j] == required[idx[j]] && r[j] !in names {
      if j < |idx0| {
        assert required[..n][idx0[j]] == required[idx0[j]];
      }
    }
  }

  /** The required sheets the workbook does not list. */
  function MissingSheets(names: seq<string>): (r: seq<string>)
    ensures r == [] <==> forall j :: 0 <= j < |RequiredSheets| ==> RequiredSheets[j] in names
  {
    var r := MissingFrom(RequiredSheets, names);
    assert r != [] ==> r[0] in r;
    assert forall j :: 0 <= j < |RequiredSheets| ==> RequiredSheets[j] in RequiredSheets;
    r
  }

  /** "Missing required sheets: <names joined by ', '>" */
  function MissingSheetsMessage(missing: seq<string>): string {
    "Missing required sheets: " + Join(missing, ", ")
  }

  /** What the `try` block ends in: the parsed plan, or the message of the
      error it threw. */
  function UploadOutcome(h: Host, file: Decoded, clock: Clock): Result<LoadPlan, string> {
    match file
    case Unreadable(message) => Failure(message)
    case Decoded(wb) =>
      var missing := MissingSheets(wb.sheetNames);
      if |missing| > 0 then Failure(MissingSheetsMessage(missing))
      else ExcelParse(h, wb, clock)
  }

  /** `error.message || 'Failed to process Excel file'` */
  function DisplayedMessage(message: string): (r: string)
    ensures r != ""
    ensures message != "" ==> r == message
  {
    if message == "" then "Failed to process Excel file" else message
  }

  /** `'idle'`, `'processing'`, `'success'` and `'error'` */
  datatype UploadStatus = Idle | Processing | Succeeded | Failed

  /** Pairs of processing and then success or error. */
  ghost predicate Alternating(trail: seq<UploadStatus>) {
    && |trail| % 2 == 0
    && forall j :: 0 <= j < |trail| ==> (j % 2 == 0 <==> trail[j] == Processing) && trail[j] != Idle
  }

  lemma AlternatingExtends(trail: seq<UploadStatus>, outcome: UploadStatus)
    requires Alternating(trail)
    requires outcome in {Succeeded, Failed}
    ensures Alternating(trail + [Processing, outcome])
    ensures Succeeded in trail ==> Succeeded in trail + [Processing, outcome]
  {
    var t := trail + [Processing, outcome];
    forall j | 0 <= j < |t| ensures (j % 2 == 0 <==> t[j] == Processing) && t[j] != Idle {
      if j < |trail| {
        assert t[j] == trail[j];
      }
    }
    if Succeeded in trail {
      var j :| 0 <= j < |trail| && trail[j] == Succeeded;
      assert t[j] == Succeeded;
    }
  }

  /** The `try` block of the handler: check the required sheets, then
      parse; a missing sheet or a parse error ends it with that message. */
  method TryUpload(h: Host, file: Decoded, clock: Clock) returns (result: Result<LoadPlan, string>)
    ensures result == UploadOutcome(h, file, clock)
  {
    match file {
      case Unreadable(message) =>
        result := Failure(message);
      case Decoded(wb) =>
        var missing := MissingSheets(wb.sheetNames);
        if |missing| > 0 {
          result := Failure(MissingSheetsMessage(missing));
        } else {
          result := ParseExcelData(h, wb, clock);
        }
    }
  }

  class UploadPanel {
    var loadData: Option<LoadPlan>
    var uploadStatus: UploadStatus
    var errorMessage: string
    /** Every status the handler has set, in order. */
    ghost var statusTrail: seq<UploadStatus>

    /** The status is the last one set; every upload went through
        processing to success or error; a success leaves a plan and no
        message, an error leaves a message; a plan was loaded only by a
        successful upload. */
    ghost predicate Valid()
      reads this
    {
      && (statusTrail == [] ==> uploadStatus == Idle && loadData.None? && errorMessage == "")
      && (statusTrail != [] ==> uploadStatus == statusTrail[|statusTrail| - 1])
      && Alternating(statusTrail)
      && (uploadStatus == Succeeded ==> loadData.Some? && errorMessage == "")
      && (uploadStatus == Failed ==> errorMessage != "")
      && (loadData.Some? ==> Succeeded in statusTrail)
    }

    constructor ()
      ensures Valid()
      ensures loadData == None && uploadStatus == Idle && errorMessage == "" && statusTrail == []
    {
      loadData := None;
      uploadStatus := Idle;
      errorMessage := "";
      statusTrail := [];
    }

    /** `handleFileUpload`: without a file nothing changes; otherwise the
        status goes to processing, then to success with the parsed plan or
        to error with the message, the previous plan staying in place. */
    method HandleFileUpload(h: Host, file: Option<Decoded>, clock: Clock)
      requires Valid()
      modifies this
      ensures Valid()
      ensures file.None? ==>
                loadData == old(loadData) && uploadStatus == old(uploadStatus)
                && errorMessage == old(errorMessage) && statusTrail == old(statusTrail)
      ensures file.Some? && UploadOutcome(h, file.value, clock).Success? ==>
                && loadData == Some(UploadOutcome(h, file.value, clock).value)
                && uploadStatus == Succeeded && errorMessage == ""
                && statusTrail == old(statusTrail) + [Processing, Succeeded]
      ensures file.Some? && UploadOutcome(h, file.value, clock).Failure? ==>
                && loadData == old(loadData)
                && uploadStatus == Failed
                && errorMessage == DisplayedMessage(UploadOutcome(h, file.value, clock).error)
                && statusTrail == old(statusTrail) + [Processing, Failed]
    {
      if file.None? {
        return;
      }
      ghost var trail := statusTrail;
      uploadStatus := Processing;
      errorMessage := "";
      statusTrail := statusTrail + [Processing];

      var result := TryUpload(h, file.value, clock);

      if result.Success? {
        loadData := Some(result.value);
        uploadStatus := Succeeded;
        statusTrail := statusTrail + [Succeeded];
      } else {
        uploadStatus := Failed;
        errorMessage := DisplayedMessage(result.error);
        statusTrail := statusTrail + [Failed];
      }
      assert statusTrail == trail + [Processing, uploadStatus];
      AlternatingExtends(trail, uploadStatus);
    }
  }

  /** A workbook that does not list a required sheet fails with the message naming
      every missing sheet. */
  lemma {:induction false} MissingSheetIsReported(h: Host, wb: Workbook, clock: Clock, sheet: string)
    requires sheet in RequiredSheets && sheet !in wb.sheetNames
    ensures UploadOutcome(h, Decoded(wb), clock) == Failure(MissingSheetsMessage(MissingSheets(wb.sheetNames)))
    ensures Includes(UploadOutcome(h, Decoded(wb), clock).error, sheet)
  {
    var missing := MissingSheets(wb.sheetNames);
    assert sheet in missing;
    var k :| 0 <= k < |missing| && missing[k] == sheet;
    JoinIncludesEachPart(missing, ", ", k);
    IncludesWithin("Missing required sheets: ", Join(missing, ", "), "", sheet);
    assert "Missing required sheets: " + Join(missing, ", ") + "" == MissingSheetsMessage(missing);
  }

  /** With every required sheet listed, the outcome is the parser's. */
  lemma AllSheetsListedDefersToParser(h: Host, wb: Workbook, clock: Clock)
    requires forall j :: 0 <= j < |RequiredSheets| ==> RequiredSheets[j] in wb.sheetNames
    ensures UploadOutcome(h, Decoded(wb), clock) == ExcelParse(h, wb, clock)
  {
  }

  /** The check does not cover the trim sheet: a workbook listing the five
      required sheets but no trim sheet fails inside the parser with the
      TypeError of the selector lookup. */
  lemma ListedSheetsWithoutTrimSheetFail(h: Host, wb: Workbook, clock: Clock)
    requires Consistent(wb)
    requires forall j :: 0 <= j < |RequiredSheets| ==> RequiredSheets[j] in wb.sheetNames
    requires TrimSheet !in wb.sheetNames
    ensures UploadOutcome(h, Decoded(wb), clock) == Failure("Data parsing failed: " + SelectorMissingMessage)
  {
    ParseFailsWithoutTrimSheet(h, wb, clock);
  }

  /** With a consistent workbook, every required sheet listed and the trim
      sheet present, the upload succeeds unless the overall verdict B21 is
      a number. */
  lemma ListedSheetsParse(h: Host, wb: Workbook, clock: Clock)
    requires Consistent(wb)
    requires forall j :: 0 <= j < |RequiredSheets| ==> RequiredSheets[j] in wb.sheetNames
    requires TrimSheet in wb.sheetNames
    ensures CgSheet in wb.sheets
    ensures var verdict := GetCellValue(wb.sheets[CgSheet], "B21");
            UploadOutcome(h, Decoded(wb), clock).Success? <==> !(verdict.Num? && Truthy(verdict))
  {
    assert RequiredSheets[0] in wb.sheets && RequiredSheets[1] in wb.sheets;
    assert RequiredSheets[2] in wb.sheets && RequiredSheets[3] in wb.sheets;
    assert RequiredSheets[4] in wb.sheets;
    ParseSucceedsWithAllSheets(h, wb, clock);
  }
}
