/** `parseExcelData`: resolve the aircraft profile, run the five sheet
    extractors, keep the positions with a non-blank label and assemble one
    load plan. Any error is rethrown as "Data parsing failed: <message>". */
module ExcelParser {
  import opened Values
  import opened Workbooks
  import opened JsText
  import opened AircraftModels
  import opened SheetExtractors
  import opened CgBalance

  /** The display date, time and ISO timestamp `new Date()` gives. */
  datatype Clock = Clock(date: string, time: string, timestamp: string)

  datatype FlightInfo = FlightInfo(
    aircraftType: Cell,
    flightNumber: string,
    route: string,
    date: string,
    time: string,
    loadController: string,
    status: string)

  /** The assembled load plan. */
  datatype LoadPlan = LoadPlan(
    flightInfo: FlightInfo,
    aircraftParams: AircraftConfig,
    cargoPositions: seq<CargoPosition>,
    uldSpecs: map<string, UldSpec>,
    visualStatus: map<string, PositionStatus>,
    physics: ArmMomentTotals,
    cgAnalysis: CgAnalysis,
    timestamp: string)

  /** The five extracted sheets in the order the parse reads them. */
  const ExtractedSheets := [LoadInputSheet, MasterTableSheet, VisualLayoutSheet, ArmMomentSheet, CgSheet]

  /** `pos.position && pos.position.trim() !== ""` */
  predicate IsActive(p: CargoPosition) {
    p.position != "" && Trim(p.position) != ""
  }

  /** A position is active exactly when its label has a non-whitespace
      character. */
  lemma ActiveIffVisibleLabel(p: CargoPosition)
    ensures IsActive(p) <==> exists i :: 0 <= i < |p.position| && !IsWhitespace(p.position[i])
  {
    TrimEmptyIffBlank(p.position);
  }

  /** `uldLoadInput.filter(...)`: the active positions, in order. */
  function ActivePositions(ps: seq<CargoPosition>): (r: seq<CargoPosition>)
    ensures |r| <= |ps|
    ensures forall p :: p in r ==> p in ps && IsActive(p)
    ensures forall p :: p in ps && IsActive(p) ==> p in r
  {
    if ps == [] then []
    else
      var last := ps[|ps| - 1];
      ActivePositions(ps[..|ps| - 1]) + (if IsActive(last) then [last] else [])
  }

  /** "Data parsing failed: <message>" */
  function ParseFailure(f: Fault): string {
    "Data parsing failed: " + FaultMessage(f)
  }

  /** The returned object; flight number, route, controller and status are
      constants of the source. */
  function Assemble(params: AircraftConfig, positions: seq<CargoPosition>, specs: map<string, UldSpec>,
                    statuses: map<string, PositionStatus>, physics: ArmMomentTotals, cg: CgAnalysis,
                    clock: Clock): LoadPlan
  {
    LoadPlan(
      FlightInfo(params.aircraftType, "CA-8042", "PVG → LAX", clock.date, clock.time, "AI SYSTEM", "AUTO-GENERATED"),
      params, ActivePositions(positions), specs, statuses, physics, cg, clock.timestamp)
  }

  /** What the parse yields, or the fault of the first step that throws. */
  function ParsedWorkbook(h: Host, wb: Workbook, clock: Clock): Result<LoadPlan, Fault> {
    var params :- ResolvedConfig(h, wb);
    var positions :- LoadInputOf(h, wb);
    var specs :- MasterTableOf(h, wb);
    var statuses :- VisualLayoutOf(h, wb);
    var physics :- ArmMomentOf(h, wb);
    var cg :- CgBalanceOf(h, wb, params);
    Success(Assemble(params, positions, specs, statuses, physics, cg, clock))
  }

  /** What `parseExcelData` returns or throws. */
  function ExcelParse(h: Host, wb: Workbook, clock: Clock): Result<LoadPlan, string> {
    match ParsedWorkbook(h, wb, clock)
    case Success(plan) => Success(plan)
    case Failure(f) => Failure(ParseFailure(f))
  }

  method ParseExcelData(h: Host, wb: Workbook, clock: Clock) returns (r: Result<LoadPlan, string>)
    ensures r == ExcelParse(h, wb, clock)
  {
    var params := ParseAircraftModels(h, wb);
    if params.Failure? {
      return Failure(ParseFailure(params.error));
    }
    var positions := ParseULDLoadInput(h, wb);
    if positions.Failure? {
      return Failure(ParseFailure(positions.error));
    }
    var specs := ParseULDMasterTable(h, wb);
    if specs.Failure? {
      return Failure(ParseFailure(specs.error));
    }
    var statuses := ParseCargoVisualLayout(h, wb);
    if statuses.Failure? {
      return Failure(ParseFailure(statuses.error));
    }
    var physics := ParseArmMoment(h, wb);
    if physics.Failure? {
      return Failure(ParseFailure(physics.error));
    }
    var cg := CgBalanceOf(h, wb, params.value);
    if cg.Failure? {
      return Failure(ParseFailure(cg.error));
    }
    return Success(Assemble(params.value, positions.value, specs.value, statuses.value,
                            physics.value, cg.value, clock));
  }

  /** Without the trim sheet the parse throws the TypeError of
      `getCellValue` before any extracted sheet is read. */
  lemma ParseFailsWithoutTrimSheet(h: Host, wb: Workbook, clock: Clock)
    requires TrimSheet !in wb.sheets
    ensures ExcelParse(h, wb, clock) == Failure("Data parsing failed: " + SelectorMissingMessage)
  {
    assert ParsedWorkbook(h, wb, clock) == Failure(SelectorSheetMissing);
  }

  /** With the trim sheet present, the first absent extracted sheet, in the
      order the parse reads them, is the one reported; no partial plan is
      returned. */
  lemma {:induction false} ParseFailsOnFirstMissingSheet(h: Host, wb: Workbook, clock: Clock, k: nat)
    requires TrimSheet in wb.sheets
    requires k < |ExtractedSheets|
    requires ExtractedSheets[k] !in wb.sheets
    requires forall j :: 0 <= j < k ==> ExtractedSheets[j] in wb.sheets
    ensures ExcelParse(h, wb, clock) == Failure("Data parsing failed: " + ExtractedSheets[k] + " sheet not found")
  {
    assert ResolvedConfig(h, wb).Success?;
    if k >= 1 { assert ExtractedSheets[0] in wb.sheets; }
    if k >= 2 { assert ExtractedSheets[1] in wb.sheets; }
    if k >= 3 { assert ExtractedSheets[2] in wb.sheets; }
    if k >= 4 { assert ExtractedSheets[3] in wb.sheets; }
    assert ParsedWorkbook(h, wb, clock) == Failure(SheetNotFound(ExtractedSheets[k]));
    assert ParseFailure(SheetNotFound(ExtractedSheets[k])) ==
           "Data parsing failed: " + ExtractedSheets[k] + " sheet not found";
  }

  /** With every sheet present the parse succeeds unless the overall
      verdict B21 holds a number. */
  lemma ParseSucceedsWithAllSheets(h: Host, wb: Workbook, clock: Clock)
    requires TrimSheet in wb.sheets && LoadInputSheet in wb.sheets && MasterTableSheet in wb.sheets
    requires VisualLayoutSheet in wb.sheets && ArmMomentSheet in wb.sheets && CgSheet in wb.sheets
    ensures var verdict := GetCellValue(wb.sheets[CgSheet], "B21");
            ExcelParse(h, wb, clock).Success? <==> !(verdict.Num? && Truthy(verdict))
    ensures ExcelParse(h, wb, clock).Failure? ==>
              ExcelParse(h, wb, clock) == Failure("Data parsing failed: " + VerdictNotTextMessage)
  {
    assert ResolvedConfig(h, wb).Success?;
    var params := ResolvedConfig(h, wb).value;
    assert LoadInputOf(h, wb).Success? && MasterTableOf(h, wb).Success?;
    assert VisualLayoutOf(h, wb).Success? && ArmMomentOf(h, wb).Success?;
    var verdict := GetCellValue(wb.sheets[CgSheet], "B21");
    assert CgBalanceOf(h, wb, params).Failure? <==> Verdict(wb.sheets[CgSheet]).Failure?;
    if ExcelParse(h, wb, clock).Failure? {
      assert ParsedWorkbook(h, wb, clock) == Failure(VerdictNotText);
    }
  }

  /** A row whose record survives both the extractor's skip rule and the
      active-position filter. */
  predicate Qualifies(h: Host, row: seq<Cell>) {
    Truthy(CellAt(row, 0)) && IsActive(PositionOf(h, row))
  }

  /** The qualifying rows among 1..k-1, in sheet order. */
  ghost function ActiveRowIndices(h: Host, data: seq<seq<Cell>>, k: nat): seq<nat>
    requires k <= |data|
  {
    if k <= 1 then []
    else ActiveRowIndices(h, data, k - 1) + (if Qualifies(h, data[k - 1]) then [k - 1] else [])
  }

  /** `ps` holds, one per entry of `rows`, the records of the qualifying
      rows among 1..k-1, in strictly increasing row order, and `rows` misses
      none of them. */
  ghost predicate RecordsOfRows(h: Host, data: seq<seq<Cell>>, k: nat, ps: seq<CargoPosition>, rows: seq<nat>)
    requires k <= |data|
  {
    && |ps| == |rows|
    && (forall j :: 0 <= j < |rows| ==>
          1 <= rows[j] < k && Qualifies(h, data[rows[j]]) && ps[j] == PositionOf(h, data[rows[j]]))
    && (forall j1, j2 :: 0 <= j1 < j2 < |rows| ==> rows[j1] < rows[j2])
    && (forall i :: 1 <= i < k && Qualifies(h, data[i]) ==> i in rows)
  }

  /** The cargo positions are the records of the qualifying rows 1..k-1,
      one per row, in sheet order, and no qualifying row is dropped. */
  lemma {:induction false} ActiveRowsInSheetOrder(h: Host, data: seq<seq<Cell>>, k: nat)
    requires k <= |data|
    ensures RecordsOfRows(h, data, k, ActivePositions(LoadRowsUpTo(h, data, k)), ActiveRowIndices(h, data, k))
  {
    if k > 1 {
      ActiveRowsInSheetOrder(h, data, k - 1);
      var prev := LoadRowsUpTo(h, data, k - 1);
      var ps0 := ActivePositions(prev);
      var rows0 := ActiveRowIndices(h, data, k - 1);
      var ps := ActivePositions(LoadRowsUpTo(h, data, k));
      var rows := ActiveRowIndices(h, data, k);
      var row := data[k - 1];
      var x := PositionOf(h, row);
      if Truthy(CellAt(row, 0)) {
        assert LoadRowsUpTo(h, data, k) == prev + [x];
        ActiveOfAppend(prev, x);
      } else {
        assert LoadRowsUpTo(h, data, k) == prev;
      }
      if Qualifies(h, row) {
        assert ps == ps0 + [x];
        assert rows == rows0 + [k - 1];
        ExtendRecordsOfRows(h, data, k, ps0, rows0);
      } else {
        assert ps == ps0;
        assert rows == rows0;
        forall i | 1 <= i < k && Qualifies(h, data[i]) ensures i in rows {
          if i < k - 1 {
            assert i in rows0;
          }
        }
      }
    }
  }

  /** One qualifying row appended keeps the correspondence. */
  lemma ExtendRecordsOfRows(h: Host, data: seq<seq<Cell>>, k: nat, ps: seq<CargoPosition>, rows: seq<nat>)
    requires 1 < k <= |data|
    requires RecordsOfRows(h, data, k - 1, ps, rows)
    requires Qualifies(h, data[k - 1])
    ensures RecordsOfRows(h, data, k, ps + [PositionOf(h, data[k - 1])], rows + [k - 1])
  {
    var rows1 := rows + [k - 1];
    forall i | 1 <= i < k && Qualifies(h, data[i]) ensures i in rows1 {
      if i < k - 1 {
        assert i in rows;
      }
    }
  }

  /** Filtering a sequence extended by one record filters the record alone. */
  lemma ActiveOfAppend(ps: seq<CargoPosition>, x: CargoPosition)
    ensures ActivePositions(ps + [x]) == ActivePositions(ps) + (if IsActive(x) then [x] else [])
  {
    assert (ps + [x])[..|ps|] == ps;
  }

  /** The plan's cargo positions are, in sheet order, the records of the
      qualifying rows among 1..13 of the ULD LOAD INPUT sheet. */
  lemma PlanPositionsFollowSheet(h: Host, wb: Workbook, clock: Clock)
    requires ExcelParse(h, wb, clock).Success?
    ensures LoadInputSheet in wb.sheets
    ensures var data := wb.sheets[LoadInputSheet].rows;
            RecordsOfRows(h, data, LoadInputEnd(data), ExcelParse(h, wb, clock).value.cargoPositions,
                          ActiveRowIndices(h, data, LoadInputEnd(data)))
  {
    var data := wb.sheets[LoadInputSheet].rows;
    ActiveRowsInSheetOrder(h, data, LoadInputEnd(data));
  }

  /** The plan holds at most thirteen cargo positions: rows 1..13 are read. */
  lemma CargoPositionsBounded(h: Host, wb: Workbook, clock: Clock)
    requires ExcelParse(h, wb, clock).Success?
    ensures |ExcelParse(h, wb, clock).value.cargoPositions| <= LastLoadRow
  {
  }

  /** Parsing twice gives the same plan up to the date, time and timestamp. */
  lemma OnlyTimestampsDependOnClock(h: Host, wb: Workbook, c1: Clock, c2: Clock)
    ensures ExcelParse(h, wb, c1).Success? <==> ExcelParse(h, wb, c2).Success?
    ensures ExcelParse(h, wb, c1).Failure? ==> ExcelParse(h, wb, c1) == ExcelParse(h, wb, c2)
    ensures ExcelParse(h, wb, c1).Success? ==>
              var p1 := ExcelParse(h, wb, c1).value;
              var p2 := ExcelParse(h, wb, c2).value;
              p1.(flightInfo := p1.flightInfo.(date := c2.date, time := c2.time), timestamp := c2.timestamp) == p2
  {
  }

  /** The plan's type is the selector and the CG limits fall back to the
      resolved profile the plan carries. */
  lemma PlanUsesResolvedProfile(h: Host, wb: Workbook, clock: Clock)
    requires ExcelParse(h, wb, clock).Success?
    ensures var plan := ExcelParse(h, wb, clock).value;
            var sheet := wb.sheets[CgSheet];
            && plan.flightInfo.aircraftType == plan.aircraftParams.aircraftType == Selector(wb.sheets[TrimSheet])
            && (ParseFloat(h, GetCellValue(sheet, "B7")) in {None, Some(0.0)} ==>
                  plan.cgAnalysis.forwardLimit == plan.aircraftParams.cgForward)
            && (ParseFloat(h, GetCellValue(sheet, "B8")) in {None, Some(0.0)} ==>
                  plan.cgAnalysis.aftLimit == plan.aircraftParams.cgAft)
  {
    ResolvedTypeIsSelector(h, wb);
    var params := ResolvedConfig(h, wb).value;
    LimitsFallBackToProfile(h, wb, params);
  }
}
