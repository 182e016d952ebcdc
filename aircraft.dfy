/** Aircraft configuration resolution (`parseAircraftModels`): the selector
    cell I3 of the trim sheet chooses a row of the optional AIRCRAFT MODELS
    lookup sheet; without a matching row the A320 constants apply. */
module AircraftModels {
  import opened Values
  import opened Workbooks

  const TrimSheet := "AIRCRAFT LOAD & TRIM SHEET"
  const ModelsSheet := "AIRCRAFT MODELS"

  /** The resolved profile. The three position counts are kept as the cell
      values `row[k] || default` produces, so a non-blank text survives. */
  datatype AircraftConfig = AircraftConfig(
    aircraftType: Cell,
    maxPositions: Cell,
    mainDeckPositions: Cell,
    lowerDeckPositions: Cell,
    cgForward: real,
    cgAft: real,
    maxPayload: real)

  /** `getCellValue(trimSheet, 'I3') || 'A320'` */
  function Selector(trim: Sheet): (r: Cell)
    ensures Truthy(r)
    ensures Truthy(GetCellValue(trim, "I3")) ==> r == GetCellValue(trim, "I3")
    ensures !Truthy(GetCellValue(trim, "I3")) ==> r == Str("A320")
  {
    Or(GetCellValue(trim, "I3"), Str("A320"))
  }

  /** The fallback profile: the selected type with the A320 constants. */
  function DefaultConfig(selected: Cell): AircraftConfig {
    AircraftConfig(selected, Num(12.0), Num(0.0), Num(12.0), 14.0, 28.0, 20000.0)
  }

  /** The profile read from a matching lookup row. */
  function ConfigFromRow(h: Host, row: seq<Cell>): AircraftConfig {
    AircraftConfig(
      CellAt(row, 0),
      Or(CellAt(row, 1), Num(12.0)),
      Or(CellAt(row, 2), Num(0.0)),
      Or(CellAt(row, 3), Num(12.0)),
      NumberOr(h, CellAt(row, 4), 14.0),
      NumberOr(h, CellAt(row, 5), 28.0),
      NumberOr(h, CellAt(row, 6), 20000.0))
  }

  /** The first row at index `from` or later whose first cell is strictly
      equal to the selector. */
  function FirstMatch(rows: seq<seq<Cell>>, selected: Cell, from: nat): (r: Option<nat>)
    ensures r.Some? ==> from <= r.value < |rows| && CellAt(rows[r.value], 0) == selected
    ensures r.Some? ==> forall k :: from <= k < r.value ==> CellAt(rows[k], 0) != selected
    ensures r.None? ==> forall k :: from <= k < |rows| ==> CellAt(rows[k], 0) != selected
    decreases |rows| - from
  {
    if from >= |rows| then None
    else if CellAt(rows[from], 0) == selected then Some(from)
    else FirstMatch(rows, selected, from + 1)
  }

  /** What `parseAircraftModels` returns or throws. */
  function ResolvedConfig(h: Host, wb: Workbook): Result<AircraftConfig, Fault> {
    if TrimSheet !in wb.sheets then Failure(SelectorSheetMissing)
    else
      var selected := Selector(wb.sheets[TrimSheet]);
      if ModelsSheet !in wb.sheets then Success(DefaultConfig(selected))
      else
        var rows := wb.sheets[ModelsSheet].rows;
        match FirstMatch(rows, selected, 1)
        case Some(i) => Success(ConfigFromRow(h, rows[i]))
        case None => Success(DefaultConfig(selected))
  }

  /** `parseAircraftModels(workbook)`: scan the lookup rows from index 1 and
      return the profile of the first match. */
  method ParseAircraftModels(h: Host, wb: Workbook) returns (r: Result<AircraftConfig, Fault>)
    ensures r == ResolvedConfig(h, wb)
  {
    if TrimSheet !in wb.sheets {
      return Failure(SelectorSheetMissing);
    }
    var selected := Selector(wb.sheets[TrimSheet]);
    if ModelsSheet in wb.sheets {
      var data := wb.sheets[ModelsSheet].rows;
      var i := 1;
      while i < |data|
        invariant 1 <= i
        invariant FirstMatch(data, selected, 1) == FirstMatch(data, selected, i)
        decreases |data| - i
      {
        var row := data[i];
        if CellAt(row, 0) == selected {
          return Success(ConfigFromRow(h, row));
        }
        i := i + 1;
      }
    }
    return Success(DefaultConfig(selected));
  }

  /** Resolution succeeds exactly when the trim sheet exists, and the
      resolved type is always the selector (a matching row starts with it). */
  lemma ResolvedTypeIsSelector(h: Host, wb: Workbook)
    ensures ResolvedConfig(h, wb).Success? <==> TrimSheet in wb.sheets
    ensures ResolvedConfig(h, wb).Success? ==>
              ResolvedConfig(h, wb).value.aircraftType == Selector(wb.sheets[TrimSheet])
  {
    if TrimSheet in wb.sheets && ModelsSheet in wb.sheets {
      var rows := wb.sheets[ModelsSheet].rows;
      var m := FirstMatch(rows, Selector(wb.sheets[TrimSheet]), 1);
      if m.Some? {
        assert CellAt(rows[m.value], 0) == Selector(wb.sheets[TrimSheet]);
      }
    }
  }

  /** The first matching lookup row at index 1 or later decides every field;
      a blank or zero count and a blank, zero or unparsable number take the
      defaults 12, 0, 12, 14.0, 28.0 and 20000. */
  lemma FirstMatchingRowWins(h: Host, wb: Workbook, i: nat)
    requires TrimSheet in wb.sheets && ModelsSheet in wb.sheets
    requires 1 <= i < |wb.sheets[ModelsSheet].rows|
    requires CellAt(wb.sheets[ModelsSheet].rows[i], 0) == Selector(wb.sheets[TrimSheet])
    requires forall k :: 1 <= k < i ==>
               CellAt(wb.sheets[ModelsSheet].rows[k], 0) != Selector(wb.sheets[TrimSheet])
    ensures var row := wb.sheets[ModelsSheet].rows[i];
            var c := ResolvedConfig(h, wb);
            && c == Success(ConfigFromRow(h, row))
            && c.value.aircraftType == Selector(wb.sheets[TrimSheet])
            && (Truthy(CellAt(row, 1)) ==> c.value.maxPositions == CellAt(row, 1))
            && (!Truthy(CellAt(row, 1)) ==> c.value.maxPositions == Num(12.0))
            && (Truthy(CellAt(row, 2)) ==> c.value.mainDeckPositions == CellAt(row, 2))
            && (!Truthy(CellAt(row, 2)) ==> c.value.mainDeckPositions == Num(0.0))
            && (Truthy(CellAt(row, 3)) ==> c.value.lowerDeckPositions == CellAt(row, 3))
            && (!Truthy(CellAt(row, 3)) ==> c.value.lowerDeckPositions == Num(12.0))
            && (ParseFloat(h, CellAt(row, 4)) in {None, Some(0.0)} ==> c.value.cgForward == 14.0)
            && (ParseFloat(h, CellAt(row, 5)) in {None, Some(0.0)} ==> c.value.cgAft == 28.0)
            && (ParseFloat(h, CellAt(row, 6)) in {None, Some(0.0)} ==> c.value.maxPayload == 20000.0)
            && c.value.cgForward != 0.0 && c.value.cgAft != 0.0 && c.value.maxPayload != 0.0
  {
  }

  /** Without a lookup sheet, or without a matching row, every type --
      B737 and B777 included -- gets the A320 constants. */
  lemma UnmatchedTypeGetsA320Constants(h: Host, wb: Workbook)
    requires TrimSheet in wb.sheets
    requires ModelsSheet in wb.sheets ==>
               forall k :: 1 <= k < |wb.sheets[ModelsSheet].rows| ==>
                 CellAt(wb.sheets[ModelsSheet].rows[k], 0) != Selector(wb.sheets[TrimSheet])
    ensures ResolvedConfig(h, wb) ==
              Success(AircraftConfig(Selector(wb.sheets[TrimSheet]), Num(12.0), Num(0.0), Num(12.0),
                                     14.0, 28.0, 20000.0))
  {
  }
}
