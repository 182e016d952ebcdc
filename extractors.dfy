/** Four of the five sheet extractors: `parseULDLoadInput`,
    `parseULDMasterTable`, `parseCargoVisualLayout` and `parseArmMoment`.
    Each throws "<SHEET NAME> sheet not found" when its sheet is absent,
    and otherwise walks the sheet's rows with a fixed start index. */
module SheetExtractors {
  import opened Values
  import opened Workbooks

  const LoadInputSheet := "ULD LOAD INPUT"
  const MasterTableSheet := "ULD MASTER TABLE"
  const VisualLayoutSheet := "CARGO HOLD VISUAL LAYOUT"
  const ArmMomentSheet := "ARM & MOMENT COMPUTATION"

  /** The last row index the load-input loop reads (`i <= 13`): rows 1..13,
      thirteen data rows. */
  const LastLoadRow := 13

  datatype CargoPosition = CargoPosition(position: string, uldType: string, weight: real, destination: string)

  datatype UldSpec = UldSpec(maxWeight: real, deck: string, compatible: string)

  datatype PositionStatus = PositionStatus(status: string, actualWeight: real, maxWeight: real, utilization: real)

  datatype ArmMomentTotals = ArmMomentTotals(totalWeight: real, totalMoment: real)

  /** The row range `[from, min(k, |data|))` a loop has covered once its
      index reaches `k`. */
  function Covered(data: seq<seq<Cell>>, k: int): nat {
    if k < 0 then 0 else if k <= |data| then k else |data|
  }

  // ULD LOAD INPUT

  /** The record pushed for one row; a blank or unparsable weight reads 0. */
  function PositionOf(h: Host, row: seq<Cell>): (r: CargoPosition)
    ensures r.position == Text(h, CellAt(row, 0)) && r.uldType == Text(h, CellAt(row, 1))
    ensures r.destination == Text(h, CellAt(row, 3))
    ensures ParseFloat(h, CellAt(row, 2)).None? ==> r.weight == 0.0
    ensures ParseFloat(h, CellAt(row, 2)).Some? ==> r.weight == ParseFloat(h, CellAt(row, 2)).value
  {
    CargoPosition(Text(h, CellAt(row, 0)), Text(h, CellAt(row, 1)),
                  NumberOr(h, CellAt(row, 2), 0.0), Text(h, CellAt(row, 3)))
  }

  /** The records the loop has pushed once it has looked at rows 1..k-1. */
  function LoadRowsUpTo(h: Host, data: seq<seq<Cell>>, k: nat): (r: seq<CargoPosition>)
    requires k <= |data|
    ensures |r| <= if k == 0 then 0 else k - 1
  {
    if k <= 1 then []
    else
      var row := data[k - 1];
      LoadRowsUpTo(h, data, k - 1) + (if Truthy(CellAt(row, 0)) then [PositionOf(h, row)] else [])
  }

  /** Where the loop `i < data.length && i <= 13` stops. */
  function LoadInputEnd(data: seq<seq<Cell>>): nat {
    Covered(data, LastLoadRow + 1)
  }

  /** What `parseULDLoadInput` returns or throws. */
  function LoadInputOf(h: Host, wb: Workbook): (r: Result<seq<CargoPosition>, Fault>)
    ensures r.Failure? <==> LoadInputSheet !in wb.sheets
    ensures r.Failure? ==> r.error == SheetNotFound(LoadInputSheet)
    ensures r.Success? ==> |r.value| <= LastLoadRow
  {
    if LoadInputSheet !in wb.sheets then Failure(SheetNotFound(LoadInputSheet))
    else
      var data := wb.sheets[LoadInputSheet].rows;
      Success(LoadRowsUpTo(h, data, LoadInputEnd(data)))
  }

  method ParseULDLoadInput(h: Host, wb: Workbook) returns (r: Result<seq<CargoPosition>, Fault>)
    ensures r == LoadInputOf(h, wb)
  {
    if LoadInputSheet !in wb.sheets {
      return Failure(SheetNotFound(LoadInputSheet));
    }
    var data := wb.sheets[LoadInputSheet].rows;
    var positions := [];
    var i := 1;
    while i < |data| && i <= LastLoadRow
      invariant 1 <= i <= LastLoadRow + 1
      invariant positions == LoadRowsUpTo(h, data, Covered(data, i))
      decreases |data| - i
    {
      var row := data[i];
      if Truthy(CellAt(row, 0)) {
        positions := positions + [PositionOf(h, row)];
      }
      i := i + 1;
    }
    return Success(positions);
  }

  /** A negative weight is kept as it is: the extractor does not clamp. */
  lemma NegativeWeightIsKept(h: Host, w: real)
    requires w < 0.0
    ensures PositionOf(h, [Str("A1"), Str("PMC"), Num(w), Str("JFK")]).weight == w
  {
  }

  // Keyed tables: a later row with the same key replaces an earlier one.

  /** The row's first cell is truthy and its text is `key`. */
  predicate KeyedBy(h: Host, row: seq<Cell>, key: string) {
    Truthy(CellAt(row, 0)) && Text(h, CellAt(row, 0)) == key
  }

  /** The last row in `[from, k)` keyed by `key`. */
  function LastKeyedRow(h: Host, data: seq<seq<Cell>>, from: nat, k: nat, key: string): (r: Option<nat>)
    requires k <= |data|
    ensures r.Some? ==> from <= r.value < k && KeyedBy(h, data[r.value], key)
    ensures r.Some? ==> forall j :: r.value < j < k ==> !KeyedBy(h, data[j], key)
    ensures r.None? ==> forall j :: from <= j < k ==> !KeyedBy(h, data[j], key)
  {
    if k <= from then None
    else if KeyedBy(h, data[k - 1], key) then Some(k - 1)
    else LastKeyedRow(h, data, from, k - 1, key)
  }

  // ULD MASTER TABLE

  /** The spec one row describes: unparsable capacity 0, blank deck "Main". */
  function SpecOf(h: Host, row: seq<Cell>): (r: UldSpec)
    ensures r.deck != ""
    ensures Text(h, CellAt(row, 2)) == "" ==> r.deck == "Main"
    ensures Text(h, CellAt(row, 2)) != "" ==> r.deck == Text(h, CellAt(row, 2))
    ensures ParseFloat(h, CellAt(row, 1)).None? ==> r.maxWeight == 0.0
    ensures ParseFloat(h, CellAt(row, 1)).Some? ==> r.maxWeight == ParseFloat(h, CellAt(row, 1)).value
    ensures r.compatible == Text(h, CellAt(row, 3))
  {
    UldSpec(NumberOr(h, CellAt(row, 1), 0.0), TextOr(h, CellAt(row, 2), "Main"), Text(h, CellAt(row, 3)))
  }

  /** The table once the loop has looked at rows 1..k-1. */
  function SpecsUpTo(h: Host, data: seq<seq<Cell>>, k: nat): map<string, UldSpec>
    requires k <= |data|
  {
    if k <= 1 then map[]
    else
      var specs := SpecsUpTo(h, data, k - 1);
      var row := data[k - 1];
      if Truthy(CellAt(row, 0)) then specs[Text(h, CellAt(row, 0)) := SpecOf(h, row)] else specs
  }

  /** What `parseULDMasterTable` returns or throws. */
  function MasterTableOf(h: Host, wb: Workbook): (r: Result<map<string, UldSpec>, Fault>)
    ensures r.Failure? <==> MasterTableSheet !in wb.sheets
    ensures r.Failure? ==> r.error == SheetNotFound(MasterTableSheet)
  {
    if MasterTableSheet !in wb.sheets then Failure(SheetNotFound(MasterTableSheet))
    else
      var data := wb.sheets[MasterTableSheet].rows;
      Success(SpecsUpTo(h, data, |data|))
  }

  method ParseULDMasterTable(h: Host, wb: Workbook) returns (r: Result<map<string, UldSpec>, Fault>)
    ensures r == MasterTableOf(h, wb)
  {
    if MasterTableSheet !in wb.sheets {
      return Failure(SheetNotFound(MasterTableSheet));
    }
    var data := wb.sheets[MasterTableSheet].rows;
    var specs := map[];
    var i := 1;
    while i < |data|
      invariant 1 <= i
      invariant specs == SpecsUpTo(h, data, Covered(data, i))
      decreases |data| - i
    {
      var row := data[i];
      if Truthy(CellAt(row, 0)) {
        specs := specs[Text(h, CellAt(row, 0)) := SpecOf(h, row)];
      }
      i := i + 1;
    }
    return Success(specs);
  }

  /** A type is in the table exactly when some row from index 1 on is keyed
      by it, and its spec is that of the last such row. */
  lemma {:induction false} MasterTableLastRowWins(h: Host, data: seq<seq<Cell>>, k: nat, key: string)
    requires k <= |data|
    ensures key in SpecsUpTo(h, data, k) <==> LastKeyedRow(h, data, 1, k, key).Some?
    ensures key in SpecsUpTo(h, data, k) ==>
              SpecsUpTo(h, data, k)[key] == SpecOf(h, data[LastKeyedRow(h, data, 1, k, key).value])
  {
    if k > 1 {
      MasterTableLastRowWins(h, data, k - 1, key);
    }
  }

  // CARGO HOLD VISUAL LAYOUT

  /** The first row index the visual-layout loop reads (rows 0..2 are
      headings and legend). */
  const FirstStatusRow := 3

  /** The status one row describes; utilisation is actual/max when max is
      positive and 0 otherwise. */
  function StatusOf(h: Host, row: seq<Cell>): (r: PositionStatus)
    ensures r.status != ""
    ensures Text(h, CellAt(row, 5)) == "" ==> r.status == "UNKNOWN"
    ensures Text(h, CellAt(row, 5)) != "" ==> r.status == Text(h, CellAt(row, 5))
    ensures ParseFloat(h, CellAt(row, 2)).None? ==> r.actualWeight == 0.0
    ensures ParseFloat(h, CellAt(row, 2)).Some? ==> r.actualWeight == ParseFloat(h, CellAt(row, 2)).value
    ensures ParseFloat(h, CellAt(row, 3)).None? ==> r.maxWeight == 0.0
    ensures ParseFloat(h, CellAt(row, 3)).Some? ==> r.maxWeight == ParseFloat(h, CellAt(row, 3)).value
    ensures r.maxWeight > 0.0 ==> r.utilization * r.maxWeight == r.actualWeight
    ensures r.maxWeight <= 0.0 ==> r.utilization == 0.0
  {
    var actual := NumberOr(h, CellAt(row, 2), 0.0);
    var max := NumberOr(h, CellAt(row, 3), 0.0);
    PositionStatus(TextOr(h, CellAt(row, 5), "UNKNOWN"), actual, max,
                   if max > 0.0 then actual / max else 0.0)
  }

  /** The table once the loop has looked at rows 3..k-1. */
  function StatusesUpTo(h: Host, data: seq<seq<Cell>>, k: nat): map<string, PositionStatus>
    requires k <= |data|
  {
    if k <= FirstStatusRow then map[]
    else
      var statuses := StatusesUpTo(h, data, k - 1);
      var row := data[k - 1];
      if Truthy(CellAt(row, 0)) then statuses[Text(h, CellAt(row, 0)) := StatusOf(h, row)] else statuses
  }

  /** What `parseCargoVisualLayout` returns or throws. */
  function VisualLayoutOf(h: Host, wb: Workbook): (r: Result<map<string, PositionStatus>, Fault>)
    ensures r.Failure? <==> VisualLayoutSheet !in wb.sheets
    ensures r.Failure? ==> r.error == SheetNotFound(VisualLayoutSheet)
  {
    if VisualLayoutSheet !in wb.sheets then Failure(SheetNotFound(VisualLayoutSheet))
    else
      var data := wb.sheets[VisualLayoutSheet].rows;
      Success(StatusesUpTo(h, data, |data|))
  }

  method ParseCargoVisualLayout(h: Host, wb: Workbook) returns (r: Result<map<string, PositionStatus>, Fault>)
    ensures r == VisualLayoutOf(h, wb)
  {
    if VisualLayoutSheet !in wb.sheets {
      return Failure(SheetNotFound(VisualLayoutSheet));
    }
    var data := wb.sheets[VisualLayoutSheet].rows;
    var statuses := map[];
    var i := FirstStatusRow;
    while i < |data|
      invariant FirstStatusRow <= i
      invariant statuses == StatusesUpTo(h, data, Covered(data, i))
      decreases |data| - i
    {
      var row := data[i];
      if Truthy(CellAt(row, 0)) {
        statuses := statuses[Text(h, CellAt(row, 0)) := StatusOf(h, row)];
      }
      i := i + 1;
    }
    return Success(statuses);
  }

  /** A position is in the table exactly when some row from index 3 on is
      keyed by it, and its status is that of the last such row. */
  lemma {:induction false} VisualLayoutLastRowWins(h: Host, data: seq<seq<Cell>>, k: nat, key: string)
    requires k <= |data|
    ensures key in StatusesUpTo(h, data, k) <==> LastKeyedRow(h, data, FirstStatusRow, k, key).Some?
    ensures key in StatusesUpTo(h, data, k) ==>
              StatusesUpTo(h, data, k)[key] ==
                StatusOf(h, data[LastKeyedRow(h, data, FirstStatusRow, k, key).value])
  {
    if k > FirstStatusRow {
      VisualLayoutLastRowWins(h, data, k - 1, key);
    }
  }

  // ARM & MOMENT COMPUTATION

  /** `row[3] && !isNaN(parseFloat(row[3]))` */
  predicate IsTotalsRow(h: Host, row: seq<Cell>) {
    Truthy(CellAt(row, 3)) && ParseFloat(h, CellAt(row, 3)).Some?
  }

  /** The totals a qualifying row holds; an unparsable moment reads 0. */
  function TotalsOf(h: Host, row: seq<Cell>): ArmMomentTotals
    requires IsTotalsRow(h, row)
  {
    ArmMomentTotals(ParseFloat(h, CellAt(row, 3)).value, NumberOr(h, CellAt(row, 4), 0.0))
  }

  /** The bottom-most qualifying row below index `n`. */
  function BottomTotalsRow(h: Host, data: seq<seq<Cell>>, n: nat): (r: Option<nat>)
    requires n <= |data|
    ensures r.Some? ==> r.value < n && IsTotalsRow(h, data[r.value])
    ensures r.Some? ==> forall k :: r.value < k < n ==> !IsTotalsRow(h, data[k])
    ensures r.None? ==> forall k :: 0 <= k < n ==> !IsTotalsRow(h, data[k])
  {
    if n == 0 then None
    else if IsTotalsRow(h, data[n - 1]) then Some(n - 1)
    else BottomTotalsRow(h, data, n - 1)
  }

  /** What `parseArmMoment` returns or throws: the totals of the bottom-most
      qualifying row, or zeros when no row qualifies. */
  function ArmMomentOf(h: Host, wb: Workbook): (r: Result<ArmMomentTotals, Fault>)
    ensures r.Failure? <==> ArmMomentSheet !in wb.sheets
    ensures r.Failure? ==> r.error == SheetNotFound(ArmMomentSheet)
  {
    if ArmMomentSheet !in wb.sheets then Failure(SheetNotFound(ArmMomentSheet))
    else
      var data := wb.sheets[ArmMomentSheet].rows;
      match BottomTotalsRow(h, data, |data|)
      case Some(j) => Success(TotalsOf(h, data[j]))
      case None => Success(ArmMomentTotals(0.0, 0.0))
  }

  /** Scan from the last row upwards and stop at the first qualifying row. */
  method ParseArmMoment(h: Host, wb: Workbook) returns (r: Result<ArmMomentTotals, Fault>)
    ensures r == ArmMomentOf(h, wb)
  {
    if ArmMomentSheet !in wb.sheets {
      return Failure(SheetNotFound(ArmMomentSheet));
    }
    var data := wb.sheets[ArmMomentSheet].rows;
    var totalWeight := 0.0;
    var totalMoment := 0.0;
    var i := |data| - 1;
    while i >= 0
      invariant -1 <= i < |data|
      invariant BottomTotalsRow(h, data, |data|) == BottomTotalsRow(h, data, i + 1)
      invariant totalWeight == 0.0 && totalMoment == 0.0
    {
      var row := data[i];
      if IsTotalsRow(h, row) {
        totalWeight := ParseFloat(h, CellAt(row, 3)).value;
        totalMoment := NumberOr(h, CellAt(row, 4), 0.0);
        break;
      }
      i := i - 1;
    }
    return Success(ArmMomentTotals(totalWeight, totalMoment));
  }

  /** The totals come from the bottom-most row whose D cell is a truthy
      number; rows above it are never read, and without such a row both
      totals are 0. */
  lemma ArmMomentTakesBottomTotalsRow(h: Host, wb: Workbook, j: nat)
    requires ArmMomentSheet in wb.sheets
    requires j < |wb.sheets[ArmMomentSheet].rows|
    requires IsTotalsRow(h, wb.sheets[ArmMomentSheet].rows[j])
    requires forall k :: j < k < |wb.sheets[ArmMomentSheet].rows| ==> !IsTotalsRow(h, wb.sheets[ArmMomentSheet].rows[k])
    ensures ArmMomentOf(h, wb) == Success(TotalsOf(h, wb.sheets[ArmMomentSheet].rows[j]))
    ensures ArmMomentOf(h, wb).value.totalWeight == ParseFloat(h, CellAt(wb.sheets[ArmMomentSheet].rows[j], 3)).value
  {
  }

  /** Without a qualifying row both totals are 0. */
  lemma ArmMomentDefaultsToZero(h: Host, wb: Workbook)
    requires ArmMomentSheet in wb.sheets
    requires forall k :: 0 <= k < |wb.sheets[ArmMomentSheet].rows| ==> !IsTotalsRow(h, wb.sheets[ArmMomentSheet].rows[k])
    ensures ArmMomentOf(h, wb) == Success(ArmMomentTotals(0.0, 0.0))
  {
  }
}
