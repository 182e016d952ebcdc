/** The CG & BALANCE DECISION ENGINE extractor (`parseCGBalance`): fixed
    cell references, fallbacks to the resolved aircraft profile, and the
    safety flag derived by text containment. */
module CgBalance {
  import opened Values
  import opened Workbooks
  import opened JsText
  import opened AircraftModels

  const CgSheet := "CG & BALANCE DECISION ENGINE"

  /** The two texts whose presence in the overall verdict makes it safe. */
  const SafeMark := "✓ SAFE"
  const SafeForFlight := "SAFE FOR FLIGHT"

  datatype CgAnalysis = CgAnalysis(
    aircraftType: Cell,
    forwardLimit: real,
    aftLimit: real,
    totalWeight: real,
    totalMoment: real,
    computedCG: real,
    cgStatus: Cell,
    overallSafetyStatus: string,
    isSafe: bool)

  /** `overallStatus.includes('✓ SAFE') || overallStatus.includes('SAFE FOR FLIGHT')` */
  predicate SafeVerdict(verdict: string) {
    Includes(verdict, SafeMark) || Includes(verdict, SafeForFlight)
  }

  /** The overall verdict cell B21 with its "UNKNOWN" fallback; a number
      there has no `includes` method, so the extractor throws. */
  function Verdict(sheet: Sheet): (r: Result<string, Fault>)
    ensures !Truthy(GetCellValue(sheet, "B21")) ==> r == Success("UNKNOWN")
    ensures GetCellValue(sheet, "B21").Str? && Truthy(GetCellValue(sheet, "B21")) ==>
              r == Success(GetCellValue(sheet, "B21").s)
    ensures r.Failure? <==> GetCellValue(sheet, "B21").Num? && Truthy(GetCellValue(sheet, "B21"))
  {
    match Or(GetCellValue(sheet, "B21"), Str("UNKNOWN"))
    case Str(s) => Success(s)
    case _ => Failure(VerdictNotText)
  }

  /** What `parseCGBalance` returns or throws. */
  function CgBalanceOf(h: Host, wb: Workbook, params: AircraftConfig): (r: Result<CgAnalysis, Fault>)
    ensures CgSheet !in wb.sheets ==> r == Failure(SheetNotFound(CgSheet))
  {
    if CgSheet !in wb.sheets then Failure(SheetNotFound(CgSheet))
    else
      var sheet := wb.sheets[CgSheet];
      var overall :- Verdict(sheet);
      Success(CgAnalysis(
        Or(GetCellValue(sheet, "B4"), params.aircraftType),
        NumberOr(h, GetCellValue(sheet, "B7"), params.cgForward),
        NumberOr(h, GetCellValue(sheet, "B8"), params.cgAft),
        NumberOr(h, GetCellValue(sheet, "B12"), 0.0),
        NumberOr(h, GetCellValue(sheet, "B13"), 0.0),
        NumberOr(h, GetCellValue(sheet, "B15"), 0.0),
        Or(GetCellValue(sheet, "B19"), Str("UNKNOWN")),
        overall,
        SafeVerdict(overall)))
  }

  /** The limits are the sheet's B7/B8 when those parse to non-zero
      numbers; when they are blank, zero or unparsable, they are the
      resolved profile's. */
  lemma LimitsFallBackToProfile(h: Host, wb: Workbook, params: AircraftConfig)
    requires CgBalanceOf(h, wb, params).Success?
    ensures var sheet := wb.sheets[CgSheet];
            var cg := CgBalanceOf(h, wb, params).value;
            && (ParseFloat(h, GetCellValue(sheet, "B7")) in {None, Some(0.0)} ==> cg.forwardLimit == params.cgForward)
            && (ParseFloat(h, GetCellValue(sheet, "B8")) in {None, Some(0.0)} ==> cg.aftLimit == params.cgAft)
            && (ParseFloat(h, GetCellValue(sheet, "B7")).Some? && ParseFloat(h, GetCellValue(sheet, "B7")).value != 0.0 ==>
                  cg.forwardLimit == ParseFloat(h, GetCellValue(sheet, "B7")).value)
            && (ParseFloat(h, GetCellValue(sheet, "B8")).Some? && ParseFloat(h, GetCellValue(sheet, "B8")).value != 0.0 ==>
                  cg.aftLimit == ParseFloat(h, GetCellValue(sheet, "B8")).value)
  {
  }

  /** The flag is set exactly when one of the two safe markers occurs at
      some index of the verdict text. */
  lemma {:induction false} SafeFlagIffMarker(h: Host, wb: Workbook, params: AircraftConfig)
    requires CgBalanceOf(h, wb, params).Success?
    ensures var cg := CgBalanceOf(h, wb, params).value;
            cg.isSafe <==> exists i: nat :: OccursAt(cg.overallSafetyStatus, SafeMark, i)
                                           || OccursAt(cg.overallSafetyStatus, SafeForFlight, i)
  {
    var cg := CgBalanceOf(h, wb, params).value;
    IncludesIffOccurs(cg.overallSafetyStatus, SafeMark);
    IncludesIffOccurs(cg.overallSafetyStatus, SafeForFlight);
  }

  /** A blank B21 reads "UNKNOWN", which is not safe. */
  lemma BlankVerdictIsUnsafe(h: Host, wb: Workbook, params: AircraftConfig)
    requires CgSheet in wb.sheets
    requires !Truthy(GetCellValue(wb.sheets[CgSheet], "B21"))
    ensures CgBalanceOf(h, wb, params).Success?
    ensures CgBalanceOf(h, wb, params).value.overallSafetyStatus == "UNKNOWN"
    ensures !CgBalanceOf(h, wb, params).value.isSafe
  {
    AbsentWhenColumnDiffers("UNKNOWN", SafeMark, 0);
    AbsentWhenColumnDiffers("UNKNOWN", SafeForFlight, 0);
  }

  /** The verdict the sheet writes when the load is safe sets the flag. */
  lemma SafeExample()
    ensures SafeVerdict("✓ SAFE FOR FLIGHT")
  {
    IncludesItself(SafeMark);
    IncludesWithin("", SafeMark, " FOR FLIGHT", SafeMark);
    assert "" + SafeMark + " FOR FLIGHT" == "✓ SAFE FOR FLIGHT";
  }

  /** The verdict the sheet writes when the load must be redistributed does
      not set the flag. */
  lemma UnsafeExample()
    ensures !SafeVerdict("UNSAFE - REDISTRIBUTE")
  {
    NoCheckMarkInUnsafe();
    NoSafeForFlightInUnsafe();
  }

  lemma NoCheckMarkInUnsafe()
    ensures !Includes("UNSAFE - REDISTRIBUTE", "✓ SAFE")
  {
    var v := "UNSAFE - REDISTRIBUTE";
    assert '✓' !in v;
    forall i: nat ensures ColumnDiffers(v, "✓ SAFE", 0, i) {
      if i < |v| { assert v[i] in v; }
    }
    AbsentWhenColumnDiffers(v, "✓ SAFE", 0);
  }

  lemma NoSafeForFlightInUnsafe()
    ensures !Includes("UNSAFE - REDISTRIBUTE", "SAFE FOR FLIGHT")
  {
    var v := "UNSAFE - REDISTRIBUTE";
    var middle := v[5..12];
    assert middle == "E - RED";
    forall i: nat ensures ColumnDiffers(v, "SAFE FOR FLIGHT", 5, i) {
      if i + 15 <= |v| { assert v[i + 5] == middle[i]; }
    }
    AbsentWhenColumnDiffers(v, "SAFE FOR FLIGHT", 5);
  }

  /** Containment is not understanding: a negated verdict still sets the flag. */
  lemma NegatedVerdictReadsSafe()
    ensures SafeVerdict("NOT SAFE FOR FLIGHT")
  {
    IncludesItself(SafeForFlight);
    IncludesWithin("NOT ", SafeForFlight, "", SafeForFlight);
    assert "NOT " + SafeForFlight + "" == "NOT SAFE FOR FLIGHT";
  }
}
