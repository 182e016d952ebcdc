/** `calculateSummaryStats`: deck weights by the ULD type's deck, the number
    of positions the visual layout marks OVERLOAD, and payload use. */
module SummaryStats {
  import opened Values
  import opened AircraftModels
  import opened SheetExtractors
  import opened ExcelParser

  datatype Summary = Summary(
    totalULDs: nat,
    mainDeckWeight: real,
    lowerDeckWeight: real,
    overloadCount: nat,
    utilizationPercent: real)

  /** The deck the master table gives a position's ULD type, if any. */
  function DeckOf(p: CargoPosition, specs: map<string, UldSpec>): Option<string> {
    if p.uldType in specs then Some(specs[p.uldType].deck) else None
  }

  /** The summed weight of the positions whose ULD type sits on `deck`. */
  function DeckWeight(ps: seq<CargoPosition>, specs: map<string, UldSpec>, deck: string): real {
    if ps == [] then 0.0
    else
      var p := ps[|ps| - 1];
      DeckWeight(ps[..|ps| - 1], specs, deck) + (if DeckOf(p, specs) == Some(deck) then p.weight else 0.0)
  }

  /** The summed weight of all positions. */
  function TotalWeight(ps: seq<CargoPosition>): real {
    if ps == [] then 0.0 else TotalWeight(ps[..|ps| - 1]) + ps[|ps| - 1].weight
  }

  /** `status && status.status === 'OVERLOAD'` */
  predicate Overloaded(p: CargoPosition, statuses: map<string, PositionStatus>) {
    p.position in statuses && statuses[p.position].status == "OVERLOAD"
  }

  /** The indices of the positions the visual layout marks OVERLOAD. */
  ghost function OverloadedIndices(ps: seq<CargoPosition>, statuses: map<string, PositionStatus>): set<int> {
    set j | 0 <= j < |ps| && Overloaded(ps[j], statuses)
  }

  /** The number of positions the visual layout marks OVERLOAD; none is
      counted exactly when no position is so marked. */
  function OverloadCount(ps: seq<CargoPosition>, statuses: map<string, PositionStatus>): (r: nat)
    ensures r == |OverloadedIndices(ps, statuses)|
    ensures r <= |ps|
    ensures r == 0 <==> forall j :: 0 <= j < |ps| ==> !Overloaded(ps[j], statuses)
  {
    if ps == [] then 0
    else
      var p := ps[|ps| - 1];
      OverloadedIndicesExtend(ps, statuses);
      OverloadCount(ps[..|ps| - 1], statuses) + (if Overloaded(p, statuses) then 1 else 0)
  }

  /** The overloaded indices of `ps` are those of `ps` without its last
      position, plus that position's index when it is overloaded. */
  lemma OverloadedIndicesExtend(ps: seq<CargoPosition>, statuses: map<string, PositionStatus>)
    requires ps != []
    ensures var n := |ps| - 1;
            var before := OverloadedIndices(ps[..n], statuses);
            && n !in before
            && OverloadedIndices(ps, statuses) == before + (if Overloaded(ps[n], statuses) then {n} else {})
            && |OverloadedIndices(ps, statuses)| == |before| + (if Overloaded(ps[n], statuses) then 1 else 0)
  {
    var n := |ps| - 1;
    var init := ps[..n];
    var before := OverloadedIndices(init, statuses);
    var after := OverloadedIndices(ps, statuses);
    var last: set<int> := if Overloaded(ps[n], statuses) then {n} else {};
    forall x | x in after ensures x in before + last {
      if x < n {
        assert init[x] == ps[x];
      }
    }
    forall x | x in before + last ensures x in after {
      if x in before {
        assert init[x] == ps[x];
      }
    }
    assert after == before + last;
  }

  /** The used share of the payload in percent; 0 without a positive
      payload limit. */
  function Utilization(used: real, maxPayload: real): (r: real)
    ensures maxPayload <= 0.0 ==> r == 0.0
    ensures maxPayload > 0.0 ==> r * maxPayload == used * 100.0
    ensures maxPayload > 0.0 && 0.0 <= used <= maxPayload ==> 0.0 <= r <= 100.0
  {
    if maxPayload > 0.0 then
      ShareBounds(used, maxPayload);
      used / maxPayload * 100.0
    else 0.0
  }

  /** The share of a positive limit: it scales back to the amount, and lies
      in [0, 1] when the amount does not exceed the limit. */
  lemma ShareBounds(used: real, maxPayload: real)
    requires maxPayload > 0.0
    ensures used / maxPayload * maxPayload == used
    ensures 0.0 <= used ==> 0.0 <= used / maxPayload
    ensures used <= maxPayload ==> used / maxPayload <= 1.0
  {
    var share := used / maxPayload;
    assert (share - 1.0) * maxPayload == used - maxPayload;
  }

  /** What `calculateSummaryStats` returns for a plan. */
  function SummaryOf(plan: LoadPlan): Summary {
    var ps := plan.cargoPositions;
    var main := DeckWeight(ps, plan.uldSpecs, "Main");
    var lower := DeckWeight(ps, plan.uldSpecs, "Lower");
    Summary(|ps|, main, lower, OverloadCount(ps, plan.visualStatus),
            Utilization(main + lower, plan.aircraftParams.maxPayload))
  }

  method CalculateSummaryStats(plan: LoadPlan) returns (s: Summary)
    ensures s == SummaryOf(plan)
  {
    var ps := plan.cargoPositions;
    var mainDeckWeight := 0.0;
    var lowerDeckWeight := 0.0;
    var overloadCount := 0;
    for i := 0 to |ps|
      invariant mainDeckWeight == DeckWeight(ps[..i], plan.uldSpecs, "Main")
      invariant lowerDeckWeight == DeckWeight(ps[..i], plan.uldSpecs, "Lower")
      invariant overloadCount == OverloadCount(ps[..i], plan.visualStatus)
    {
      var cargo := ps[i];
      assert ps[..i + 1][..i] == ps[..i];
      if cargo.uldType in plan.uldSpecs {
        var spec := plan.uldSpecs[cargo.uldType];
        if spec.deck == "Main" {
          mainDeckWeight := mainDeckWeight + cargo.weight;
        } else if spec.deck == "Lower" {
          lowerDeckWeight := lowerDeckWeight + cargo.weight;
        }
      }
      if cargo.position in plan.visualStatus && plan.visualStatus[cargo.position].status == "OVERLOAD" {
        overloadCount := overloadCount + 1;
      }
    }
    assert ps[..|ps|] == ps;
    var utilization := if plan.aircraftParams.maxPayload > 0.0
                       then (mainDeckWeight + lowerDeckWeight) / plan.aircraftParams.maxPayload * 100.0
                       else 0.0;
    s := Summary(|ps|, mainDeckWeight, lowerDeckWeight, overloadCount, utilization);
  }

  /** Each position's type is in the master table with deck Main or Lower. */
  predicate AllOnKnownDecks(ps: seq<CargoPosition>, specs: map<string, UldSpec>) {
    forall j :: 0 <= j < |ps| ==> DeckOf(ps[j], specs) in {Some("Main"), Some("Lower")}
  }

  /** When every ULD type is on a known deck, the two deck weights add up to
      the total weight. */
  lemma {:induction false} DecksPartitionWeight(ps: seq<CargoPosition>, specs: map<string, UldSpec>)
    requires AllOnKnownDecks(ps, specs)
    ensures DeckWeight(ps, specs, "Main") + DeckWeight(ps, specs, "Lower") == TotalWeight(ps)
  {
    if ps != [] {
      var init := ps[..|ps| - 1];
      assert forall j :: 0 <= j < |init| ==> init[j] == ps[j];
      DecksPartitionWeight(init, specs);
      assert DeckOf(ps[|ps| - 1], specs) in {Some("Main"), Some("Lower")};
    }
  }

  /** With no negative weight, a deck weight lies between 0 and the total. */
  lemma {:induction false} DeckWeightBounded(ps: seq<CargoPosition>, specs: map<string, UldSpec>, deck: string)
    requires forall j :: 0 <= j < |ps| ==> ps[j].weight >= 0.0
    ensures 0.0 <= DeckWeight(ps, specs, deck) <= TotalWeight(ps)
  {
    if ps != [] {
      var init := ps[..|ps| - 1];
      assert forall j :: 0 <= j < |init| ==> init[j] == ps[j];
      DeckWeightBounded(init, specs, deck);
    }
  }

  /** With no negative weight, the two deck weights together never exceed
      the total weight. */
  lemma {:induction false} DeckSumWithinTotal(ps: seq<CargoPosition>, specs: map<string, UldSpec>)
    requires forall j :: 0 <= j < |ps| ==> ps[j].weight >= 0.0
    ensures DeckWeight(ps, specs, "Main") + DeckWeight(ps, specs, "Lower") <= TotalWeight(ps)
  {
    if ps != [] {
      var init := ps[..|ps| - 1];
      assert forall j :: 0 <= j < |init| ==> init[j] == ps[j];
      DeckSumWithinTotal(init, specs);
    }
  }

  /** A ULD type the master table does not list adds weight to no deck. */
  lemma UnlistedTypeAddsNoWeight(ps: seq<CargoPosition>, specs: map<string, UldSpec>, p: CargoPosition, deck: string)
    requires p.uldType !in specs
    ensures DeckWeight(ps + [p], specs, deck) == DeckWeight(ps, specs, deck)
  {
    assert (ps + [p])[..|ps|] == ps;
  }

  /** The summary's count is the number of positions, the overload count
      never exceeds it, and the utilisation is the deck weights' share of the
      payload limit in percent, or 0 without a positive limit. */
  lemma SummaryBounds(plan: LoadPlan)
    ensures SummaryOf(plan).totalULDs == |plan.cargoPositions|
    ensures SummaryOf(plan).overloadCount <= SummaryOf(plan).totalULDs
    ensures plan.aircraftParams.maxPayload <= 0.0 ==> SummaryOf(plan).utilizationPercent == 0.0
    ensures plan.aircraftParams.maxPayload > 0.0 ==>
              SummaryOf(plan).utilizationPercent * plan.aircraftParams.maxPayload ==
                (SummaryOf(plan).mainDeckWeight + SummaryOf(plan).lowerDeckWeight) * 100.0
  {
  }

  /** Two positions, a 1000 kg ULD-A on the main deck and a 500 kg ULD-B
      on the lower deck, with B1 marked OVERLOAD, on a 20000 kg payload:
      7.5 percent used. */
  lemma SummaryExample(plan: LoadPlan)
    requires plan.cargoPositions == [CargoPosition("A1", "ULD-A", 1000.0, "LAX"),
                                     CargoPosition("B1", "ULD-B", 500.0, "LAX")]
    requires plan.uldSpecs == map["ULD-A" := UldSpec(1200.0, "Main", ""),
                                  "ULD-B" := UldSpec(600.0, "Lower", "")]
    requires plan.visualStatus == map["B1" := PositionStatus("OVERLOAD", 500.0, 400.0, 1.25)]
    requires plan.aircraftParams.maxPayload == 20000.0
    ensures SummaryOf(plan) == Summary(2, 1000.0, 500.0, 1, 7.5)
  {
    var ps := plan.cargoPositions;
    var specs := plan.uldSpecs;
    assert ps[..1] == [ps[0]];
    assert [ps[0]][..0] == [];
    assert DeckOf(ps[0], specs) == Some("Main") && DeckOf(ps[1], specs) == Some("Lower");
    assert DeckWeight(ps[..1], specs, "Main") == 1000.0;
    assert DeckWeight(ps[..1], specs, "Lower") == 0.0;
    assert OverloadCount(ps[..1], plan.visualStatus) == 0;
    assert Overloaded(ps[1], plan.visualStatus);
    assert Utilization(1500.0, 20000.0) == 7.5;
  }
}
