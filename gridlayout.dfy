/** `buildCargoGridLayout`: arrange the position labels in rows of two,
    by aircraft type: the first four in two rows for B737; for B777 the
    main-deck rows, a separator and up to six lower-deck labels; otherwise
    every label. */
module GridLayout {
  import opened Values
  import opened SheetExtractors

  /** A row of position labels, or the `'DECK_SEPARATOR'` marker. */
  datatype GridRow = Cells(ids: seq<string>) | DeckSeparator

  /** How `Array.prototype.slice` reads one bound: a negative bound counts
      from the end, and the result is clamped to `[0, n]`. */
  function SliceBound(n: nat, k: int): (r: nat)
    ensures r <= n
    ensures 0 <= k <= n ==> r == k
    ensures k > n ==> r == n
    ensures k < 0 ==> r == (if n + k < 0 then 0 else n + k)
  {
    if k < 0 then (if n + k < 0 then 0 else n + k)
    else if k > n then n
    else k
  }

  /** `s.slice(start, end)` */
  function Slice<T>(s: seq<T>, start: int, end: int): (r: seq<T>)
    ensures |r| <= |s|
    ensures 0 <= start <= end <= |s| ==> r == s[start..end]
    ensures 0 <= start <= |s| <= end ==> r == s[start..]
    ensures |s| <= start ==> r == []
  {
    var lo := SliceBound(|s|, start);
    var hi := SliceBound(|s|, end);
    if lo < hi then s[lo..hi] else []
  }

  function Min(a: int, b: int): int {
    if a < b then a else b
  }

  /** `positions.map(p => p.position)` */
  function PositionIds(positions: seq<CargoPosition>): (ids: seq<string>)
    ensures |ids| == |positions|
    ensures forall j :: 0 <= j < |ids| ==> ids[j] == positions[j].position
  {
    seq(|positions|, j requires 0 <= j < |positions| => positions[j].position)
  }

  /** The rows `for (i = start; i < stop; i += 2) push(ids.slice(i, i + 2))`
      pushes. */
  function PairRows(ids: seq<string>, start: int, stop: int): seq<GridRow>
    decreases stop - start
  {
    if start >= stop then [] else [Cells(Slice(ids, start, start + 2))] + PairRows(ids, start + 2, stop)
  }

  /** The layout `buildCargoGridLayout` returns. */
  function GridLayoutOf(ids: seq<string>, aircraftType: Cell, mainDeck: int, lowerDeck: int): seq<GridRow> {
    if aircraftType == Str("B737") then
      [Cells(Slice(ids, 0, 2)), Cells(Slice(ids, 2, 4))]
    else if aircraftType == Str("B777") then
      PairRows(ids, 0, Min(6, mainDeck))
      + (if mainDeck > 0 && lowerDeck > 0 then [DeckSeparator] else [])
      + PairRows(ids, mainDeck, Min(mainDeck + 6, |ids|))
    else
      PairRows(ids, 0, |ids|)
  }

  /** One of the source's `for` loops pushing rows of two onto `layout`. */
  method PushPairs(ids: seq<string>, layout: seq<GridRow>, start: int, stop: int) returns (out: seq<GridRow>)
    ensures out == layout + PairRows(ids, start, stop)
  {
    out := layout;
    var i := start;
    while i < stop
      invariant out + PairRows(ids, i, stop) == layout + PairRows(ids, start, stop)
      decreases if i < stop then stop - i else 0
    {
      var row := Cells(Slice(ids, i, i + 2));
      assert out + PairRows(ids, i, stop) == (out + [row]) + PairRows(ids, i + 2, stop);
      out := out + [row];
      i := i + 2;
    }
  }

  method BuildCargoGridLayout(positions: seq<CargoPosition>, aircraftType: Cell,
                              mainDeckPositions: int, lowerDeckPositions: int)
    returns (layout: seq<GridRow>)
    ensures layout == GridLayoutOf(PositionIds(positions), aircraftType, mainDeckPositions, lowerDeckPositions)
  {
    var ids := PositionIds(positions);
    if aircraftType == Str("B737") {
      return [Cells(Slice(ids, 0, 2)), Cells(Slice(ids, 2, 4))];
    }
    if aircraftType == Str("B777") {
      layout := PushPairs(ids, [], 0, Min(6, mainDeckPositions));
      if mainDeckPositions > 0 && lowerDeckPositions > 0 {
        layout := layout + [DeckSeparator];
      }
      var lowerStart := mainDeckPositions;
      layout := PushPairs(ids, layout, lowerStart, Min(lowerStart + 6, |ids|));
      return;
    }
    layout := PushPairs(ids, [], 0, |ids|);
  }

  /** The labels shown, row after row; the separator shows none. */
  function Flatten(rows: seq<GridRow>): seq<string> {
    if rows == [] then []
    else (match rows[0] case Cells(ids) => ids case DeckSeparator => []) + Flatten(rows[1..])
  }

  lemma {:induction false} FlattenAppend(a: seq<GridRow>, b: seq<GridRow>)
    ensures Flatten(a + b) == Flatten(a) + Flatten(b)
  {
    if a == [] {
      assert a + b == b;
    } else {
      assert (a + b)[0] == a[0];
      assert (a + b)[1..] == a[1..] + b;
      FlattenAppend(a[1..], b);
    }
  }

  /** A row of one or two labels. */
  predicate OneOrTwoLabels(row: GridRow) {
    row.Cells? && 1 <= |row.ids| <= 2
  }

  /** The loop pushes one row per two indices of `[start, stop)`. */
  lemma {:induction false} PairRowsCount(ids: seq<string>, start: int, stop: int)
    ensures |PairRows(ids, start, stop)| == (if start >= stop then 0 else (stop - start + 1) / 2)
    decreases stop - start
  {
    if start < stop {
      PairRowsCount(ids, start + 2, stop);
    }
  }

  /** Row `j` of the loop is the slice starting at `start + 2j`. */
  lemma {:induction false} PairRowsAt(ids: seq<string>, start: int, stop: int, j: nat)
    requires j < |PairRows(ids, start, stop)|
    ensures PairRows(ids, start, stop)[j] == Cells(Slice(ids, start + 2 * j, start + 2 * j + 2))
    decreases j
  {
    if j > 0 {
      assert PairRows(ids, start, stop)[j] == PairRows(ids, start + 2, stop)[j - 1];
      PairRowsAt(ids, start + 2, stop, j - 1);
    }
  }

  /** Over a range within the labels, every row holds one or two labels and
      every row but the last holds two. */
  lemma PairRowsShape(ids: seq<string>, start: int, stop: int)
    requires 0 <= start <= stop <= |ids|
    ensures forall j :: 0 <= j < |PairRows(ids, start, stop)| ==> OneOrTwoLabels(PairRows(ids, start, stop)[j])
    ensures forall j :: 0 <= j < |PairRows(ids, start, stop)| - 1 ==>
              PairRows(ids, start, stop)[j].Cells? && |PairRows(ids, start, stop)[j].ids| == 2
  {
    var rows := PairRows(ids, start, stop);
    PairRowsCount(ids, start, stop);
    forall j | 0 <= j < |rows|
      ensures OneOrTwoLabels(rows[j])
      ensures j < |rows| - 1 ==> rows[j].Cells? && |rows[j].ids| == 2
    {
      PairRowsAt(ids, start, stop, j);
    }
  }

  /** Rows of two over `[start, stop)` show exactly the labels `ids[start..stop]`
      when the range splits into whole pairs or runs to the end; every row
      holds one or two labels. */
  lemma {:induction false} PairRowsShowRange(ids: seq<string>, start: int, stop: int)
    decreases stop - start
    requires 0 <= start <= stop <= |ids|
    requires (stop - start) % 2 == 0 || stop == |ids|
    ensures Flatten(PairRows(ids, start, stop)) == ids[start..stop]
    ensures forall j :: 0 <= j < |PairRows(ids, start, stop)| ==> OneOrTwoLabels(PairRows(ids, start, stop)[j])
  {
    if start < stop {
      var rows := PairRows(ids, start, stop);
      if start + 2 <= stop {
        PairRowsShowRange(ids, start + 2, stop);
        assert Slice(ids, start, start + 2) == ids[start..start + 2];
        assert rows[1..] == PairRows(ids, start + 2, stop);
        assert ids[start..stop] == ids[start..start + 2] + ids[start + 2..stop];
      } else {
        assert stop == |ids| && start + 1 == stop;
        assert Slice(ids, start, start + 2) == ids[start..];
        assert PairRows(ids, start + 2, stop) == [];
        assert rows == [Cells(ids[start..])];
      }
    }
    PairRowsShape(ids, start, stop);
  }

  /** The default layout shows every label once, in order, in
      `ceil(n / 2)` rows of two, of which only the last may hold one. */
  lemma DefaultLayoutShowsEveryPosition(ids: seq<string>, aircraftType: Cell, mainDeck: int, lowerDeck: int)
    requires aircraftType != Str("B737") && aircraftType != Str("B777")
    ensures var layout := GridLayoutOf(ids, aircraftType, mainDeck, lowerDeck);
            && Flatten(layout) == ids
            && |layout| == (|ids| + 1) / 2
            && (forall j :: 0 <= j < |layout| ==> OneOrTwoLabels(layout[j]))
            && (forall j :: 0 <= j < |layout| - 1 ==> |layout[j].ids| == 2)
  {
    PairRowsShowRange(ids, 0, |ids|);
    PairRowsShape(ids, 0, |ids|);
    PairRowsCount(ids, 0, |ids|);
  }

  /** The labels of a single row. */
  lemma FlattenSingle(row: GridRow)
    ensures Flatten([row]) == (if row.Cells? then row.ids else [])
  {
    assert [row][1..] == [];
  }

  /** The B737 layout is two rows and shows only the first four labels. */
  lemma B737ShowsFirstFour(ids: seq<string>, mainDeck: int, lowerDeck: int)
    ensures var layout := GridLayoutOf(ids, Str("B737"), mainDeck, lowerDeck);
            |layout| == 2 && Flatten(layout) == ids[..Min(4, |ids|)]
  {
    var first := Cells(Slice(ids, 0, 2));
    var second := Cells(Slice(ids, 2, 4));
    assert GridLayoutOf(ids, Str("B737"), mainDeck, lowerDeck) == [first] + [second];
    FlattenAppend([first], [second]);
    FlattenSingle(first);
    FlattenSingle(second);
    if |ids| >= 4 {
      assert ids[..4] == ids[..2] + ids[2..4];
    } else if |ids| >= 2 {
      assert ids[..|ids|] == ids[..2] + ids[2..];
    } else {
      assert ids[..|ids|] == ids;
    }
  }

  /** Rows of two never hold the separator. */
  lemma {:induction false} NoSeparatorInPairRows(ids: seq<string>, start: int, stop: int)
    decreases stop - start
    ensures DeckSeparator !in PairRows(ids, start, stop)
  {
    if start < stop {
      NoSeparatorInPairRows(ids, start + 2, stop);
    }
  }

  /** The B777 layout holds the separator exactly when both deck counts are
      positive. */
  lemma B777SeparatorIffBothDecks(ids: seq<string>, mainDeck: int, lowerDeck: int)
    ensures DeckSeparator in GridLayoutOf(ids, Str("B777"), mainDeck, lowerDeck) <==> mainDeck > 0 && lowerDeck > 0
  {
    NoSeparatorInPairRows(ids, 0, Min(6, mainDeck));
    NoSeparatorInPairRows(ids, mainDeck, Min(mainDeck + 6, |ids|));
  }

  lemma FlattenThree(a: seq<GridRow>, b: seq<GridRow>, c: seq<GridRow>)
    ensures Flatten(a + b + c) == Flatten(a) + Flatten(b) + Flatten(c)
  {
    FlattenAppend(a, b);
    FlattenAppend(a + b, c);
  }

  /** The main-deck rows of an even count show the first labels. */
  lemma MainRowsShowFirstLabels(ids: seq<string>, mainDeck: int)
    requires 0 <= mainDeck <= 6 && mainDeck % 2 == 0 && mainDeck <= |ids|
    ensures Flatten(PairRows(ids, 0, mainDeck)) == ids[..mainDeck]
  {
    PairRowsShowRange(ids, 0, mainDeck);
  }

  /** The lower-deck rows show up to six labels after the main-deck ones. */
  lemma LowerRowsShowNextLabels(ids: seq<string>, mainDeck: int)
    requires 0 <= mainDeck <= |ids|
    ensures Flatten(PairRows(ids, mainDeck, Min(mainDeck + 6, |ids|))) == ids[mainDeck..Min(mainDeck + 6, |ids|)]
  {
    var end := Min(mainDeck + 6, |ids|);
    if mainDeck + 6 <= |ids| {
      assert end - mainDeck == 6;
    } else {
      assert end == |ids|;
    }
    PairRowsShowRange(ids, mainDeck, end);
  }

  /** For an even main-deck count of at most six labels, the B777 layout
      shows the main-deck labels and then up to six further labels, each
      once and in order. */
  lemma B777ShowsMainThenLower(ids: seq<string>, mainDeck: int, lowerDeck: int)
    requires 0 <= mainDeck <= 6 && mainDeck % 2 == 0
    ensures Flatten(GridLayoutOf(ids, Str("B777"), mainDeck, lowerDeck)) == ids[..Min(mainDeck + 6, |ids|)]
  {
    if |ids| < mainDeck {
      FewerLabelsThanMainDeck(ids, mainDeck, lowerDeck);
      return;
    }
    var main := PairRows(ids, 0, mainDeck);
    var sep: seq<GridRow> := if mainDeck > 0 && lowerDeck > 0 then [DeckSeparator] else [];
    var end := Min(mainDeck + 6, |ids|);
    var lower := PairRows(ids, mainDeck, end);
    assert Min(6, mainDeck) == mainDeck;
    assert GridLayoutOf(ids, Str("B777"), mainDeck, lowerDeck) == main + sep + lower;
    FlattenThree(main, sep, lower);
    assert Flatten(sep) == [] by {
      FlattenSingle(DeckSeparator);
    }
    MainRowsShowFirstLabels(ids, mainDeck);
    LowerRowsShowNextLabels(ids, mainDeck);
    SplitAt(ids, mainDeck, end);
  }

  /** Rows whose slices start at or past the last label show nothing. */
  lemma {:induction false} PairRowsPastEnd(ids: seq<string>, start: int, stop: int)
    requires start >= |ids|
    ensures Flatten(PairRows(ids, start, stop)) == []
    decreases stop - start
  {
    if start < stop {
      var rows := PairRows(ids, start, stop);
      assert Slice(ids, start, start + 2) == [];
      PairRowsPastEnd(ids, start + 2, stop);
      assert rows == [Cells([])] + PairRows(ids, start + 2, stop);
      FlattenAppend([Cells([])], PairRows(ids, start + 2, stop));
      FlattenSingle(Cells([]));
    }
  }

  /** A range that runs past the last label shows the labels from `start`
      to the end. */
  lemma {:induction false} PairRowsBeyondEnd(ids: seq<string>, start: int, stop: int)
    requires 0 <= start <= |ids| <= stop
    ensures Flatten(PairRows(ids, start, stop)) == ids[start..]
    decreases stop - start
  {
    if start == |ids| {
      PairRowsPastEnd(ids, start, stop);
    } else {
      var rows := PairRows(ids, start, stop);
      var row := Cells(Slice(ids, start, start + 2));
      assert rows == [row] + PairRows(ids, start + 2, stop);
      FlattenAppend([row], PairRows(ids, start + 2, stop));
      FlattenSingle(row);
      if start + 2 <= |ids| {
        assert Slice(ids, start, start + 2) == ids[start..start + 2];
        PairRowsBeyondEnd(ids, start + 2, stop);
        assert ids[start..] == ids[start..start + 2] + ids[start + 2..];
      } else {
        assert Slice(ids, start, start + 2) == ids[start..];
        PairRowsPastEnd(ids, start + 2, stop);
      }
    }
  }

  /** With fewer labels than an even main-deck count, the B777 main-deck
      rows show every label, the trailing rows are empty, and no lower-deck
      row is pushed. */
  lemma FewerLabelsThanMainDeck(ids: seq<string>, mainDeck: int, lowerDeck: int)
    requires 0 <= mainDeck <= 6 && |ids| < mainDeck
    ensures Flatten(GridLayoutOf(ids, Str("B777"), mainDeck, lowerDeck)) == ids
  {
    var main := PairRows(ids, 0, mainDeck);
    var sep: seq<GridRow> := if lowerDeck > 0 then [DeckSeparator] else [];
    assert Min(6, mainDeck) == mainDeck && Min(mainDeck + 6, |ids|) == |ids|;
    assert PairRows(ids, mainDeck, |ids|) == [];
    assert GridLayoutOf(ids, Str("B777"), mainDeck, lowerDeck) == main + sep + [];
    FlattenThree(main, sep, []);
    assert Flatten(sep) == [] by {
      FlattenSingle(DeckSeparator);
    }
    assert Flatten([]) == [];
    PairRowsBeyondEnd(ids, 0, mainDeck);
    assert ids[0..] == ids;
  }

  /** With four labels and counts 6 and 6, the third main-deck row is
      `slice(4, 6)`, an empty row. */
  lemma FewLabelsLeaveEmptyRow(ids: seq<string>)
    requires |ids| == 4
    ensures GridLayoutOf(ids, Str("B777"), 6, 6)[2] == Cells([])
  {
    assert Slice(ids, 4, 6) == [];
  }

  lemma SplitAt(ids: seq<string>, mid: int, end: int)
    requires 0 <= mid <= end <= |ids|
    ensures ids[..end] == ids[..mid] + ids[mid..end]
  {
  }

  /** The B777 row count: one row per two indices of `[0, min(6, main))`,
      the separator when both counts are positive, and one row per two
      indices of `[main, min(main + 6, n))`; the lower-deck count only
      decides the separator. */
  lemma B777RowCount(ids: seq<string>, mainDeck: int, lowerDeck: int)
    ensures var mainEnd := Min(6, mainDeck);
            var lowerEnd := Min(mainDeck + 6, |ids|);
            |GridLayoutOf(ids, Str("B777"), mainDeck, lowerDeck)| ==
              (if mainEnd <= 0 then 0 else (mainEnd + 1) / 2)
              + (if mainDeck > 0 && lowerDeck > 0 then 1 else 0)
              + (if lowerEnd <= mainDeck then 0 else (lowerEnd - mainDeck + 1) / 2)
  {
    PairRowsCount(ids, 0, Min(6, mainDeck));
    PairRowsCount(ids, mainDeck, Min(mainDeck + 6, |ids|));
  }

  /** The lower-deck rows depend on the number of labels, not on the
      lower-deck count: any positive count gives the same layout. */
  lemma LowerRowsIgnoreLowerDeckCount(ids: seq<string>, mainDeck: int, lower1: int, lower2: int)
    requires lower1 > 0 && lower2 > 0
    ensures GridLayoutOf(ids, Str("B777"), mainDeck, lower1) == GridLayoutOf(ids, Str("B777"), mainDeck, lower2)
  {
  }

  /** With a lower-deck count of 0 the lower-deck labels are still shown;
      only the separator goes. */
  lemma ZeroLowerDeckStillShowsLowerRows(ids: seq<string>)
    requires |ids| == 12
    ensures var layout := GridLayoutOf(ids, Str("B777"), 6, 0);
            |layout| == 6 && DeckSeparator !in layout && Flatten(layout) == ids
  {
    B777ShowsMainThenLower(ids, 6, 0);
    B777SeparatorIffBothDecks(ids, 6, 0);
    PairRowsCount(ids, 0, 6);
    PairRowsCount(ids, 6, 12);
  }

  /** A main-deck count of 5 shows the label at index 5 twice: as the
      second label of the last main-deck row and the first lower-deck one.
      The same holds for 1 and 3 when there are more labels than that. */
  lemma OddMainDeckRepeatsLabel(ids: seq<string>)
    requires |ids| == 12
    ensures var layout := GridLayoutOf(ids, Str("B777"), 5, 6);
            && layout[2] == Cells([ids[4], ids[5]])
            && layout[3] == DeckSeparator
            && layout[4] == Cells([ids[5], ids[6]])
  {
    assert Slice(ids, 4, 6) == [ids[4], ids[5]];
    assert Slice(ids, 5, 7) == [ids[5], ids[6]];
  }

  /** A main-deck count above six skips labels: the main-deck rows stop at
      index 6 and the lower-deck rows start at the count, so with a count
      of 7 the label at index 6 is not shown. */
  lemma MainBeyondSixSkipsLabels(ids: seq<string>, lowerDeck: int)
    requires |ids| == 14
    ensures Flatten(GridLayoutOf(ids, Str("B777"), 7, lowerDeck)) == ids[..6] + ids[7..13]
    ensures (forall i, j :: 0 <= i < j < |ids| ==> ids[i] != ids[j]) ==>
              ids[6] !in Flatten(GridLayoutOf(ids, Str("B777"), 7, lowerDeck))
  {
    var main := PairRows(ids, 0, 6);
    var sep: seq<GridRow> := if lowerDeck > 0 then [DeckSeparator] else [];
    var lower := PairRows(ids, 7, 13);
    assert GridLayoutOf(ids, Str("B777"), 7, lowerDeck) == main + sep + lower;
    FlattenThree(main, sep, lower);
    assert Flatten(sep) == [] by {
      FlattenSingle(DeckSeparator);
    }
    PairRowsShowRange(ids, 0, 6);
    PairRowsShowRange(ids, 7, 13);
    var shown := ids[..6] + ids[7..13];
    if forall i, j :: 0 <= i < j < |ids| ==> ids[i] != ids[j] {
      forall k | 0 <= k < |shown| ensures shown[k] != ids[6] {
        if k < 6 {
          assert shown[k] == ids[k];
        } else {
          assert shown[k] == ids[k + 1];
        }
      }
    }
  }
}
