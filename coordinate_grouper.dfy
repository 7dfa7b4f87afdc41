/** The coordinate grouper of `ExcelProcessor` (`groupByCoordinates`): rows
    whose keys agree are merged into one group, in first-seen order. */
module CoordinateGrouper {
  import opened Text
  import opened ExcelRows
  import opened AddressNumber

  /** How many leading characters of each coordinate take part in the key
      (`latitudePrecision`, `longitudePrecision`). */
  datatype Precision = Precision(latitude: int, longitude: int)

  /** Both precisions default to 7. */
  const DefaultPrecision := Precision(7, 7)

  // ---------------------------------------------------------------------
  // Coordinate grouper
  // ---------------------------------------------------------------------

  /** `${latitudeKey}_${longitudeKey}_${addressNumber}`. */
  function GroupKey(row: ExcelRow, p: Precision): string
  {
    Substring0(row.latitude, p.latitude) + "_" + Substring0(row.longitude, p.longitude)
    + "_" + ExtractAddressNumber(row.destinationAddress)
  }

  /** The group key of every row, in input order. */
  function Keys(data: seq<ExcelRow>, p: Precision): (ks: seq<string>)
    ensures |ks| == |data|
    ensures forall i :: 0 <= i < |data| ==> ks[i] == GroupKey(data[i], p)
  {
    seq(|data|, i requires 0 <= i < |data| => GroupKey(data[i], p))
  }

  predicate NoDuplicates(ks: seq<string>)
  {
    forall i, j :: 0 <= i < j < |ks| ==> ks[i] != ks[j]
  }

  /** Each distinct key once, in the order it is first seen. */
  function Distinct(ks: seq<string>): (d: seq<string>)
    ensures forall k :: k in d <==> k in ks
    ensures NoDuplicates(d)
    ensures |d| <= |ks|
  {
    if ks == [] then []
    else
      var d := Distinct(ks[..|ks| - 1]);
      var last := ks[|ks| - 1];
      assert forall k :: k in ks <==> k in ks[..|ks| - 1] || k == last by {
        assert ks == ks[..|ks| - 1] + [last];
      }
      if last in d then d else d + [last]
  }

  /** The position where `k` first occurs in `ks`. */
  function FirstIndex(ks: seq<string>, k: string): (i: nat)
    requires k in ks
    ensures i < |ks| && ks[i] == k && k !in ks[..i]
  {
    if ks[0] == k then 0 else 1 + FirstIndex(ks[1..], k)
  }

  /** The rows of `data` whose key (the matching entry of `ks`) is `k`, in
      input order. */
  function RowsWithKey(data: seq<ExcelRow>, ks: seq<string>, k: string): (rows: seq<ExcelRow>)
    requires |ks| == |data|
    ensures |rows| <= |data|
    ensures rows != [] <==> k in ks
  {
    if data == [] then []
    else
      var n := |data| - 1;
      assert ks == ks[..n] + [ks[n]];
      RowsWithKey(data[..n], ks[..n], k) + (if ks[n] == k then [data[n]] else [])
  }

  function Sequences(rows: seq<ExcelRow>): (s: seq<string>)
    ensures |s| == |rows| && forall i :: 0 <= i < |rows| ==> s[i] == rows[i].sequence
  {
    seq(|rows|, i requires 0 <= i < |rows| => rows[i].sequence)
  }

  /** One group: the first row's fields, with the sequences of all its rows
      joined by "; ". */
  function Merge(rows: seq<ExcelRow>): GroupedData
    requires rows != []
  {
    rows[0].(sequence := Join(Sequences(rows), "; "))
  }

  /** One merged group per distinct key of `ks`, in first-seen order. */
  function GroupRows(data: seq<ExcelRow>, ks: seq<string>): (out: seq<GroupedData>)
    requires |ks| == |data|
    ensures |out| == |Distinct(ks)|
  {
    var d := Distinct(ks);
    seq(|d|, j requires 0 <= j < |d| => Merge(RowsWithKey(data, ks, d[j])))
  }

  /** The reference definition of `groupByCoordinates`. */
  function Grouped(data: seq<ExcelRow>, p: Precision): seq<GroupedData>
  {
    GroupRows(data, Keys(data, p))
  }

  // Unfolding facts for one more input row.

  lemma RowsWithKeySnoc(data: seq<ExcelRow>, ks: seq<string>, row: ExcelRow, key: string, k: string)
    requires |ks| == |data|
    ensures RowsWithKey(data + [row], ks + [key], k) ==
              RowsWithKey(data, ks, k) + (if key == k then [row] else [])
  {
    assert (data + [row])[..|data|] == data;
    assert (ks + [key])[..|ks|] == ks;
  }

  lemma MergeSnoc(rows: seq<ExcelRow>, row: ExcelRow)
    requires rows != []
    ensures Merge(rows + [row]) == Merge(rows).(sequence := Merge(rows).sequence + "; " + row.sequence)
  {
    assert Sequences(rows + [row]) == Sequences(rows) + [row.sequence];
    JoinSnoc(Sequences(rows), "; ", row.sequence);
  }

  lemma DistinctSnoc(ks: seq<string>, k: string)
    ensures Distinct(ks + [k]) == if k in ks then Distinct(ks) else Distinct(ks) + [k]
  {
    assert (ks + [k])[..|ks|] == ks;
  }

  /** The state of the loop of `groupByCoordinates` after the rows `done`
      (with keys `ks`): `order` lists the keys in insertion order and
      `groups` holds the group accumulated for each of them. */
  ghost predicate LoopState(done: seq<ExcelRow>, ks: seq<string>, order: seq<string>,
                            groups: map<string, GroupedData>)
  {
    && |ks| == |done|
    && order == Distinct(ks)
    && (forall k :: k in groups <==> k in order)
    && (forall j :: 0 <= j < |order| ==> groups[order[j]] == GroupRows(done, ks)[j])
  }

  /** A row whose key is already in the map appends its sequence to that group. */
  lemma AppendKnownKey(done: seq<ExcelRow>, ks: seq<string>, order: seq<string>,
                     groups: map<string, GroupedData>, row: ExcelRow, key: string)
    requires |ks| == |done| && LoopState(done, ks, order, groups) && key in groups
    ensures LoopState(done + [row], ks + [key], order,
                      groups[key := groups[key].(sequence := groups[key].sequence + "; " + row.sequence)])
  {
    var merged := groups[key].(sequence := groups[key].sequence + "; " + row.sequence);
    var groups' := groups[key := merged];
    var before := GroupRows(done, ks);
    var after := GroupRows(done + [row], ks + [key]);
    var at := FirstIndex(order, key);
    assert Distinct(ks + [key]) == order by {
      DistinctSnoc(ks, key);
    }
    assert after == before[at := merged] by {
      GroupRowsSnocKnown(done, ks, row, key);
      assert groups[key] == before[at];
    }
    UpdateTracksOrder(order, groups, before, at, merged);
  }

  /** Updating the entry of one key in a map that follows `order` keeps
      the map following `order`, with that one position updated. */
  lemma UpdateTracksOrder(order: seq<string>, groups: map<string, GroupedData>, before: seq<GroupedData>,
                          at: nat, merged: GroupedData)
    requires NoDuplicates(order) && at < |order| && |before| == |order|
    requires forall k :: k in groups <==> k in order
    requires forall j :: 0 <= j < |order| ==> groups[order[j]] == before[j]
    ensures forall k :: k in groups[order[at] := merged] <==> k in order
    ensures forall j :: 0 <= j < |order| ==> groups[order[at] := merged][order[j]] == before[at := merged][j]
  {
    forall j | 0 <= j < |order| ensures groups[order[at] := merged][order[j]] == before[at := merged][j] {
      if j != at {
        assert order[j] != order[at];
      }
    }
  }

  /** A row with an unseen key opens a new entry at the end of the order. */
  lemma AppendNewKey(done: seq<ExcelRow>, ks: seq<string>, order: seq<string>,
                   groups: map<string, GroupedData>, row: ExcelRow, key: string)
    requires |ks| == |done| && LoopState(done, ks, order, groups) && key !in groups
    ensures LoopState(done + [row], ks + [key], order + [key], groups[key := row])
  {
    var before := GroupRows(done, ks);
    assert key !in order;
    assert Distinct(ks + [key]) == order + [key] by {
      DistinctSnoc(ks, key);
    }
    assert GroupRows(done + [row], ks + [key]) == before + [row] by {
      GroupRowsSnocNew(done, ks, row, key);
    }
    AddTracksOrder(order, groups, before, key, row);
  }

  /** Adding an entry for a new key at the end of the order keeps the map
      following the order. */
  lemma AddTracksOrder(order: seq<string>, groups: map<string, GroupedData>, before: seq<GroupedData>,
                       key: string, row: GroupedData)
    requires key !in order && |before| == |order|
    requires forall k :: k in groups <==> k in order
    requires forall j :: 0 <= j < |order| ==> groups[order[j]] == before[j]
    ensures forall k :: k in groups[key := row] <==> k in order + [key]
    ensures forall j :: 0 <= j < |order| + 1 ==> groups[key := row][(order + [key])[j]] == (before + [row])[j]
  {
    forall j | 0 <= j < |order| + 1 ensures groups[key := row][(order + [key])[j]] == (before + [row])[j] {
      if j < |order| {
        assert order[j] != key;
      }
    }
  }

  /** Row `i`, whose key is already in the map, appends its sequence to
      that group. */
  lemma StepKnownKey(data: seq<ExcelRow>, ks: seq<string>, i: nat, order: seq<string>,
                     groups: map<string, GroupedData>)
    requires |ks| == |data| && i < |data|
    requires LoopState(data[..i], ks[..i], order, groups) && ks[i] in groups
    ensures var key := ks[i];
            LoopState(data[..i + 1], ks[..i + 1], order,
                      groups[key := groups[key].(sequence := groups[key].sequence + "; " + data[i].sequence)])
  {
    assert data[..i + 1] == data[..i] + [data[i]];
    assert ks[..i + 1] == ks[..i] + [ks[i]];
    AppendKnownKey(data[..i], ks[..i], order, groups, data[i], ks[i]);
  }

  /** Row `i`, whose key is not in the map yet, opens a new entry. */
  lemma StepNewKey(data: seq<ExcelRow>, ks: seq<string>, i: nat, order: seq<string>,
                   groups: map<string, GroupedData>)
    requires |ks| == |data| && i < |data|
    requires LoopState(data[..i], ks[..i], order, groups) && ks[i] !in groups
    ensures LoopState(data[..i + 1], ks[..i + 1], order + [ks[i]], groups[ks[i] := data[i]])
  {
    assert data[..i + 1] == data[..i] + [data[i]];
    assert ks[..i + 1] == ks[..i] + [ks[i]];
    AppendNewKey(data[..i], ks[..i], order, groups, data[i], ks[i]);
  }

  /** Reading the map in insertion order at the end of the loop gives the
      groups of the reference definition. */
  lemma LoopStateResult(done: seq<ExcelRow>, ks: seq<string>, order: seq<string>,
                        groups: map<string, GroupedData>, out: seq<GroupedData>)
    requires |ks| == |done| && LoopState(done, ks, order, groups)
    requires |out| == |order| && forall j :: 0 <= j < |out| ==> out[j] == groups[order[j]]
    ensures out == GroupRows(done, ks)
  {
  }

  /** `groupByCoordinates`: one pass over the rows, an insertion-ordered
      key list beside a map from key to the group being accumulated. */
  method GroupByCoordinates(data: seq<ExcelRow>, p: Precision) returns (out: seq<GroupedData>)
    ensures out == Grouped(data, p)
  {
    ghost var ks := Keys(data, p);
    var order: seq<string> := [];
    var groups: map<string, GroupedData> := map[];
    var i := 0;
    while i < |data|
      invariant 0 <= i <= |data|
      invariant LoopState(data[..i], ks[..i], order, groups)
    {
      var row := data[i];
      var key := GroupKey(row, p);
      if key in groups {
        StepKnownKey(data, ks, i, order, groups);
        var existing := groups[key];
        groups := groups[key := existing.(sequence := existing.sequence + "; " + row.sequence)];
      } else {
        StepNewKey(data, ks, i, order, groups);
        order := order + [key];
        groups := groups[key := row];
      }
      i := i + 1;
    }
    assert data[..i] == data && ks[..i] == ks;
    out := seq(|order|, j requires 0 <= j < |order| => groups[order[j]]);
    LoopStateResult(data, ks, order, groups, out);
  }

  // ---------------------------------------------------------------------
  // Properties of the grouping
  // ---------------------------------------------------------------------

  /** Keys that were already present keep their first position when a key is appended. */
  lemma FirstIndexSnoc(ks: seq<string>, x: string, k: string)
    requires k in ks
    ensures FirstIndex(ks + [x], k) == FirstIndex(ks, k)
  {
    var i0 := FirstIndex(ks, k);
    var i1 := FirstIndex(ks + [x], k);
    assert (ks + [x])[..i0 + 1] == ks[..i0 + 1];
  }

  /** The first row carrying a key is the first row of its group. */
  lemma {:induction false} RowsWithKeyFirst(data: seq<ExcelRow>, ks: seq<string>, k: string)
    requires |ks| == |data| && k in ks
    ensures RowsWithKey(data, ks, k)[0] == data[FirstIndex(ks, k)]
  {
    var n := |data| - 1;
    assert data == data[..n] + [data[n]];
    assert ks == ks[..n] + [ks[n]];
    RowsWithKeySnoc(data[..n], ks[..n], data[n], ks[n], k);
    if k in ks[..n] {
      RowsWithKeyFirst(data[..n], ks[..n], k);
      FirstIndexSnoc(ks[..n], ks[n], k);
    } else {
      assert ks[..FirstIndex(ks, k)] <= ks[..n];
    }
  }

  /** The key of each output group is the key it was formed under, and that
      group starts with the first row carrying the key. */
  lemma GroupedKeys(data: seq<ExcelRow>, p: Precision)
    ensures var out := Grouped(data, p);
            var ks := Keys(data, p);
            var d := Distinct(ks);
            |out| == |d| &&
            forall j :: 0 <= j < |out| ==>
              GroupKey(out[j], p) == d[j]
              && out[j] == data[FirstIndex(ks, d[j])].(sequence := out[j].sequence)
              && out[j].sequence == Join(Sequences(RowsWithKey(data, ks, d[j])), "; ")
  {
    var out := Grouped(data, p);
    var ks := Keys(data, p);
    var d := Distinct(ks);
    forall j | 0 <= j < |out|
      ensures GroupKey(out[j], p) == d[j]
      ensures out[j] == data[FirstIndex(ks, d[j])].(sequence := out[j].sequence)
    {
      RowsWithKeyFirst(data, ks, d[j]);
      var f := FirstIndex(ks, d[j]);
      assert GroupKey(out[j], p) == GroupKey(data[f], p);
    }
  }

  /** Output groups have pairwise distinct keys; every input row's key is the
      key of some group; there are never more groups than rows. */
  lemma GroupedKeysDistinctAndCovering(data: seq<ExcelRow>, p: Precision)
    ensures var out := Grouped(data, p);
            && |out| <= |data|
            && (data == [] ==> out == [])
            && (forall i, j :: 0 <= i < j < |out| ==> GroupKey(out[i], p) != GroupKey(out[j], p))
            && (forall i :: 0 <= i < |data| ==>
                  exists j :: 0 <= j < |out| && GroupKey(out[j], p) == GroupKey(data[i], p))
  {
    var out := Grouped(data, p);
    var ks := Keys(data, p);
    var d := Distinct(ks);
    GroupedKeys(data, p);
    forall i | 0 <= i < |data|
      ensures exists j :: 0 <= j < |out| && GroupKey(out[j], p) == GroupKey(data[i], p)
    {
      assert ks[i] in d;
      var j :| 0 <= j < |d| && d[j] == ks[i];
      assert GroupKey(out[j], p) == GroupKey(data[i], p);
    }
  }

  /** Distinct lists keys in increasing order of first occurrence. */
  lemma {:induction false} DistinctFirstSeenOrder(ks: seq<string>)
    ensures var d := Distinct(ks);
            forall i, j :: 0 <= i < j < |d| ==> FirstIndex(ks, d[i]) < FirstIndex(ks, d[j])
  {
    if ks != [] {
      var init := ks[..|ks| - 1];
      var last := ks[|ks| - 1];
      assert ks == init + [last];
      DistinctFirstSeenOrder(init);
      DistinctSnoc(init, last);
      var d0 := Distinct(init);
      var d := Distinct(ks);
      forall i, j | 0 <= i < j < |d| ensures FirstIndex(ks, d[i]) < FirstIndex(ks, d[j]) {
        FirstIndexSnoc(init, last, d[i]);
        if j < |d0| {
          FirstIndexSnoc(init, last, d[j]);
        } else {
          assert ks[..FirstIndex(ks, last)] <= init;
        }
      }
    }
  }

  /** Groups appear in the order in which their keys were first seen. */
  lemma GroupedFirstSeenOrder(data: seq<ExcelRow>, p: Precision)
    ensures var out := Grouped(data, p);
            var ks := Keys(data, p);
            forall i, j :: 0 <= i < j < |out| ==>
              GroupKey(out[i], p) in ks && GroupKey(out[j], p) in ks &&
              FirstIndex(ks, GroupKey(out[i], p)) < FirstIndex(ks, GroupKey(out[j], p))
  {
    GroupedKeys(data, p);
    DistinctFirstSeenOrder(Keys(data, p));
  }

  /** What one more input row does to the output: a new key appends a group
      holding exactly that row; a known key changes only the `sequence` of
      its group, by appending "; " and the row's sequence. */
  lemma GroupedSnoc(data: seq<ExcelRow>, row: ExcelRow, p: Precision)
    ensures var before := Grouped(data, p);
            var after := Grouped(data + [row], p);
            var key := GroupKey(row, p);
            if key in Keys(data, p) then
              exists j :: 0 <= j < |before| && GroupKey(before[j], p) == key &&
                after == before[j := before[j].(sequence := before[j].sequence + "; " + row.sequence)]
            else
              after == before + [row]
  {
    var ks := Keys(data, p);
    var key := GroupKey(row, p);
    assert Keys(data + [row], p) == ks + [key];
    GroupedKeys(data, p);
    if key in ks {
      GroupRowsSnocKnown(data, ks, row, key);
      var j := FirstIndex(Distinct(ks), key);
      assert GroupKey(Grouped(data, p)[j], p) == key;
    } else {
      GroupRowsSnocNew(data, ks, row, key);
    }
  }

  /** A row with a key seen before extends that key's group only. */
  lemma GroupRowsSnocKnown(data: seq<ExcelRow>, ks: seq<string>, row: ExcelRow, key: string)
    requires |ks| == |data| && key in ks
    ensures var before := GroupRows(data, ks);
            var j := FirstIndex(Distinct(ks), key);
            GroupRows(data + [row], ks + [key]) ==
              before[j := before[j].(sequence := before[j].sequence + "; " + row.sequence)]
  {
    var before := GroupRows(data, ks);
    var after := GroupRows(data + [row], ks + [key]);
    var d := Distinct(ks);
    var j := FirstIndex(d, key);
    DistinctSnoc(ks, key);
    assert |after| == |before|;
    forall i | 0 <= i < |d|
      ensures after[i] == before[j := before[j].(sequence := before[j].sequence + "; " + row.sequence)][i]
    {
      RowsWithKeySnoc(data, ks, row, key, d[i]);
      assert Distinct(ks + [key]) == d;
      assert after[i] == Merge(RowsWithKey(data + [row], ks + [key], d[i]));
      assert before[i] == Merge(RowsWithKey(data, ks, d[i]));
      if i == j {
        assert d[i] == key;
        assert RowsWithKey(data + [row], ks + [key], d[i]) == RowsWithKey(data, ks, d[i]) + [row];
        MergeSnoc(RowsWithKey(data, ks, key), row);
      } else {
        assert d[i] != key;
        assert RowsWithKey(data + [row], ks + [key], d[i]) == RowsWithKey(data, ks, d[i]);
      }
    }
  }

  /** A row with a new key opens a group of its own at the end. */
  lemma GroupRowsSnocNew(data: seq<ExcelRow>, ks: seq<string>, row: ExcelRow, key: string)
    requires |ks| == |data| && key !in ks
    ensures GroupRows(data + [row], ks + [key]) == GroupRows(data, ks) + [row]
  {
    var before := GroupRows(data, ks);
    var after := GroupRows(data + [row], ks + [key]);
    var d := Distinct(ks);
    assert Distinct(ks + [key]) == d + [key] by {
      DistinctSnoc(ks, key);
    }
    forall i | 0 <= i < |d| ensures after[i] == before[i] {
      assert RowsWithKey(data + [row], ks + [key], d[i]) == RowsWithKey(data, ks, d[i]) by {
        RowsWithKeySnoc(data, ks, row, key, d[i]);
        assert d[i] in ks;
      }
    }
    assert after[|d|] == row by {
      RowsWithKeySnoc(data, ks, row, key, key);
      assert RowsWithKey(data + [row], ks + [key], key) == [row];
      assert Sequences([row]) == [row.sequence];
    }
  }

  // Every row lands in exactly one group.

  /** The total number of rows over the groups named by `names`. */
  function GroupSizes(data: seq<ExcelRow>, ks: seq<string>, names: seq<string>): nat
    requires |ks| == |data|
  {
    if names == [] then 0
    else GroupSizes(data, ks, names[..|names| - 1]) + |RowsWithKey(data, ks, names[|names| - 1])|
  }

  lemma {:induction false} GroupSizesSnoc(data: seq<ExcelRow>, ks: seq<string>, row: ExcelRow, key: string,
                                          names: seq<string>)
    requires |ks| == |data| && NoDuplicates(names)
    ensures GroupSizes(data + [row], ks + [key], names) ==
              GroupSizes(data, ks, names) + (if key in names then 1 else 0)
  {
    if names != [] {
      var init := names[..|names| - 1];
      var last := names[|names| - 1];
      assert names == init + [last];
      assert NoDuplicates(init);
      GroupSizesSnoc(data, ks, row, key, init);
      RowsWithKeySnoc(data, ks, row, key, last);
    }
  }

  /** The groups partition the input: their sizes add up to the row count. */
  lemma {:induction false} GroupsPartitionRows(data: seq<ExcelRow>, ks: seq<string>)
    requires |ks| == |data|
    ensures GroupSizes(data, ks, Distinct(ks)) == |data|
  {
    if data != [] {
      var n := |data| - 1;
      var key := ks[n];
      assert data == data[..n] + [data[n]];
      assert ks == ks[..n] + [key];
      var d0 := Distinct(ks[..n]);
      GroupsPartitionRows(data[..n], ks[..n]);
      DistinctSnoc(ks[..n], key);
      GroupSizesSnoc(data[..n], ks[..n], data[n], key, d0);
      if key !in ks[..n] {
        assert (d0 + [key])[..|d0|] == d0;
        RowsWithKeySnoc(data[..n], ks[..n], data[n], key, key);
      }
    }
  }

  /** Every input row is counted in exactly one output group. */
  lemma GroupsPartitionInput(data: seq<ExcelRow>, p: Precision)
    ensures GroupSizes(data, Keys(data, p), Distinct(Keys(data, p))) == |data|
  {
    GroupsPartitionRows(data, Keys(data, p));
  }

  // ---------------------------------------------------------------------
  // What a key tells about a row
  // ---------------------------------------------------------------------

  /** Two texts joined by "_" split back at the first "_" when the left
      parts contain none. */
  lemma UnderscoreSplit(x1: string, y1: string, x2: string, y2: string)
    requires '_' !in x1 && '_' !in x2
    requires x1 + "_" + y1 == x2 + "_" + y2
    ensures x1 == x2 && y1 == y2
  {
    FirstUnderscore(x1, y1, x2, y2);
    FirstUnderscore(x2, y2, x1, y1);
    var s := x1 + "_" + y1;
    assert x1 == s[..|x1|] == x2;
    assert y1 == s[|x1| + 1..] == y2;
  }

  /** The joining "_" cannot fall inside a left part that has none. */
  lemma FirstUnderscore(x1: string, y1: string, x2: string, y2: string)
    requires '_' !in x1
    requires x1 + "_" + y1 == x2 + "_" + y2
    ensures |x1| <= |x2|
  {
    if |x2| < |x1| {
      JoinedCharAt(x1, y1, |x2|);
      JoinedCharAt(x2, y2, |x2|);
      assert false;
    }
  }

  /** The characters of a text joined by "_" to another. */
  lemma JoinedCharAt(x: string, y: string, i: nat)
    requires i <= |x|
    ensures (x + "_" + y)[i] == if i < |x| then x[i] else '_'
  {
  }

  /** Three parts joined by "_" are recovered from the joined text when the
      first two contain no "_". */
  lemma JoinedKeyParts(a1: string, o1: string, n1: string, a2: string, o2: string, n2: string)
    requires '_' !in a1 && '_' !in a2 && '_' !in o1 && '_' !in o2
    ensures a1 + "_" + o1 + "_" + n1 == a2 + "_" + o2 + "_" + n2 <==> a1 == a2 && o1 == o2 && n1 == n2
  {
    if a1 + "_" + o1 + "_" + n1 == a2 + "_" + o2 + "_" + n2 {
      assert a1 + "_" + o1 + "_" + n1 == a1 + "_" + (o1 + "_" + n1);
      assert a2 + "_" + o2 + "_" + n2 == a2 + "_" + (o2 + "_" + n2);
      UnderscoreSplit(a1, o1 + "_" + n1, a2, o2 + "_" + n2);
      UnderscoreSplit(o1, n1, o2, n2);
    }
  }

  /** When the coordinate prefixes contain no "_", two rows share a key
      exactly when they agree on both prefixes and on the address number. */
  lemma GroupKeyIdentifiesStop(r1: ExcelRow, r2: ExcelRow, p: Precision)
    requires '_' !in Substring0(r1.latitude, p.latitude) && '_' !in Substring0(r2.latitude, p.latitude)
    requires '_' !in Substring0(r1.longitude, p.longitude) && '_' !in Substring0(r2.longitude, p.longitude)
    ensures GroupKey(r1, p) == GroupKey(r2, p) <==>
              && Substring0(r1.latitude, p.latitude) == Substring0(r2.latitude, p.latitude)
              && Substring0(r1.longitude, p.longitude) == Substring0(r2.longitude, p.longitude)
              && ExtractAddressNumber(r1.destinationAddress) == ExtractAddressNumber(r2.destinationAddress)
  {
    JoinedKeyParts(Substring0(r1.latitude, p.latitude), Substring0(r1.longitude, p.longitude),
                   ExtractAddressNumber(r1.destinationAddress),
                   Substring0(r2.latitude, p.latitude), Substring0(r2.longitude, p.longitude),
                   ExtractAddressNumber(r2.destinationAddress));
  }

  /** A coordinate holding "_" lets two different stops share a key: the
      key is compared as text, not as a triple. */
  lemma KeyCollisionAcrossUnderscore()
    ensures var r1 := ExcelRow("1", "", "", "", "", "1_2", "3");
            var r2 := ExcelRow("2", "", "", "", "", "1", "2_3");
            r1.latitude != r2.latitude && GroupKey(r1, DefaultPrecision) == GroupKey(r2, DefaultPrecision)
  {
    var r1 := ExcelRow("1", "", "", "", "", "1_2", "3");
    var r2 := ExcelRow("2", "", "", "", "", "1", "2_3");
    assert Substring0("1_2", 7) == "1_2" && Substring0("3", 7) == "3";
    assert Substring0("1", 7) == "1" && Substring0("2_3", 7) == "2_3";
    assert ExtractAddressNumber("") == "";
    assert "1_2" + "_" + "3" + "_" + "" == "1" + "_" + "2_3" + "_" + "";
  }
}
