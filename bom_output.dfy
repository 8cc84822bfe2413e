/**
 * Turning the grouped BOM back into rows (merge_panel.py, lines 209-223) and
 * choosing the columns the BOM writer is given. Each group becomes a copy of
 * the row it kept, with `Designator` set to its designators joined by ", "
 * and `Quantity` to the decimal text of its quantity.
 */
module BomOutput {
  import opened Wrappers
  import opened Records
  import opened Strings
  import opened Seqs
  import opened BomLoader
  import opened BomGrouping

  /** One output row: `row = data.copy()`, then the two columns overwritten. */
  function FlattenGroup(gr: Group): (row: Row<Cell>)
    ensures WellFormed(gr.data) ==> WellFormed(row)
    ensures DESIGNATOR in gr.data.keys && QUANTITY in gr.data.keys ==> row.keys == gr.data.keys
    ensures forall c :: c != DESIGNATOR && c != QUANTITY ==> Get(row, c) == Get(gr.data, c)
    ensures HasText(row, DESIGNATOR) && HasText(row, QUANTITY)
    ensures ParseInt(row.cells[QUANTITY].text) == gr.qty
  {
    var row := Set(gr.data, DESIGNATOR, Text(Join(gr.refs, ", ")));
    Set(row, QUANTITY, Text(IntString(gr.qty)))
  }

  /** The designator list of an output row reads back as the group's designators. */
  lemma FlattenGroupRefs(gr: Group)
    requires forall i :: 0 <= i < |gr.refs| ==> CleanRef(gr.refs[i])
    ensures Designators(FlattenGroup(gr).cells[DESIGNATOR].text) == gr.refs
  {
    DesignatorsOfJoin(gr.refs);
  }

  /** An output row has the part type of the row its group kept. */
  lemma FlattenGroupKey(gr: Group)
    ensures KeyOf(FlattenGroup(gr)) == KeyOf(gr.data)
  {
    assert Get(FlattenGroup(gr), FOOTPRINT) == Get(gr.data, FOOTPRINT);
    assert Get(FlattenGroup(gr), VALUE) == Get(gr.data, VALUE);
    assert Get(FlattenGroup(gr), LCSC_PART) == Get(gr.data, LCSC_PART);
  }

  /** The output rows, one per group in the grouping's order. */
  function Flatten(g: Grouping): (out: seq<Row<Cell>>)
    requires forall k :: k in g.order ==> k in g.groups
    ensures |out| == |g.order|
    ensures forall m :: 0 <= m < |out| ==> out[m] == FlattenGroup(g.groups[g.order[m]])
  {
    seq(|g.order|, m requires 0 <= m < |g.order| => FlattenGroup(g.groups[g.order[m]]))
  }

  /** The flattening loop over `bom_grouped.items()`. */
  method FlattenBom(g: Grouping) returns (out: seq<Row<Cell>>)
    requires forall k :: k in g.order ==> k in g.groups
    ensures out == Flatten(g)
  {
    out := [];
    for m := 0 to |g.order|
      invariant |out| == m
      invariant forall p :: 0 <= p < m ==> out[p] == FlattenGroup(g.groups[g.order[p]])
    {
      var gr := g.groups[g.order[m]];
      var row := Set(gr.data, DESIGNATOR, Text(Join(gr.refs, ", ")));
      row := Set(row, QUANTITY, Text(IntString(gr.qty)));
      out := out + [row];
    }
  }

  /** The merged BOM as written: the components aggregated, then flattened. */
  function AggregatedBom(rows: seq<Row<Cell>>): (out: seq<Row<Cell>>)
    requires AllGroupable(rows)
    ensures |out| == |Aggregate(rows).order|
  {
    AggregateValid(rows);
    Flatten(Aggregate(rows))
  }

  /** Components as `load_bom` leaves them can be grouped. */
  lemma LoadedGroupable(rows: seq<Row<Cell>>)
    requires forall i :: 0 <= i < |rows| ==> Loaded(rows[i])
    ensures AllGroupable(rows)
  {
    forall i | 0 <= i < |rows| ensures Groupable(rows[i]) {
      assert Get(rows[i], QUANTITY) == Some(Count(1));
    }
  }

  /** The designators collected for a part type are the clean designators of its rows. */
  lemma {:induction false} RefsWithKeyClean(rows: seq<Row<Cell>>, k: Key)
    requires AllGroupable(rows) && forall i :: 0 <= i < |rows| ==> CleanRef(Ref(rows[i]))
    ensures forall j :: 0 <= j < |RefsWithKey(rows, k)| ==> CleanRef(RefsWithKey(rows, k)[j])
  {
    if rows != [] {
      RefsWithKeyClean(rows[..|rows| - 1], k);
    }
  }

  /**
   * Output row `m` describes the `m`-th part type seen: its designator list
   * reads back as the designators of every component of that type, in order,
   * its quantity as their number, and every other column is the first such
   * component's.
   */
  lemma AggregatedBomRow(rows: seq<Row<Cell>>, m: nat)
    requires forall i :: 0 <= i < |rows| ==> Loaded(rows[i])
    requires AllGroupable(rows) && m < |Aggregate(rows).order|
    ensures Aggregate(rows).order[m] in KeysOf(rows)
    ensures var out, k := AggregatedBom(rows)[m], Aggregate(rows).order[m];
      var first := rows[FirstIndex(KeysOf(rows), k)];
      && out.keys == first.keys
      && (forall c :: c != DESIGNATOR && c != QUANTITY ==> Get(out, c) == Get(first, c))
      && HasText(out, DESIGNATOR) && Designators(out.cells[DESIGNATOR].text) == RefsWithKey(rows, k)
      && HasText(out, QUANTITY) && ParseInt(out.cells[QUANTITY].text) == |RefsWithKey(rows, k)|
  {
    AggregateOrder(rows);
    AggregateValid(rows);
    var k := Aggregate(rows).order[m];
    AggregateGroup(rows, k);
    AggregateGroupData(rows, k);
    var gr := Aggregate(rows).groups[k];
    var first := rows[FirstIndex(KeysOf(rows), k)];
    assert Loaded(first);
    RefsWithKeyClean(rows, k);
    FlattenGroupRefs(gr);
    UnitQuantities(rows, k);
  }

  /** The output has one row per part type: no two output rows share a part type. */
  lemma AggregatedBomDistinctParts(rows: seq<Row<Cell>>)
    requires AllGroupable(rows)
    ensures KeysOf(AggregatedBom(rows)) == Aggregate(rows).order
    ensures Distinct(KeysOf(AggregatedBom(rows)))
  {
    AggregateValid(rows);
    var g := Aggregate(rows);
    var out := Flatten(g);
    assert AggregatedBom(rows) == out;
    forall m | 0 <= m < |out| ensures KeyOf(out[m]) == g.order[m] {
      FlattenGroupKey(g.groups[g.order[m]]);
    }
  }

  // Column names for the BOM writer.

  /** The five columns the BOM file always starts with. */
  const FIXED_FIELDS: seq<string> := [DESIGNATOR, FOOTPRINT, VALUE, QUANTITY, LCSC_PART]

  /** `names` followed by each key of `ks` not already present, in first-seen order. */
  function ExtendNames(names: seq<string>, ks: seq<string>): seq<string> {
    if ks == [] then names
    else
      var p, c := ExtendNames(names, ks[..|ks| - 1]), ks[|ks| - 1];
      if c in p then p else p + [c]
  }

  /** Extending keeps the given names in front, adds exactly the new keys, and adds each once. */
  lemma {:induction false} ExtendNamesSpec(names: seq<string>, ks: seq<string>)
    ensures |ExtendNames(names, ks)| >= |names| && ExtendNames(names, ks)[..|names|] == names
    ensures forall x :: x in ExtendNames(names, ks) <==> x in names || x in ks
    ensures Distinct(names) ==> Distinct(ExtendNames(names, ks))
  {
    if ks != [] {
      var init := ks[..|ks| - 1];
      ExtendNamesSpec(names, init);
      assert forall x :: x in ks <==> x in init || x == ks[|ks| - 1];
    }
  }

  /**
   * New columns come in first-seen order: of two keys not yet in `names`, the
   * one that first occurs earlier in `ks` is placed earlier.
   */
  lemma {:induction false} ExtendNamesOrder(names: seq<string>, ks: seq<string>, x: string, y: string)
    requires x in ks && y in ks && x !in names && y !in names
    requires FirstIndex(ks, x) < FirstIndex(ks, y)
    ensures x in ExtendNames(names, ks) && y in ExtendNames(names, ks)
    ensures |names| <= FirstIndex(ExtendNames(names, ks), x) < FirstIndex(ExtendNames(names, ks), y)
  {
    var init, c := ks[..|ks| - 1], ks[|ks| - 1];
    var before := ExtendNames(names, init);
    ExtendNamesSpec(names, init);
    ExtendNamesSpec(names, ks);
    assert ks == init + [c];
    assert x in init by {
      assert ks[FirstIndex(ks, x)] == init[FirstIndex(ks, x)];
    }
    FirstIndexAppend(init, [c], x);
    FirstIndexPastPrefix(before, names, x);
    if y in init {
      FirstIndexAppend(init, [c], y);
      ExtendNamesOrder(names, init, x, y);
      if c !in before {
        FirstIndexAppend(before, [c], x);
        FirstIndexAppend(before, [c], y);
      }
    } else {
      assert y == c;
      assert y !in before;
      FirstIndexOfNew(before, y);
      FirstIndexAppend(before, [y], x);
    }
  }

  /** A key missing from the front part of a list first occurs after it. */
  lemma FirstIndexPastPrefix(s: seq<string>, front: seq<string>, x: string)
    requires x in s && x !in front && |front| <= |s| && s[..|front|] == front
    ensures FirstIndex(s, x) >= |front|
  {
  }

  /** Extending by `a + b` is extending by `a`, then by `b`. */
  lemma {:induction false} ExtendNamesAppend(names: seq<string>, a: seq<string>, b: seq<string>)
    ensures ExtendNames(names, a + b) == ExtendNames(ExtendNames(names, a), b)
  {
    if b == [] {
      assert a + b == a;
    } else {
      var ab := a + b;
      assert ab[..|ab| - 1] == a + b[..|b| - 1];
      ExtendNamesAppend(names, a, b[..|b| - 1]);
    }
  }

  /** The loop over a row's keys that appends each key not yet in the list. */
  method AddColumns(names: seq<string>, keys: seq<string>) returns (out: seq<string>)
    ensures out == ExtendNames(names, keys)
  {
    out := names;
    for j := 0 to |keys|
      invariant out == ExtendNames(names, keys[..j])
    {
      assert keys[..j + 1][..j] == keys[..j];
      if keys[j] !in out {
        out := out + [keys[j]];
      }
    }
    assert keys[..|keys|] == keys;
  }

  /** The columns as the source chooses them: the fixed five, then the first merged row's other keys. */
  function FieldNamesAsWritten(rows: seq<Row<Cell>>): (names: seq<string>)
    ensures |names| >= 5 && names[..5] == FIXED_FIELDS
    ensures Distinct(names)
    ensures rows != [] ==> forall c :: c in rows[0].keys ==> c in names
  {
    FixedFieldsDistinct();
    if rows == [] then FIXED_FIELDS
    else
      ExtendNamesSpec(FIXED_FIELDS, rows[0].keys);
      ExtendNames(FIXED_FIELDS, rows[0].keys)
  }

  /** `bom_fieldnames` as lines 211-217 compute it. */
  method BomFieldNames(rows: seq<Row<Cell>>) returns (names: seq<string>)
    ensures names == FieldNamesAsWritten(rows)
  {
    names := FIXED_FIELDS;
    if |rows| > 0 {
      names := AddColumns(names, rows[0].keys);
    }
  }

  lemma FixedFieldsDistinct()
    ensures Distinct(FIXED_FIELDS)
  {
  }

  function ColumnsOf(row: Row<Cell>): seq<string> {
    row.keys
  }

  /** The columns every merged row needs: the fixed five, then every key of every row, first seen first. */
  function AllFieldNames(rows: seq<Row<Cell>>): seq<string> {
    ExtendNames(FIXED_FIELDS, FlatMap(rows, ColumnsOf))
  }

  /** The column loop run over every merged row instead of the first only. */
  method AllBomFieldNames(rows: seq<Row<Cell>>) returns (names: seq<string>)
    ensures names == AllFieldNames(rows)
  {
    names := FIXED_FIELDS;
    for i := 0 to |rows|
      invariant names == ExtendNames(FIXED_FIELDS, FlatMap(rows[..i], ColumnsOf))
    {
      FlatMapStep(rows, i, ColumnsOf);
      ExtendNamesAppend(FIXED_FIELDS, FlatMap(rows[..i], ColumnsOf), rows[i].keys);
      names := AddColumns(names, rows[i].keys);
    }
    FlatMapDone(rows, ColumnsOf);
  }

  /**
   * The full column list starts with the fixed five, names no column twice,
   * covers every key of every row, and extends the list the source computes.
   */
  lemma AllFieldNamesSpec(rows: seq<Row<Cell>>)
    ensures |AllFieldNames(rows)| >= 5 && AllFieldNames(rows)[..5] == FIXED_FIELDS
    ensures Distinct(AllFieldNames(rows))
    ensures forall i, c :: 0 <= i < |rows| && c in rows[i].keys ==> c in AllFieldNames(rows)
    ensures |AllFieldNames(rows)| >= |FieldNamesAsWritten(rows)|
    ensures AllFieldNames(rows)[..|FieldNamesAsWritten(rows)|] == FieldNamesAsWritten(rows)
  {
    FixedFieldsDistinct();
    var ks := FlatMap(rows, ColumnsOf);
    ExtendNamesSpec(FIXED_FIELDS, ks);
    forall i, c | 0 <= i < |rows| && c in rows[i].keys ensures c in AllFieldNames(rows) {
      FlatMapMember(rows, ColumnsOf, i, c);
    }
    if rows != [] {
      assert rows == [rows[0]] + rows[1..];
      FlatMapAppend([rows[0]], rows[1..], ColumnsOf);
      assert FlatMap([rows[0]], ColumnsOf) == rows[0].keys by {
        assert [rows[0]][..0] == [];
      }
      ExtendNamesAppend(FIXED_FIELDS, rows[0].keys, FlatMap(rows[1..], ColumnsOf));
      ExtendNamesSpec(FieldNamesAsWritten(rows), FlatMap(rows[1..], ColumnsOf));
    }
  }

  /**
   * What `csv.DictWriter` with its default `extrasaction='raise'` demands of
   * the rows it writes: no row holds a column missing from the field names.
   */
  ghost predicate DictWriterAccepts(fieldnames: seq<string>, rows: seq<Row<Cell>>) {
    forall i, c :: 0 <= i < |rows| && c in rows[i].keys ==> c in fieldnames
  }

  /** With every merged row's keys as field names, the writer accepts the merged BOM. */
  lemma AllFieldNamesAccepted(rows: seq<Row<Cell>>)
    requires forall i :: 0 <= i < |rows| ==> Loaded(rows[i])
    requires AllGroupable(rows)
    ensures DictWriterAccepts(AllFieldNames(rows), AggregatedBom(rows))
  {
    AllFieldNamesSpec(rows);
    var out := AggregatedBom(rows);
    forall m, c | 0 <= m < |out| && c in out[m].keys ensures c in AllFieldNames(rows) {
      AggregatedBomRow(rows, m);
    }
  }

  /** Two part types from two designs; only the second design's BOM has a `Manufacturer` column. */
  const FIRST_DESIGN_ROW := Row([DESIGNATOR, FOOTPRINT, VALUE, LCSC_PART, QUANTITY],
    map[DESIGNATOR := Text("B1_R1"), FOOTPRINT := Text("0603"), VALUE := Text("10k"),
        LCSC_PART := Text("C25804"), QUANTITY := Count(1)])
  const SECOND_DESIGN_ROW := Row([DESIGNATOR, FOOTPRINT, VALUE, LCSC_PART, "Manufacturer", QUANTITY],
    map[DESIGNATOR := Text("B2_C1"), FOOTPRINT := Text("0402"), VALUE := Text("100nF"),
        LCSC_PART := Text("C1525"), "Manufacturer" := Text("Samsung"), QUANTITY := Count(1)])

  /**
   * The columns chosen from the first merged row alone miss a column of a
   * later design, and the writer rejects the merged BOM.
   */
  lemma FirstRowFieldNamesRejected()
    ensures AllGroupable([FIRST_DESIGN_ROW, SECOND_DESIGN_ROW])
    ensures !DictWriterAccepts(FieldNamesAsWritten([FIRST_DESIGN_ROW, SECOND_DESIGN_ROW]),
                               AggregatedBom([FIRST_DESIGN_ROW, SECOND_DESIGN_ROW]))
  {
    var rows := [FIRST_DESIGN_ROW, SECOND_DESIGN_ROW];
    assert rows[..1] == [FIRST_DESIGN_ROW];
    assert [FIRST_DESIGN_ROW][..0] == [];
    var names := FieldNamesAsWritten(rows);
    ExtendNamesSpec(FIXED_FIELDS, FIRST_DESIGN_ROW.keys);
    assert "Manufacturer" !in names;
    var k1, k2 := KeyOf(FIRST_DESIGN_ROW), KeyOf(SECOND_DESIGN_ROW);
    assert k1 != k2 by {
      assert k1.footprint == Text("0603") && k2.footprint == Text("0402");
    }
    AggregateLast(rows);
    AggregateLast(rows[..1]);
    var g1 := Aggregate(rows[..1]);
    assert g1.order == [k1] && g1.groups.Keys == {k1};
    var g := Aggregate(rows);
    assert g.order == [k1, k2];
    assert g.groups[k2].data == SECOND_DESIGN_ROW;
    AggregateValid(rows);
    var out := Flatten(g);
    assert AggregatedBom(rows) == out;
    assert out[1].keys == SECOND_DESIGN_ROW.keys;
    assert "Manufacturer" in out[1].keys;
  }

  /** The same timer chip placed on two boards. */
  const U1_ON_BOARD_1 := Row([DESIGNATOR, FOOTPRINT, VALUE, LCSC_PART, QUANTITY],
    map[DESIGNATOR := Text("B1_U1"), FOOTPRINT := Text("SOIC-8"), VALUE := Text("NE555"),
        LCSC_PART := Text("C7593"), QUANTITY := Count(1)])
  const U1_ON_BOARD_2 := Set(U1_ON_BOARD_1, DESIGNATOR, Text("B2_U1"))

  lemma U1RowsGroupable()
    ensures AllGroupable([U1_ON_BOARD_1, U1_ON_BOARD_2])
    ensures KeyOf(U1_ON_BOARD_2) == KeyOf(U1_ON_BOARD_1)
    ensures Ref(U1_ON_BOARD_1) == "B1_U1" && Ref(U1_ON_BOARD_2) == "B2_U1"
    ensures Qty(U1_ON_BOARD_1) == 1 && Qty(U1_ON_BOARD_2) == 1
  {
    assert DESIGNATOR != QUANTITY;
    assert Get(U1_ON_BOARD_2, QUANTITY) == Get(U1_ON_BOARD_1, QUANTITY);
    assert Get(U1_ON_BOARD_2, FOOTPRINT) == Get(U1_ON_BOARD_1, FOOTPRINT);
    assert Get(U1_ON_BOARD_2, VALUE) == Get(U1_ON_BOARD_1, VALUE);
    assert Get(U1_ON_BOARD_2, LCSC_PART) == Get(U1_ON_BOARD_1, LCSC_PART);
  }

  /** The two components fall into one group that lists both designators. */
  lemma U1Grouped()
    ensures AllGroupable([U1_ON_BOARD_1, U1_ON_BOARD_2])
    ensures Aggregate([U1_ON_BOARD_1, U1_ON_BOARD_2]).order == [KeyOf(U1_ON_BOARD_1)]
    ensures Aggregate([U1_ON_BOARD_1, U1_ON_BOARD_2]).groups[KeyOf(U1_ON_BOARD_1)]
         == Group(U1_ON_BOARD_1, ["B1_U1", "B2_U1"], 2)
  {
    U1RowsGroupable();
    var rows := [U1_ON_BOARD_1, U1_ON_BOARD_2];
    assert rows[..1] == [U1_ON_BOARD_1];
    assert [U1_ON_BOARD_1][..0] == [];
    AggregateLast(rows);
    AggregateLast(rows[..1]);
  }

  /** Two components of one part type make one BOM row listing both, with quantity 2. */
  lemma OnePartOnTwoBoards()
    ensures AllGroupable([U1_ON_BOARD_1, U1_ON_BOARD_2])
    ensures |AggregatedBom([U1_ON_BOARD_1, U1_ON_BOARD_2])| == 1
    ensures Get(AggregatedBom([U1_ON_BOARD_1, U1_ON_BOARD_2])[0], DESIGNATOR) == Some(Text("B1_U1, B2_U1"))
    ensures Get(AggregatedBom([U1_ON_BOARD_1, U1_ON_BOARD_2])[0], QUANTITY) == Some(Text("2"))
  {
    U1Grouped();
    var rows := [U1_ON_BOARD_1, U1_ON_BOARD_2];
    var gr := Group(U1_ON_BOARD_1, ["B1_U1", "B2_U1"], 2);
    assert AggregatedBom(rows)[0] == FlattenGroup(gr);
    U1Texts();
  }

  lemma U1Texts()
    ensures Join(["B1_U1", "B2_U1"], ", ") == "B1_U1, B2_U1"
    ensures IntString(2) == "2"
  {
    assert ["B1_U1", "B2_U1"][1..] == ["B2_U1"];
  }
}
