/**
 * `load_bom`: every BOM row whose `Designator` field lists several references
 * ("C1, C2, C3") becomes one component row per reference, each with quantity 1.
 */
module BomLoader {
  import opened Wrappers
  import opened Strings
  import opened Records
  import opened Seqs

  /** A single reference as `load_bom` produces it: non-empty, stripped, comma-free. */
  predicate CleanRef(t: string) {
    t != "" && Trimmed(t) && ',' !in t
  }

  /** A designator field made only of commas and white space. */
  predicate BlankField(raw: string) {
    forall i :: 0 <= i < |raw| ==> raw[i] == ',' || IsSpace(raw[i])
  }

  /** What one piece contributes: its stripped text, unless that is empty. */
  function Token(part: string): seq<string> {
    var t := Strip(part);
    if t == "" then [] else [t]
  }

  /** `[d.strip() for d in parts if d.strip()]`. */
  function Tokens(parts: seq<string>): seq<string> {
    FlatMap(parts, Token)
  }

  /** The comprehension read from the front: the first piece, then the rest. */
  lemma TokensCons(parts: seq<string>)
    requires parts != []
    ensures Tokens(parts) == Token(parts[0]) + Tokens(parts[1..])
  {
    FlatMapCons(parts, Token);
  }

  /**
   * The references listed in a designator field (merge_panel.py, line 49):
   * each one non-empty, stripped and free of commas.
   */
  function Designators(raw: string): (refs: seq<string>)
    ensures forall i :: 0 <= i < |refs| ==> CleanRef(refs[i])
  {
    SplitPiecesFree(raw, ',');
    TokensClean(Split(raw, ','));
    Tokens(Split(raw, ','))
  }

  lemma TokensClean(parts: seq<string>)
    requires forall i :: 0 <= i < |parts| ==> ',' !in parts[i]
    ensures forall i :: 0 <= i < |Tokens(parts)| ==> CleanRef(Tokens(parts)[i])
  {
    forall i, j | 0 <= i < |parts| && 0 <= j < |Token(parts[i])| ensures CleanRef(Token(parts[i])[j]) {
      StripKeepsOut(parts[i], ',');
    }
    FlatMapElements(parts, Token, CleanRef);
  }

  /** `row.get('Designator', '')`. */
  function DesignatorField(row: Row<string>): string {
    GetOr(row, DESIGNATOR, "")
  }

  /**
   * The component `load_bom` emits for reference `ref` of `row`: a copy of the
   * row whose `Designator` is `ref` and whose `Quantity` is the integer 1.
   */
  function Component(row: Row<string>, ref: string): (c: Row<Cell>)
    ensures WellFormed(row) ==> WellFormed(c)
    ensures Get(c, DESIGNATOR) == Some(Text(ref))
    ensures Get(c, QUANTITY) == Some(Count(1))
    ensures forall k :: k != DESIGNATOR && k != QUANTITY ==>
      Get(c, k) == if k in row.cells then Some(Text(row.cells[k])) else None
    ensures DESIGNATOR in row.keys ==>
      c.keys == if QUANTITY in row.keys then row.keys else row.keys + [QUANTITY]
  {
    Set(Set(Lift(row), DESIGNATOR, Text(ref)), QUANTITY, Count(1))
  }

  /** One component of `row` per reference in `refs`, in the order of `refs`. */
  function ExpandRefs(row: Row<string>, refs: seq<string>): (cs: seq<Row<Cell>>)
    ensures |cs| == |refs|
  {
    if refs == [] then [] else [Component(row, refs[0])] + ExpandRefs(row, refs[1..])
  }

  lemma {:induction false} ExpandRefsAt(row: Row<string>, refs: seq<string>, j: nat)
    requires j < |refs|
    ensures ExpandRefs(row, refs)[j] == Component(row, refs[j])
  {
    if j > 0 {
      ExpandRefsAt(row, refs[1..], j - 1);
    }
  }

  lemma ExpandRefsStep(row: Row<string>, refs: seq<string>, j: nat)
    requires j < |refs|
    ensures ExpandRefs(row, refs)[..j + 1] == ExpandRefs(row, refs)[..j] + [Component(row, refs[j])]
  {
    ExpandRefsAt(row, refs, j);
  }

  lemma ExpandRowIsRefs(row: Row<string>)
    ensures ExpandRow(row) == ExpandRefs(row, Designators(GetOr(row, DESIGNATOR, "")))
  {
    if DESIGNATOR !in row.cells {
      assert Split("", ',') == [""];
      assert Strip("") == "";
    }
  }

  /** The components of one BOM row, one per listed reference, in listed order. */
  function ExpandRow(row: Row<string>): seq<Row<Cell>> {
    if DESIGNATOR in row.cells then ExpandRefs(row, Designators(row.cells[DESIGNATOR])) else []
  }

  /**
   * A row yields one component per reference of `row.get('Designator', '')`;
   * component `j` carries reference `j`, quantity 1 and the row's other columns.
   */
  lemma ExpandRowSpec(row: Row<string>, j: nat)
    requires WellFormed(row)
    ensures |ExpandRow(row)| == |Designators(GetOr(row, DESIGNATOR, ""))|
    ensures j < |ExpandRow(row)| ==>
      var c := ExpandRow(row)[j];
      && WellFormed(c)
      && Get(c, DESIGNATOR) == Some(Text(Designators(GetOr(row, DESIGNATOR, ""))[j]))
      && Get(c, QUANTITY) == Some(Count(1))
      && (forall k :: k != DESIGNATOR && k != QUANTITY ==> Get(c, k) == Get(Lift(row), k))
  {
    if DESIGNATOR in row.cells {
      if j < |ExpandRow(row)| {
        ExpandRefsAt(row, Designators(row.cells[DESIGNATOR]), j);
      }
    } else {
      assert Split("", ',') == [""];
      assert Strip("") == "";
    }
  }

  /** The components of all rows, row after row. */
  function ExpandAll(rows: seq<Row<string>>): seq<Row<Cell>> {
    FlatMap(rows, ExpandRow)
  }

  /** `load_bom` on rows already read from the CSV file (merge_panel.py, lines 45-63). */
  method LoadBom(rows: seq<Row<string>>) returns (components: seq<Row<Cell>>)
    ensures components == ExpandAll(rows)
  {
    components := [];
    var i := 0;
    while i < |rows|
      invariant 0 <= i <= |rows|
      invariant components == FlatMap(rows[..i], ExpandRow)
    {
      var row := rows[i];
      var designators := Designators(GetOr(row, DESIGNATOR, ""));
      components := AppendComponents(components, row, designators);
      ExpandRowIsRefs(row);
      FlatMapStep(rows, i, ExpandRow);
      i := i + 1;
    }
    FlatMapDone(rows, ExpandRow);
  }

  /** The inner loop of `load_bom`: one copy of `row` appended per reference. */
  method AppendComponents(components: seq<Row<Cell>>, row: Row<string>, refs: seq<string>)
    returns (out: seq<Row<Cell>>)
    ensures out == components + ExpandRefs(row, refs)
  {
    out := components;
    var j := 0;
    while j < |refs|
      invariant 0 <= j <= |refs|
      invariant out == components + ExpandRefs(row, refs)[..j]
    {
      ExpandRefsStep(row, refs, j);
      var comp := Component(row, refs[j]);
      out := out + [comp];
      j := j + 1;
    }
    assert ExpandRefs(row, refs)[..j] == ExpandRefs(row, refs);
  }

  /** A component row as `load_bom` leaves it. */
  ghost predicate Loaded(c: Row<Cell>) {
    && WellFormed(c)
    && HasText(c, DESIGNATOR) && CleanRef(c.cells[DESIGNATOR].text)
    && Get(c, QUANTITY) == Some(Count(1))
  }

  /** The number of references listed across all rows. */
  function RefCount(rows: seq<Row<string>>): nat {
    if rows == [] then 0
    else RefCount(rows[..|rows| - 1]) + |Designators(DesignatorField(rows[|rows| - 1]))|
  }

  lemma ExpandRefsLoaded(row: Row<string>, refs: seq<string>)
    requires WellFormed(row) && forall i :: 0 <= i < |refs| ==> CleanRef(refs[i])
    ensures forall j :: 0 <= j < |refs| ==> Loaded(ExpandRefs(row, refs)[j])
  {
    forall j | 0 <= j < |refs| ensures Loaded(ExpandRefs(row, refs)[j]) {
      ExpandRefsAt(row, refs, j);
    }
  }

  /** The components of one row are as `load_bom` leaves them, one per listed reference. */
  lemma ExpandRowLoaded(row: Row<string>)
    requires WellFormed(row)
    ensures |ExpandRow(row)| == |Designators(DesignatorField(row))|
    ensures forall j :: 0 <= j < |ExpandRow(row)| ==> Loaded(ExpandRow(row)[j])
  {
    ExpandRowIsRefs(row);
    ExpandRefsLoaded(row, Designators(DesignatorField(row)));
  }

  /** Every component has one clean reference and quantity 1, and there is one per listed reference. */
  lemma {:induction false} ExpandAllLoaded(rows: seq<Row<string>>)
    requires forall i :: 0 <= i < |rows| ==> WellFormed(rows[i])
    ensures |ExpandAll(rows)| == RefCount(rows)
    ensures forall i :: 0 <= i < |ExpandAll(rows)| ==> Loaded(ExpandAll(rows)[i])
  {
    if rows != [] {
      var init, row := rows[..|rows| - 1], rows[|rows| - 1];
      ExpandAllLoaded(init);
      ExpandRowLoaded(row);
      var a, b := ExpandAll(init), ExpandRow(row);
      assert ExpandAll(rows) == a + b;
      forall i | 0 <= i < |a + b| ensures Loaded((a + b)[i]) {
        if i >= |a| {
          assert (a + b)[i] == b[i - |a|];
        } else {
          assert (a + b)[i] == a[i];
        }
      }
    }
  }

  /** The components of consecutive blocks of rows follow each other in the same order. */
  lemma ExpandAllAppend(a: seq<Row<string>>, b: seq<Row<string>>)
    ensures ExpandAll(a + b) == ExpandAll(a) + ExpandAll(b)
  {
    FlatMapAppend(a, b, ExpandRow);
  }

  ghost predicate AllBlank(parts: seq<string>) {
    forall i :: 0 <= i < |parts| ==> AllSpace(parts[i])
  }

  lemma AllBlankCons(x: string, xs: seq<string>)
    ensures AllBlank([x] + xs) <==> AllSpace(x) && AllBlank(xs)
  {
    var s := [x] + xs;
    if AllSpace(x) && AllBlank(xs) {
      forall i | 0 <= i < |s| ensures AllSpace(s[i]) {
        if i > 0 { assert s[i] == xs[i - 1]; }
      }
    }
    if AllBlank(s) {
      assert AllSpace(s[0]);
      forall i | 0 <= i < |xs| ensures AllSpace(xs[i]) {
        assert xs[i] == s[i + 1];
      }
    }
  }

  lemma {:induction false} SplitAllBlank(s: string)
    ensures BlankField(s) <==> AllBlank(Split(s, ','))
  {
    if |s| > 0 {
      SplitAllBlank(s[1..]);
      var rest := Split(s[1..], ',');
      var parts := Split(s, ',');
      assert BlankField(s) <==> (s[0] == ',' || IsSpace(s[0])) && BlankField(s[1..]) by {
        assert forall i :: 1 <= i < |s| ==> s[i] == s[1..][i - 1];
      }
      if s[0] != ',' {
        assert parts == [[s[0]] + rest[0]] + rest[1..];
        AllSpaceCons(s[0], rest[0]);
        AllBlankCons([s[0]] + rest[0], rest[1..]);
        AllBlankCons(rest[0], rest[1..]);
        assert rest == [rest[0]] + rest[1..];
      } else {
        assert parts == [""] + rest;
        AllBlankCons("", rest);
      }
    }
  }

  lemma TokensEmpty(parts: seq<string>)
    ensures Tokens(parts) == [] <==> AllBlank(parts)
  {
    FlatMapEmpty(parts, Token);
    forall i | 0 <= i < |parts| ensures Token(parts[i]) == [] <==> AllSpace(parts[i]) {
      StripEmpty(parts[i]);
    }
  }

  /** A field yields no reference exactly when it holds nothing but commas and white space. */
  lemma NoDesignatorsIffBlank(raw: string)
    ensures Designators(raw) == [] <==> BlankField(raw)
  {
    SplitAllBlank(raw);
    TokensEmpty(Split(raw, ','));
  }

  lemma {:induction false} SplitConcat(a: string, b: string, sep: char)
    ensures Split(a + [sep] + b, sep) == Split(a, sep) + Split(b, sep)
  {
    var s := a + [sep] + b;
    if a == [] {
      assert s[0] == sep && s[1..] == b;
    } else {
      assert s[0] == a[0] && s[1..] == a[1..] + [sep] + b;
      SplitConcat(a[1..], b, sep);
    }
  }

  lemma TokensConcat(x: seq<string>, y: seq<string>)
    ensures Tokens(x + y) == Tokens(x) + Tokens(y)
  {
    FlatMapAppend(x, y, Token);
  }

  /** Left-to-right order: the references before a comma come before those after it. */
  lemma DesignatorsConcat(a: string, b: string)
    ensures Designators(a + "," + b) == Designators(a) + Designators(b)
  {
    SplitConcat(a, b, ',');
    TokensConcat(Split(a, ','), Split(b, ','));
  }

  lemma DesignatorsOfOne(p: string, r: string)
    requires AllSpace(p) && CleanRef(r)
    ensures Designators(p + r) == [r]
  {
    assert p + r == p + r + "";
    StripAroundCore(p, r, "");
    assert ',' !in p + r by {
      forall i | 0 <= i < |p + r| ensures (p + r)[i] != ',' {
        if i < |p| { assert (p + r)[i] == p[i]; } else { assert (p + r)[i] == r[i - |p|]; }
      }
    }
    SplitNoSeparator(p + r, ',');
    TokensCons([p + r]);
    assert [p + r][1..] == [];
  }

  /** The first reference of a joined list, then the references after its ", ". */
  lemma DesignatorsOfJoinFirst(p: string, refs: seq<string>)
    requires AllSpace(p) && |refs| >= 2 && CleanRef(refs[0])
    ensures Designators(p + Join(refs, ", ")) == [refs[0]] + Designators(" " + Join(refs[1..], ", "))
  {
    var rest := Join(refs[1..], ", ");
    assert Join(refs, ", ") == refs[0] + ", " + rest;
    JoinRegroup(p, refs[0], rest);
    DesignatorsConcat(p + refs[0], " " + rest);
    DesignatorsOfOne(p, refs[0]);
  }

  lemma {:induction false} DesignatorsOfJoinAfter(p: string, refs: seq<string>)
    requires AllSpace(p) && |refs| >= 1
    requires forall i :: 0 <= i < |refs| ==> CleanRef(refs[i])
    ensures Designators(p + Join(refs, ", ")) == refs
    decreases |refs|
  {
    if |refs| == 1 {
      DesignatorsOfOne(p, refs[0]);
    } else {
      assert AllSpace(" ");
      DesignatorsOfJoinAfter(" ", refs[1..]);
      DesignatorsOfJoinFirst(p, refs);
      assert [refs[0]] + refs[1..] == refs;
    }
  }

  lemma JoinRegroup(p: string, first: string, rest: string)
    ensures p + (first + ", " + rest) == (p + first) + "," + (" " + rest)
  {
  }

  /**
   * Round trip with the flattened BOM: a designator field written as
   * `", ".join(refs)` reads back as exactly `refs`.
   */
  lemma DesignatorsOfJoin(refs: seq<string>)
    requires forall i :: 0 <= i < |refs| ==> CleanRef(refs[i])
    ensures Designators(Join(refs, ", ")) == refs
  {
    if refs == [] {
      assert Split("", ',') == [""];
    } else {
      assert "" + Join(refs, ", ") == Join(refs, ", ");
      DesignatorsOfJoinAfter("", refs);
    }
  }

  /** The grouped field "C1, C2, C3" expands to three references. */
  lemma ThreeCapacitors()
    ensures Designators("C1, C2, C3") == ["C1", "C2", "C3"]
  {
    var refs := ["C1", "C2", "C3"];
    assert Join(refs, ", ") == "C1, C2, C3";
    DesignatorsOfJoin(refs);
  }
}
