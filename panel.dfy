/**
 * The instance loop of `main()`: every board instance of the panel re-emits
 * the placement rows and BOM rows of its source design, with designators
 * prefixed by `B<instance number>_` and placements moved into panel coordinates.
 */
module Panel {
  import opened Wrappers
  import opened Strings
  import opened Records
  import opened Angles
  import opened PositionLoader
  import opened BomLoader
  import opened Seqs

  const LAYER := "Layer"

  /** One `GerberInstance` of the panel layout: source design, centre offset and angle. */
  datatype Instance = Instance(path: string, xOffset: real, yOffset: real, angle: int)

  /** What was loaded for one source design: its components and its parsed placements. */
  datatype Design = Design(bom: seq<Row<Cell>>, positions: seq<Position>)

  /** A row of the merged pick-and-place output (before number formatting). */
  datatype Placed = Placed(designator: string, x: real, y: real, rotation: int, layer: string)

  /** `f"B{i+1}_"` for the instance at 0-based index `i`. */
  function Prefix(i: nat): (p: string)
    ensures |p| >= 3 && p[0] == 'B' && p[|p| - 1] == '_'
  {
    "B" + DecimalString(i + 1) + "_"
  }

  /** The number of decimal digits `s` starts with. */
  function DigitRun(s: string): (n: nat)
    ensures n <= |s| && AllDigits(s[..n])
    ensures n < |s| ==> !IsDigit(s[n])
  {
    if |s| > 0 && IsDigit(s[0]) then
      var n := 1 + DigitRun(s[1..]);
      assert s[..n] == [s[0]] + s[1..][..n - 1];
      n
    else 0
  }

  /** Reads back the 0-based instance index from a prefixed designator. */
  function InstanceIndex(s: string): Option<nat> {
    if |s| == 0 || s[0] != 'B' then None
    else
      var n := DigitRun(s[1..]);
      if n == 0 || 1 + n >= |s| || s[1 + n] != '_' then None
      else
        assert s[1..1 + n] == s[1..][..n];
        var v := ParseDecimal(s[1..1 + n]);
        if v == 0 then None else Some(v - 1)
  }

  lemma {:induction false} DigitRunStops(d: string, rest: string)
    requires AllDigits(d)
    ensures DigitRun(d + "_" + rest) == |d|
  {
    if d != [] {
      assert (d + "_" + rest)[1..] == d[1..] + "_" + rest;
      DigitRunStops(d[1..], rest);
    } else {
      assert (d + "_" + rest)[0] == '_';
    }
  }

  /** The instance index can be read back from any designator the instance loop produces. */
  lemma InstanceIndexOfPrefixed(i: nat, ref: string)
    ensures InstanceIndex(Prefix(i) + ref) == Some(i)
  {
    var d := DecimalString(i + 1);
    var s := Prefix(i) + ref;
    assert s == "B" + (d + "_" + ref);
    assert s[1..] == d + "_" + ref;
    DigitRunStops(d, ref);
    assert s[1..1 + |d|] == d;
  }

  /** Designators of two different instances never collide, whatever the original references. */
  lemma PrefixedNeverCollide(i: nat, j: nat, a: string, b: string)
    requires i != j
    ensures Prefix(i) + a != Prefix(j) + b
  {
    InstanceIndexOfPrefixed(i, a);
    InstanceIndexOfPrefixed(j, b);
  }

  /** A prefixed reference is still a single clean reference. */
  lemma PrefixedClean(i: nat, ref: string)
    requires CleanRef(ref)
    ensures CleanRef(Prefix(i) + ref)
  {
    var p, s := Prefix(i), Prefix(i) + ref;
    assert s[0] == 'B' && s[|s| - 1] == ref[|ref| - 1];
    assert ',' !in p by {
      var d := DecimalString(i + 1);
      assert p == "B" + d + "_";
      forall k | 0 <= k < |p| ensures p[k] != ',' {
        if 1 <= k <= |d| { assert p[k] == d[k - 1]; }
      }
    }
    forall k | 0 <= k < |s| ensures s[k] != ',' {
      if k < |p| { assert s[k] == p[k]; } else { assert s[k] == ref[k - |p|]; }
    }
  }

  /** Columns the instance loop reads from a placement row. */
  predicate Placeable(p: Position) {
    DESIGNATOR in p.cells.cells && LAYER in p.cells.cells
  }

  /** What the instance loop needs of a loaded design. */
  ghost predicate ValidDesign(d: Design) {
    && (forall j :: 0 <= j < |d.positions| ==> Placeable(d.positions[j]))
    && (forall j :: 0 <= j < |d.bom| ==> WellFormed(d.bom[j]) && HasText(d.bom[j], DESIGNATOR))
  }

  /** Every instance's design has been loaded (`source_data[inst["path"]]` never fails). */
  ghost predicate Covers(instances: seq<Instance>, source: map<string, Design>) {
    forall i :: 0 <= i < |instances| ==> instances[i].path in source && ValidDesign(source[instances[i].path])
  }

  /**
   * One merged placement row: the designator gets the instance prefix, the point is
   * rotated by `rotate` (the trigonometry of `rotate_point`) and translated by the
   * instance centre, and the rotation becomes `normalize_angle(rotation + angle)`.
   */
  function Place(p: Position, inst: Instance, i: nat, rotate: (real, real, int) -> (real, real)): (r: Placed)
    requires Placeable(p)
    ensures r.designator == Prefix(i) + p.cells.cells[DESIGNATOR]
    ensures 0 <= r.rotation < 360 && (r.rotation - (p.rotation + inst.angle)) % 360 == 0
    ensures r.layer == p.cells.cells[LAYER]
    ensures r.x == rotate(p.x, p.y, inst.angle).0 + inst.xOffset
    ensures r.y == rotate(p.x, p.y, inst.angle).1 + inst.yOffset
  {
    var (rx, ry) := rotate(p.x, p.y, inst.angle);
    Placed(Prefix(i) + p.cells.cells[DESIGNATOR], rx + inst.xOffset, ry + inst.yOffset,
           NormalizeAngle(p.rotation + inst.angle), p.cells.cells[LAYER])
  }

  /** One merged BOM row: a copy of the component whose designator gets the instance prefix. */
  function Rename(row: Row<Cell>, i: nat): (r: Row<Cell>)
    requires HasText(row, DESIGNATOR)
    ensures Get(r, DESIGNATOR) == Some(Text(Prefix(i) + row.cells[DESIGNATOR].text))
    ensures WellFormed(row) ==> WellFormed(r) && SameExcept(row, r, DESIGNATOR)
  {
    Set(row, DESIGNATOR, Text(Prefix(i) + row.cells[DESIGNATOR].text))
  }

  /** The placement rows instance `i` contributes, in the design's row order. */
  function InstancePlacements(d: Design, inst: Instance, i: nat, rotate: (real, real, int) -> (real, real))
    : (ps: seq<Placed>)
    requires ValidDesign(d)
    ensures |ps| == |d.positions|
    ensures forall j :: 0 <= j < |ps| ==> ps[j] == Place(d.positions[j], inst, i, rotate)
  {
    seq(|d.positions|, j requires 0 <= j < |d.positions| => Place(d.positions[j], inst, i, rotate))
  }

  /** The BOM rows instance `i` contributes, in the design's row order. */
  function InstanceBom(d: Design, i: nat): (rs: seq<Row<Cell>>)
    requires ValidDesign(d)
    ensures |rs| == |d.bom|
    ensures forall j :: 0 <= j < |rs| ==> rs[j] == Rename(d.bom[j], i)
  {
    seq(|d.bom|, j requires 0 <= j < |d.bom| => Rename(d.bom[j], i))
  }

  /** `merged_pos_rows` after the first `n` instances. */
  function MergedPlacements(instances: seq<Instance>, source: map<string, Design>,
                            rotate: (real, real, int) -> (real, real), n: nat): seq<Placed>
    requires n <= |instances| && Covers(instances, source)
  {
    if n == 0 then []
    else
      var inst := instances[n - 1];
      MergedPlacements(instances, source, rotate, n - 1) + InstancePlacements(source[inst.path], inst, n - 1, rotate)
  }

  /** `merged_bom_rows` after the first `n` instances. */
  function MergedBom(instances: seq<Instance>, source: map<string, Design>, n: nat): seq<Row<Cell>>
    requires n <= |instances| && Covers(instances, source)
  {
    if n == 0 then []
    else MergedBom(instances, source, n - 1) + InstanceBom(source[instances[n - 1].path], n - 1)
  }

  /** The number of placement rows of the designs of the first `n` instances. */
  function PlacementCount(instances: seq<Instance>, source: map<string, Design>, n: nat): nat
    requires n <= |instances| && Covers(instances, source)
  {
    if n == 0 then 0
    else PlacementCount(instances, source, n - 1) + |source[instances[n - 1].path].positions|
  }

  /** The number of component rows of the designs of the first `n` instances. */
  function ComponentCount(instances: seq<Instance>, source: map<string, Design>, n: nat): nat
    requires n <= |instances| && Covers(instances, source)
  {
    if n == 0 then 0
    else ComponentCount(instances, source, n - 1) + |source[instances[n - 1].path].bom|
  }

  /**
   * The instance loop (merge_panel.py, lines 144-181): instances in layout
   * order; within an instance first every placement row, then every BOM row.
   */
  method MergeInstances(instances: seq<Instance>, source: map<string, Design>,
                        rotate: (real, real, int) -> (real, real))
    returns (mergedPos: seq<Placed>, mergedBom: seq<Row<Cell>>)
    requires Covers(instances, source)
    ensures mergedPos == MergedPlacements(instances, source, rotate, |instances|)
    ensures mergedBom == MergedBom(instances, source, |instances|)
  {
    mergedPos, mergedBom := [], [];
    var i := 0;
    while i < |instances|
      invariant 0 <= i <= |instances|
      invariant mergedPos == MergedPlacements(instances, source, rotate, i)
      invariant mergedBom == MergedBom(instances, source, i)
    {
      var inst := instances[i];
      var prefix := "B" + DecimalString(i + 1) + "_";
      var src := source[inst.path];
      var j := 0;
      while j < |src.positions|
        invariant 0 <= j <= |src.positions|
        invariant mergedPos == MergedPlacements(instances, source, rotate, i) + InstancePlacements(src, inst, i, rotate)[..j]
        invariant mergedBom == MergedBom(instances, source, i)
      {
        var pos := src.positions[j];
        var newRef := prefix + pos.cells.cells[DESIGNATOR];
        var (rx, ry) := rotate(pos.x, pos.y, inst.angle);
        var finalX := rx + inst.xOffset;
        var finalY := ry + inst.yOffset;
        var finalRot := NormalizeAngle(pos.rotation + inst.angle);
        TakeStep(InstancePlacements(src, inst, i, rotate), j);
        mergedPos := mergedPos + [Placed(newRef, finalX, finalY, finalRot, pos.cells.cells[LAYER])];
        j := j + 1;
      }
      TakeAll(InstancePlacements(src, inst, i, rotate));
      j := 0;
      while j < |src.bom|
        invariant 0 <= j <= |src.bom|
        invariant mergedPos == MergedPlacements(instances, source, rotate, i + 1)
        invariant mergedBom == MergedBom(instances, source, i) + InstanceBom(src, i)[..j]
      {
        var bom := src.bom[j];
        var newRow := Set(bom, DESIGNATOR, Text(prefix + bom.cells[DESIGNATOR].text));
        TakeStep(InstanceBom(src, i), j);
        mergedBom := mergedBom + [newRow];
        j := j + 1;
      }
      TakeAll(InstanceBom(src, i));
      i := i + 1;
    }
  }

  /** One merged placement row per placement row of each instance's design. */
  lemma {:induction false} MergedPlacementsLength(instances: seq<Instance>, source: map<string, Design>,
                                                  rotate: (real, real, int) -> (real, real), n: nat)
    requires n <= |instances| && Covers(instances, source)
    ensures |MergedPlacements(instances, source, rotate, n)| == PlacementCount(instances, source, n)
  {
    if n > 0 {
      MergedPlacementsLength(instances, source, rotate, n - 1);
    }
  }

  /** One merged BOM row per component row of each instance's design. */
  lemma {:induction false} MergedBomLength(instances: seq<Instance>, source: map<string, Design>, n: nat)
    requires n <= |instances| && Covers(instances, source)
    ensures |MergedBom(instances, source, n)| == ComponentCount(instances, source, n)
  {
    if n > 0 {
      MergedBomLength(instances, source, n - 1);
    }
  }

  /**
   * Instance order, then row order: placement row `j` of instance `i` sits right
   * after the rows of the instances before it.
   */
  lemma {:induction false} MergedPlacementsAt(instances: seq<Instance>, source: map<string, Design>,
                                              rotate: (real, real, int) -> (real, real), n: nat, i: nat, j: nat)
    requires n <= |instances| && Covers(instances, source)
    requires i < n && j < |source[instances[i].path].positions|
    ensures PlacementCount(instances, source, i) + j < |MergedPlacements(instances, source, rotate, n)|
    ensures MergedPlacements(instances, source, rotate, n)[PlacementCount(instances, source, i) + j]
         == Place(source[instances[i].path].positions[j], instances[i], i, rotate)
  {
    MergedPlacementsLength(instances, source, rotate, n - 1);
    if i < n - 1 {
      MergedPlacementsAt(instances, source, rotate, n - 1, i, j);
    }
  }

  /** Component row `j` of instance `i` sits right after the rows of the instances before it. */
  lemma {:induction false} MergedBomAt(instances: seq<Instance>, source: map<string, Design>, n: nat, i: nat, j: nat)
    requires n <= |instances| && Covers(instances, source)
    requires i < n && j < |source[instances[i].path].bom|
    ensures ComponentCount(instances, source, i) + j < |MergedBom(instances, source, n)|
    ensures MergedBom(instances, source, n)[ComponentCount(instances, source, i) + j]
         == Rename(source[instances[i].path].bom[j], i)
  {
    MergedBomLength(instances, source, n - 1);
    if i < n - 1 {
      MergedBomAt(instances, source, n - 1, i, j);
    }
  }

  /** Every merged placement row names the instance it came from, one of the first `n`. */
  lemma {:induction false} MergedPlacementsTagged(instances: seq<Instance>, source: map<string, Design>,
                                                  rotate: (real, real, int) -> (real, real), n: nat)
    requires n <= |instances| && Covers(instances, source)
    ensures forall k :: 0 <= k < |MergedPlacements(instances, source, rotate, n)| ==>
      var t := InstanceIndex(MergedPlacements(instances, source, rotate, n)[k].designator);
      t.Some? && t.value < n
  {
    if n > 0 {
      MergedPlacementsTagged(instances, source, rotate, n - 1);
      var a: seq<Placed> := MergedPlacements(instances, source, rotate, n - 1);
      var inst := instances[n - 1];
      var b: seq<Placed> := InstancePlacements(source[inst.path], inst, n - 1, rotate);
      var ab: seq<Placed> := a + b;
      forall k | 0 <= k < |ab|
        ensures var t := InstanceIndex(ab[k].designator); t.Some? && t.value < n
      {
        if k < |a| {
          assert ab[k] == a[k];
        } else {
          assert ab[k] == b[k - |a|];
          InstanceIndexOfPrefixed(n - 1, source[inst.path].positions[k - |a|].cells.cells[DESIGNATOR]);
        }
      }
    }
  }

  ghost predicate DistinctDesignators(ps: seq<Placed>) {
    forall k1, k2 :: 0 <= k1 < k2 < |ps| ==> ps[k1].designator != ps[k2].designator
  }

  /** The placement rows of a design name distinct components. */
  ghost predicate DistinctRefs(d: Design)
    requires ValidDesign(d)
  {
    forall j1, j2 :: 0 <= j1 < j2 < |d.positions| ==>
      d.positions[j1].cells.cells[DESIGNATOR] != d.positions[j2].cells.cells[DESIGNATOR]
  }

  /**
   * No collisions across board copies: when every source design names its
   * placements distinctly, so does the merged placement list.
   */
  lemma {:induction false} MergedPlacementsDistinct(instances: seq<Instance>, source: map<string, Design>,
                                                    rotate: (real, real, int) -> (real, real), n: nat)
    requires n <= |instances| && Covers(instances, source)
    requires forall i :: 0 <= i < |instances| ==> DistinctRefs(source[instances[i].path])
    ensures DistinctDesignators(MergedPlacements(instances, source, rotate, n))
  {
    if n > 0 {
      MergedPlacementsDistinct(instances, source, rotate, n - 1);
      MergedPlacementsTagged(instances, source, rotate, n - 1);
      var a := MergedPlacements(instances, source, rotate, n - 1);
      var inst := instances[n - 1];
      var d := source[inst.path];
      var b := InstancePlacements(d, inst, n - 1, rotate);
      var ab := a + b;
      forall k1, k2 | 0 <= k1 < k2 < |ab| ensures ab[k1].designator != ab[k2].designator {
        if k2 < |a| {
          assert ab[k1] == a[k1] && ab[k2] == a[k2];
        } else if k1 >= |a| {
          assert ab[k1] == b[k1 - |a|] && ab[k2] == b[k2 - |a|];
          var r1 := d.positions[k1 - |a|].cells.cells[DESIGNATOR];
          var r2 := d.positions[k2 - |a|].cells.cells[DESIGNATOR];
          assert r1 != r2;
          assert (Prefix(n - 1) + r1)[|Prefix(n - 1)|..] == r1;
          assert (Prefix(n - 1) + r2)[|Prefix(n - 1)|..] == r2;
        } else {
          assert ab[k1] == a[k1] && ab[k2] == b[k2 - |a|];
          InstanceIndexOfPrefixed(n - 1, d.positions[k2 - |a|].cells.cells[DESIGNATOR]);
        }
      }
    }
  }

  /**
   * Every merged BOM row is a component as `load_bom` leaves it when the
   * designs' components are: one clean designator, now prefixed, and quantity 1.
   */
  lemma {:induction false} MergedBomLoaded(instances: seq<Instance>, source: map<string, Design>, n: nat)
    requires n <= |instances| && Covers(instances, source)
    requires forall i, j :: 0 <= i < |instances| && 0 <= j < |source[instances[i].path].bom| ==>
      Loaded(source[instances[i].path].bom[j])
    ensures forall k :: 0 <= k < |MergedBom(instances, source, n)| ==> Loaded(MergedBom(instances, source, n)[k])
  {
    if n > 0 {
      MergedBomLoaded(instances, source, n - 1);
      var a := MergedBom(instances, source, n - 1);
      var d := source[instances[n - 1].path];
      var b := InstanceBom(d, n - 1);
      forall k | 0 <= k < |a + b| ensures Loaded((a + b)[k]) {
        if k < |a| {
          assert (a + b)[k] == a[k];
        } else {
          var row := d.bom[k - |a|];
          assert (a + b)[k] == b[k - |a|] == Rename(row, n - 1);
          assert Loaded(row);
          PrefixedClean(n - 1, row.cells[DESIGNATOR].text);
          assert Get(Rename(row, n - 1), QUANTITY) == Get(row, QUANTITY);
        }
      }
    }
  }

  /** Design "A": one placement, `R1` at (5, 10) turned 90 degrees on the top layer. */
  const R1_ROW: Row<string> := Row([DESIGNATOR, LAYER], map[DESIGNATOR := "R1", LAYER := "Top"])
  const DESIGN_A := Design([], [Position(R1_ROW, 5.0, 10.0, 90)])

  /** Two copies of design "A": one at the origin unturned, one at (100, 0) turned half a turn. */
  const TWO_BOARDS := [Instance("A", 0.0, 0.0, 0), Instance("A", 100.0, 0.0, 180)]

  lemma R1Cells()
    ensures Placeable(DESIGN_A.positions[0])
    ensures R1_ROW.cells[DESIGNATOR] == "R1" && R1_ROW.cells[LAYER] == "Top"
  {
    assert DESIGNATOR != LAYER;
  }

  lemma FirstTwoPrefixes()
    ensures Prefix(0) == "B1_" && Prefix(1) == "B2_"
  {
    assert DecimalString(1) == "1" && DecimalString(2) == "2";
  }

  /** The copy of `R1` on the first board, which the layout leaves in place. */
  lemma FirstCopy(rotate: (real, real, int) -> (real, real))
    requires rotate(5.0, 10.0, 0) == (5.0, 10.0)
    ensures Placeable(DESIGN_A.positions[0])
    ensures Place(DESIGN_A.positions[0], TWO_BOARDS[0], 0, rotate) == Placed("B1_R1", 5.0, 10.0, 90, "Top")
  {
    R1Cells();
    FirstTwoPrefixes();
    assert TWO_BOARDS[0].angle == 0 && TWO_BOARDS[0].xOffset == 0.0 && TWO_BOARDS[0].yOffset == 0.0;
  }

  /** The copy of `R1` on the second board, turned half a turn and moved to (100, 0). */
  lemma SecondCopy(rotate: (real, real, int) -> (real, real))
    requires rotate(5.0, 10.0, 180) == (-5.0, -10.0)
    ensures Placeable(DESIGN_A.positions[0])
    ensures Place(DESIGN_A.positions[0], TWO_BOARDS[1], 1, rotate) == Placed("B2_R1", 95.0, -10.0, 270, "Top")
  {
    R1Cells();
    FirstTwoPrefixes();
    assert TWO_BOARDS[1].angle == 180 && TWO_BOARDS[1].xOffset == 100.0 && TWO_BOARDS[1].yOffset == 0.0;
    assert NormalizeAngle(90 + 180) == 270;
  }

  /**
   * The two copies of `R1`: `B1_R1` stays where it was, `B2_R1` lands at
   * (95, -10) turned to 270 degrees, given the trigonometry of `rotate_point`
   * at 0 and 180 degrees.
   */
  lemma TwoBoardsOfOneDesign(rotate: (real, real, int) -> (real, real))
    requires rotate(5.0, 10.0, 0) == (5.0, 10.0)
    requires rotate(5.0, 10.0, 180) == (-5.0, -10.0)
    ensures Covers(TWO_BOARDS, map["A" := DESIGN_A])
    ensures MergedPlacements(TWO_BOARDS, map["A" := DESIGN_A], rotate, 2)
         == [Placed("B1_R1", 5.0, 10.0, 90, "Top"), Placed("B2_R1", 95.0, -10.0, 270, "Top")]
  {
    FirstCopy(rotate);
    SecondCopy(rotate);
    var source := map["A" := DESIGN_A];
    assert source[TWO_BOARDS[0].path] == DESIGN_A && source[TWO_BOARDS[1].path] == DESIGN_A;
    assert MergedPlacements(TWO_BOARDS, source, rotate, 1) == [Placed("B1_R1", 5.0, 10.0, 90, "Top")];
  }
}
