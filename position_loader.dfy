/**
 * `load_positions`: pick-and-place rows whose coordinates and rotation parse as
 * numbers are kept, in file order; any other row is skipped.
 */
module PositionLoader {
  import opened Wrappers
  import opened Records

  const MID_X := "Mid X"
  const MID_Y := "Mid Y"
  const ROTATION := "Rotation"

  /**
   * A kept pick-and-place row: its columns as read, and the parsed values of
   * `Mid X`, `Mid Y` (millimetres) and `Rotation` (whole degrees).
   */
  datatype Position = Position(cells: Row<string>, x: real, y: real, rotation: int)

  /** The columns `load_positions` indexes; a file without them stops the program. */
  predicate HasCoordinateColumns(row: Row<string>) {
    MID_X in row.cells && MID_Y in row.cells && ROTATION in row.cells
  }

  /**
   * The three `float(...)` conversions of one row; `None` where Python raises
   * `ValueError`. The number parsers are supplied by the caller.
   */
  function ParseRow(row: Row<string>, parseCoord: string -> Option<real>, parseAngle: string -> Option<int>)
    : (p: Option<Position>)
    requires HasCoordinateColumns(row)
    ensures p.Some? <==>
      parseCoord(row.cells[MID_X]).Some? && parseCoord(row.cells[MID_Y]).Some? && parseAngle(row.cells[ROTATION]).Some?
    ensures p.Some? ==>
      && p.value.cells == row
      && Some(p.value.x) == parseCoord(row.cells[MID_X])
      && Some(p.value.y) == parseCoord(row.cells[MID_Y])
      && Some(p.value.rotation) == parseAngle(row.cells[ROTATION])
  {
    match parseCoord(row.cells[MID_X])
    case None => None
    case Some(x) =>
      match parseCoord(row.cells[MID_Y])
      case None => None
      case Some(y) =>
        match parseAngle(row.cells[ROTATION])
        case None => None
        case Some(r) => Some(Position(row, x, y, r))
  }

  /** The parsed rows, in file order, without the rows that did not parse. */
  function PositionsOf(rows: seq<Row<string>>, parseCoord: string -> Option<real>, parseAngle: string -> Option<int>)
    : (ps: seq<Position>)
    requires forall i :: 0 <= i < |rows| ==> HasCoordinateColumns(rows[i])
    ensures |ps| <= |rows|
  {
    if rows == [] then []
    else
      var last := rows[|rows| - 1];
      PositionsOf(rows[..|rows| - 1], parseCoord, parseAngle)
        + match ParseRow(last, parseCoord, parseAngle) case Some(p) => [p] case None => []
  }

  /** `load_positions` on rows already read from the CSV file (merge_panel.py, lines 70-79). */
  method LoadPositions(rows: seq<Row<string>>, parseCoord: string -> Option<real>, parseAngle: string -> Option<int>)
    returns (positions: seq<Position>)
    requires forall i :: 0 <= i < |rows| ==> HasCoordinateColumns(rows[i])
    ensures positions == PositionsOf(rows, parseCoord, parseAngle)
  {
    positions := [];
    var i := 0;
    while i < |rows|
      invariant 0 <= i <= |rows|
      invariant positions == PositionsOf(rows[..i], parseCoord, parseAngle)
    {
      var parsed := ParseRow(rows[i], parseCoord, parseAngle);
      if parsed.Some? {
        positions := positions + [parsed.value];
      }
      assert rows[..i + 1][..i] == rows[..i];
      i := i + 1;
    }
    assert rows[..i] == rows;
  }

  /** Rows are handled one at a time: the kept rows of two blocks follow each other. */
  lemma {:induction false} PositionsOfAppend(a: seq<Row<string>>, b: seq<Row<string>>,
                                             parseCoord: string -> Option<real>, parseAngle: string -> Option<int>)
    requires forall i :: 0 <= i < |a| ==> HasCoordinateColumns(a[i])
    requires forall i :: 0 <= i < |b| ==> HasCoordinateColumns(b[i])
    ensures PositionsOf(a + b, parseCoord, parseAngle) == PositionsOf(a, parseCoord, parseAngle) + PositionsOf(b, parseCoord, parseAngle)
  {
    if b == [] {
      assert a + b == a;
    } else {
      var ab := a + b;
      assert ab[..|ab| - 1] == a + b[..|b| - 1];
      assert ab[|ab| - 1] == b[|b| - 1];
      PositionsOfAppend(a, b[..|b| - 1], parseCoord, parseAngle);
    }
  }

  /** A row is kept exactly when it parses: every kept position is a parsed row, and every parsed row is kept. */
  lemma {:induction false} PositionsOfMembers(rows: seq<Row<string>>,
                                              parseCoord: string -> Option<real>, parseAngle: string -> Option<int>)
    requires forall i :: 0 <= i < |rows| ==> HasCoordinateColumns(rows[i])
    ensures forall p :: p in PositionsOf(rows, parseCoord, parseAngle) <==>
      exists i :: 0 <= i < |rows| && ParseRow(rows[i], parseCoord, parseAngle) == Some(p)
  {
    if rows != [] {
      var init := rows[..|rows| - 1];
      PositionsOfMembers(init, parseCoord, parseAngle);
      forall p ensures p in PositionsOf(rows, parseCoord, parseAngle) <==>
        exists i :: 0 <= i < |rows| && ParseRow(rows[i], parseCoord, parseAngle) == Some(p)
      {
        if exists i :: 0 <= i < |rows| && ParseRow(rows[i], parseCoord, parseAngle) == Some(p) {
          var i :| 0 <= i < |rows| && ParseRow(rows[i], parseCoord, parseAngle) == Some(p);
          if i < |init| {
            assert init[i] == rows[i];
          }
        }
        if p in PositionsOf(init, parseCoord, parseAngle) {
          var i :| 0 <= i < |init| && ParseRow(init[i], parseCoord, parseAngle) == Some(p);
          assert rows[i] == init[i];
        }
      }
    }
  }
}
