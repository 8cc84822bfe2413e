/**
 * Aggregating the merged BOM (merge_panel.py, lines 188-207): component rows
 * are grouped by part type, the key being the `Footprint`, `Value` and
 * `LCSC Part #` cells (an empty string when a column is missing). Each group
 * keeps the first row of its part type, the designators of all its rows in
 * order and the sum of their quantities; groups come in the order their part
 * type was first seen, as a Python dictionary keeps them.
 */
module BomGrouping {
  import opened Wrappers
  import opened Records
  import opened Seqs

  /** The part type of a component row. */
  datatype Key = Key(footprint: Cell, value: Cell, lcscPart: Cell)

  /**
   * `tuple(row.get(k, "") for k in key_fields)`: the row's `Footprint`,
   * `Value` and `LCSC Part #` cells, with an empty text for a missing column.
   */
  function KeyOf(row: Row<Cell>): (key: Key)
    ensures Get(row, FOOTPRINT) == Some(key.footprint) || (Get(row, FOOTPRINT) == None && key.footprint == Text(""))
    ensures Get(row, VALUE) == Some(key.value) || (Get(row, VALUE) == None && key.value == Text(""))
    ensures Get(row, LCSC_PART) == Some(key.lcscPart) || (Get(row, LCSC_PART) == None && key.lcscPart == Text(""))
  {
    Key(GetOr(row, FOOTPRINT, Text("")), GetOr(row, VALUE, Text("")), GetOr(row, LCSC_PART, Text("")))
  }

  /** A row the loop can read `row["Designator"]` and an integer quantity from. */
  predicate Groupable(row: Row<Cell>) {
    HasText(row, DESIGNATOR) && QUANTITY in row.cells && row.cells[QUANTITY].Count?
  }

  predicate AllGroupable(rows: seq<Row<Cell>>) {
    forall i :: 0 <= i < |rows| ==> Groupable(rows[i])
  }

  function Ref(row: Row<Cell>): string
    requires Groupable(row)
  {
    row.cells[DESIGNATOR].text
  }

  function Qty(row: Row<Cell>): int
    requires Groupable(row)
  {
    row.cells[QUANTITY].count
  }

  /** One entry of `bom_grouped`: the kept row, the designators and the quantity. */
  datatype Group = Group(data: Row<Cell>, refs: seq<string>, qty: int)

  /** `bom_grouped`: the keys in insertion order and the entries. */
  datatype Grouping = Grouping(order: seq<Key>, groups: map<Key, Group>)

  /**
   * Every key is listed once, the listed keys are exactly the stored ones, and
   * each group keeps a row of its own part type.
   */
  ghost predicate Valid(g: Grouping) {
    && Distinct(g.order)
    && (forall k :: k in g.groups <==> k in g.order)
    && forall k :: k in g.groups ==> KeyOf(g.groups[k].data) == k
  }

  /** One pass of the loop body: the row joins the group of its part type, opening it if new. */
  function Add(g: Grouping, row: Row<Cell>): (next: Grouping)
    requires Groupable(row)
    ensures var key := KeyOf(row);
      && next.order == g.order + (if key in g.groups then [] else [key])
      && key in next.groups
      && next.groups[key].data == (if key in g.groups then g.groups[key].data else row)
      && next.groups[key].refs == (if key in g.groups then g.groups[key].refs else []) + [Ref(row)]
      && next.groups[key].qty == (if key in g.groups then g.groups[key].qty else 0) + Qty(row)
    ensures forall k :: k != KeyOf(row) ==>
      (k in next.groups <==> k in g.groups) && (k in g.groups ==> next.groups[k] == g.groups[k])
  {
    var key := KeyOf(row);
    if key in g.groups then
      var gr := g.groups[key];
      Grouping(g.order, g.groups[key := Group(gr.data, gr.refs + [Ref(row)], gr.qty + Qty(row))])
    else
      Grouping(g.order + [key], g.groups[key := Group(row, [Ref(row)], Qty(row))])
  }

  /** The grouping after the loop has visited every row. */
  function Aggregate(rows: seq<Row<Cell>>): Grouping
    requires AllGroupable(rows)
  {
    if rows == [] then Grouping([], map[])
    else Add(Aggregate(rows[..|rows| - 1]), rows[|rows| - 1])
  }

  /** The aggregation loop, updating the dictionary in place. */
  method GroupBom(rows: seq<Row<Cell>>) returns (g: Grouping)
    requires AllGroupable(rows)
    ensures g == Aggregate(rows)
  {
    var order: seq<Key> := [];
    var groups: map<Key, Group> := map[];
    for i := 0 to |rows|
      invariant Grouping(order, groups) == Aggregate(rows[..i])
    {
      AggregateLast(rows[..i + 1]);
      assert rows[..i + 1][..i] == rows[..i];
      order, groups := AddRow(order, groups, rows[i]);
    }
    assert rows[..|rows|] == rows;
    g := Grouping(order, groups);
  }

  /**
   * The loop body: a new part type gets an entry with no designators and
   * quantity 0, then the row's designator is appended and its quantity added.
   */
  method AddRow(order: seq<Key>, groups: map<Key, Group>, row: Row<Cell>)
    returns (order': seq<Key>, groups': map<Key, Group>)
    requires Groupable(row)
    ensures Grouping(order', groups') == Add(Grouping(order, groups), row)
  {
    order', groups' := order, groups;
    var key := KeyOf(row);
    if key !in groups' {
      groups' := groups'[key := Group(row, [], 0)];
      order' := order' + [key];
    }
    var gr := groups'[key];
    assert key !in groups ==> gr.refs + [Ref(row)] == [Ref(row)];
    groups' := groups'[key := Group(gr.data, gr.refs + [Ref(row)], gr.qty + Qty(row))];
  }

  /** Adding a row keeps every key listed once and the listing exact. */
  lemma AddValid(g: Grouping, row: Row<Cell>)
    requires Groupable(row) && Valid(g)
    ensures Valid(Add(g, row))
  {
  }

  /** The grouping is a well-formed insertion-ordered dictionary. */
  lemma {:induction false} AggregateValid(rows: seq<Row<Cell>>)
    requires AllGroupable(rows)
    ensures Valid(Aggregate(rows))
  {
    if rows != [] {
      AggregateValid(rows[..|rows| - 1]);
      AddValid(Aggregate(rows[..|rows| - 1]), rows[|rows| - 1]);
    }
  }

  // Reference definitions, read off the rows directly.

  /** The part type of every row, in row order. */
  function KeysOf(rows: seq<Row<Cell>>): (ks: seq<Key>)
    ensures |ks| == |rows|
    ensures forall i :: 0 <= i < |rows| ==> ks[i] == KeyOf(rows[i])
  {
    seq(|rows|, i requires 0 <= i < |rows| => KeyOf(rows[i]))
  }

  /** The designators of the rows of part type `k`, in row order. */
  function RefsWithKey(rows: seq<Row<Cell>>, k: Key): seq<string>
    requires AllGroupable(rows)
  {
    if rows == [] then []
    else
      var last := rows[|rows| - 1];
      RefsWithKey(rows[..|rows| - 1], k) + if KeyOf(last) == k then [Ref(last)] else []
  }

  /** The summed quantity of the rows of part type `k`. */
  function QtyWithKey(rows: seq<Row<Cell>>, k: Key): int
    requires AllGroupable(rows)
  {
    if rows == [] then 0
    else
      var last := rows[|rows| - 1];
      QtyWithKey(rows[..|rows| - 1], k) + if KeyOf(last) == k then Qty(last) else 0
  }

  /** The summed quantity of all rows. */
  function TotalQty(rows: seq<Row<Cell>>): int
    requires AllGroupable(rows)
  {
    if rows == [] then 0 else TotalQty(rows[..|rows| - 1]) + Qty(rows[|rows| - 1])
  }

  /** The summed quantity of the listed groups. */
  function GroupsTotal(order: seq<Key>, groups: map<Key, Group>): int {
    if order == [] then 0
    else
      var last := order[|order| - 1];
      GroupsTotal(order[..|order| - 1], groups) + if last in groups then groups[last].qty else 0
  }

  /** The grouping after one more row. */
  lemma AggregateLast(rows: seq<Row<Cell>>)
    requires AllGroupable(rows) && rows != []
    ensures Aggregate(rows) == Add(Aggregate(rows[..|rows| - 1]), rows[|rows| - 1])
  {
  }

  lemma LastKey(rows: seq<Row<Cell>>)
    requires rows != []
    ensures KeysOf(rows) == KeysOf(rows[..|rows| - 1]) + [KeyOf(rows[|rows| - 1])]
  {
  }

  /** A part type that no row has collects nothing. */
  lemma {:induction false} AbsentKey(rows: seq<Row<Cell>>, k: Key)
    requires AllGroupable(rows) && k !in KeysOf(rows)
    ensures RefsWithKey(rows, k) == [] && QtyWithKey(rows, k) == 0
  {
    if rows != [] {
      LastKey(rows);
      AbsentKey(rows[..|rows| - 1], k);
    }
  }

  /** `order` lists keys of `ks`, each after the keys whose first occurrence in `ks` comes earlier. */
  ghost predicate FirstSeenOrder(order: seq<Key>, ks: seq<Key>) {
    && (forall k :: k in order ==> k in ks)
    && forall m1, m2 :: 0 <= m1 < m2 < |order| ==> FirstIndex(ks, order[m1]) < FirstIndex(ks, order[m2])
  }

  lemma FirstSeenExtend(order: seq<Key>, ks: seq<Key>, key: Key)
    requires FirstSeenOrder(order, ks)
    ensures key in ks ==> FirstSeenOrder(order, ks + [key])
    ensures key !in ks ==> FirstSeenOrder(order + [key], ks + [key])
  {
    forall k | k in order ensures FirstIndex(ks + [key], k) == FirstIndex(ks, k) < |ks| {
      FirstIndexAppend(ks, [key], k);
    }
    if key !in ks {
      var ks', order' := ks + [key], order + [key];
      assert FirstIndex(ks', key) == |ks| by {
        assert ks'[..|ks|] == ks;
      }
      forall m1, m2 | 0 <= m1 < m2 < |order'|
        ensures FirstIndex(ks', order'[m1]) < FirstIndex(ks', order'[m2])
      {
        assert order'[m1] == order[m1];
        if m2 < |order| {
          assert order'[m2] == order[m2];
        }
      }
    }
  }

  /** One group per distinct part type among the rows. */
  lemma {:induction false} AggregateKeys(rows: seq<Row<Cell>>)
    requires AllGroupable(rows)
    ensures forall k :: k in Aggregate(rows).groups <==> k in KeysOf(rows)
  {
    if rows != [] {
      AggregateKeys(rows[..|rows| - 1]);
      AggregateLast(rows);
      LastKey(rows);
    }
  }

  /** The groups come in the order their part types first occur among the rows. */
  lemma {:induction false} AggregateOrder(rows: seq<Row<Cell>>)
    requires AllGroupable(rows)
    ensures FirstSeenOrder(Aggregate(rows).order, KeysOf(rows))
  {
    if rows != [] {
      var init, row := rows[..|rows| - 1], rows[|rows| - 1];
      AggregateOrder(init);
      AggregateKeys(init);
      AggregateLast(rows);
      LastKey(rows);
      FirstSeenExtend(Aggregate(init).order, KeysOf(init), KeyOf(row));
    }
  }

  /** The group of part type `k` keeps the first row of that type. */
  lemma {:induction false} AggregateGroupData(rows: seq<Row<Cell>>, k: Key)
    requires AllGroupable(rows) && k in KeysOf(rows)
    ensures k in Aggregate(rows).groups
    ensures Aggregate(rows).groups[k].data == rows[FirstIndex(KeysOf(rows), k)]
  {
    AggregateKeys(rows);
    var init := rows[..|rows| - 1];
    LastKey(rows);
    AggregateLast(rows);
    var ks, ks0 := KeysOf(rows), KeysOf(init);
    AggregateKeys(init);
    if k in ks0 {
      AggregateGroupData(init, k);
      FirstIndexAppend(ks0, [KeyOf(rows[|rows| - 1])], k);
      assert rows[FirstIndex(ks0, k)] == init[FirstIndex(ks0, k)];
    } else {
      assert FirstIndex(ks, k) == |init| by {
        assert ks[..|init|] == ks0;
      }
    }
  }

  /**
   * The group of part type `k` collects the designators of all rows of that
   * type in row order, and their summed quantity.
   */
  lemma {:induction false} AggregateGroup(rows: seq<Row<Cell>>, k: Key)
    requires AllGroupable(rows) && k in KeysOf(rows)
    ensures k in Aggregate(rows).groups
    ensures Aggregate(rows).groups[k].refs == RefsWithKey(rows, k)
    ensures Aggregate(rows).groups[k].qty == QtyWithKey(rows, k)
  {
    AggregateKeys(rows);
    var init := rows[..|rows| - 1];
    LastKey(rows);
    AggregateLast(rows);
    AggregateKeys(init);
    if k in KeysOf(init) {
      AggregateGroup(init, k);
    } else {
      AbsentKey(init, k);
    }
  }

  /** With every quantity 1, a group's quantity is the number of its designators. */
  lemma {:induction false} UnitQuantities(rows: seq<Row<Cell>>, k: Key)
    requires AllGroupable(rows) && forall i :: 0 <= i < |rows| ==> Qty(rows[i]) == 1
    ensures QtyWithKey(rows, k) == |RefsWithKey(rows, k)|
    ensures TotalQty(rows) == |rows|
  {
    if rows != [] {
      UnitQuantities(rows[..|rows| - 1], k);
    }
  }

  lemma {:induction false} GroupsTotalIgnores(order: seq<Key>, groups: map<Key, Group>, key: Key, gr: Group)
    requires key !in order
    ensures GroupsTotal(order, groups[key := gr]) == GroupsTotal(order, groups)
  {
    if order != [] {
      GroupsTotalIgnores(order[..|order| - 1], groups, key, gr);
    }
  }

  lemma {:induction false} GroupsTotalUpdate(order: seq<Key>, groups: map<Key, Group>, key: Key, gr: Group)
    requires key in groups && Distinct(order) && key in order
    ensures GroupsTotal(order, groups[key := gr]) == GroupsTotal(order, groups) - groups[key].qty + gr.qty
  {
    var init, last := order[..|order| - 1], order[|order| - 1];
    if last == key {
      assert key !in init;
      GroupsTotalIgnores(init, groups, key, gr);
    } else {
      GroupsTotalUpdate(init, groups, key, gr);
    }
  }

  /** Adding a row adds its quantity to the groups' total. */
  lemma AddTotal(g: Grouping, row: Row<Cell>)
    requires Groupable(row) && Valid(g)
    ensures GroupsTotal(Add(g, row).order, Add(g, row).groups) == GroupsTotal(g.order, g.groups) + Qty(row)
  {
    var key := KeyOf(row);
    if key in g.groups {
      var gr := g.groups[key];
      GroupsTotalUpdate(g.order, g.groups, key, Group(gr.data, gr.refs + [Ref(row)], gr.qty + Qty(row)));
    } else {
      var gr := Group(row, [Ref(row)], Qty(row));
      var order := g.order + [key];
      assert order[..|order| - 1] == g.order;
      GroupsTotalIgnores(g.order, g.groups, key, gr);
    }
  }

  /** Grouping neither loses nor invents quantity: the groups' quantities add up to the rows'. */
  lemma {:induction false} AggregateTotal(rows: seq<Row<Cell>>)
    requires AllGroupable(rows)
    ensures GroupsTotal(Aggregate(rows).order, Aggregate(rows).groups) == TotalQty(rows)
  {
    if rows != [] {
      var init := rows[..|rows| - 1];
      AggregateTotal(init);
      AggregateValid(init);
      AggregateLast(rows);
      AddTotal(Aggregate(init), rows[|rows| - 1]);
    }
  }

  /**
   * Rows that already have distinct part types are not merged further: each
   * becomes a group of its own, holding just that row, in row order.
   */
  lemma {:induction false} AggregateDistinctKeys(rows: seq<Row<Cell>>)
    requires AllGroupable(rows) && Distinct(KeysOf(rows))
    ensures Aggregate(rows).order == KeysOf(rows)
    ensures forall i :: 0 <= i < |rows| ==>
      && KeyOf(rows[i]) in Aggregate(rows).groups
      && Aggregate(rows).groups[KeyOf(rows[i])] == Group(rows[i], [Ref(rows[i])], Qty(rows[i]))
  {
    if rows != [] {
      var init := rows[..|rows| - 1];
      LastKey(rows);
      assert Distinct(KeysOf(init));
      AggregateDistinctKeys(init);
      AggregateKeys(init);
      AggregateLast(rows);
      assert KeyOf(rows[|rows| - 1]) !in KeysOf(init);
    }
  }
}
