/**
 * Rows as the merger sees them: Python dictionaries keyed by column name,
 * which remember the order their keys were first inserted. A CSV row holds
 * strings; once `load_bom` has run, the `Quantity` column holds the integer 1,
 * so rows inside the pipeline hold `Cell`s.
 */
module Records {
  import opened Wrappers

  const DESIGNATOR := "Designator"
  const FOOTPRINT := "Footprint"
  const VALUE := "Value"
  const QUANTITY := "Quantity"
  const LCSC_PART := "LCSC Part #"

  /** A value stored in a pipeline row: text read from a CSV file, or an integer. */
  datatype Cell = Text(text: string) | Count(count: int)

  /** An insertion-ordered dictionary: `keys` in insertion order, `cells` the contents. */
  datatype Row<V> = Row(keys: seq<string>, cells: map<string, V>)

  predicate Distinct<T(==)>(s: seq<T>) {
    forall i, j :: 0 <= i < j < |s| ==> s[i] != s[j]
  }

  /** Every key occurs once in the key order, and the key order lists exactly the stored keys. */
  ghost predicate WellFormed<V>(r: Row<V>) {
    Distinct(r.keys) && forall k :: k in r.cells <==> k in r.keys
  }

  /** `row.get(k)`. */
  function Get<V>(r: Row<V>, k: string): Option<V> {
    if k in r.cells then Some(r.cells[k]) else None
  }

  /** `row.get(k, default)`. */
  function GetOr<V>(r: Row<V>, k: string, default: V): (v: V)
    ensures Get(r, k) == Some(v) || (Get(r, k) == None && v == default)
  {
    if k in r.cells then r.cells[k] else default
  }

  /**
   * `row[k] = v`: an existing key keeps its position, a new key goes last,
   * and no other entry changes.
   */
  function Set<V>(r: Row<V>, k: string, v: V): (r': Row<V>)
    ensures WellFormed(r) ==> WellFormed(r')
    ensures Get(r', k) == Some(v)
    ensures forall k' :: k' != k ==> Get(r', k') == Get(r, k')
    ensures k in r.keys ==> r'.keys == r.keys
    ensures k !in r.keys ==> r'.keys == r.keys + [k]
  {
    Row(if k in r.keys then r.keys else r.keys + [k], r.cells[k := v])
  }

  /** Two rows that agree on every key except `k` and list their keys in the same order. */
  ghost predicate SameExcept<V>(r: Row<V>, r': Row<V>, k: string) {
    r.keys == r'.keys && forall k' :: k' != k ==> Get(r, k') == Get(r', k')
  }

  /** A CSV row, all text, as a pipeline row. */
  function Lift(r: Row<string>): (r': Row<Cell>)
    ensures r'.keys == r.keys
    ensures forall k :: Get(r', k) == if k in r.cells then Some(Text(r.cells[k])) else None
    ensures WellFormed(r) ==> WellFormed(r')
  {
    Row(r.keys, map k | k in r.cells :: Text(r.cells[k]))
  }

  /** The text of a text cell stored under `k`, if there is one. */
  predicate HasText(r: Row<Cell>, k: string) {
    k in r.cells && r.cells[k].Text?
  }
}
