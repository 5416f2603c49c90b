/** Packing ragged rows of field elements into columns. */
module ColumnPacking {

  /** A field element by its integer representative; packing only ever writes a zero of its own. */
  type Cell = int

  type Row = seq<Cell>

  function CellAt(row: Row, c: nat): Cell {
    if c < |row| then row[c] else 0
  }

  /** The packed column `c`: one cell per row, zero where the row is too short. */
  function ColumnOf(rows: seq<Row>, c: nat): (r: seq<Cell>)
    ensures |r| == |rows| && forall i | 0 <= i < |rows| :: r[i] == CellAt(rows[i], c)
  {
    seq(|rows|, i requires 0 <= i < |rows| => CellAt(rows[i], c))
  }

  function Widest(rows: seq<Row>): nat {
    if rows == [] then 0
    else
      var w, last := Widest(rows[..|rows| - 1]), |rows[|rows| - 1]|;
      if w < last then last else w
  }

  lemma {:induction false} WidestMeaning(rows: seq<Row>)
    ensures forall r | r in rows :: |r| <= Widest(rows)
    ensures Widest(rows) > 0 ==> exists r | r in rows :: |r| == Widest(rows)
  {
    if rows != [] {
      WidestMeaning(rows[..|rows| - 1]);
      assert rows == rows[..|rows| - 1] + [rows[|rows| - 1]];
    }
  }

  /** As many columns as the widest row has cells, and one at least. */
  function Width(rows: seq<Row>): nat {
    if Widest(rows) == 0 then 1 else Widest(rows)
  }

  ghost predicate Packs(columns: seq<seq<Cell>>, rows: seq<Row>) {
    |columns| == Width(rows) && forall c | 0 <= c < |columns| :: columns[c] == ColumnOf(rows, c)
  }

  function Zeros(n: nat): (r: seq<Cell>)
    ensures |r| == n && forall i | 0 <= i < n :: r[i] == 0
  {
    seq(n, i => 0)
  }

  /** New columns start with a zero for every row already packed. */
  method Widen(columns: seq<seq<Cell>>, width: nat, idx: nat) returns (wide: seq<seq<Cell>>)
    ensures |wide| == if |columns| < width then width else |columns|
    ensures forall c | 0 <= c < |wide| :: wide[c] == if c < |columns| then columns[c] else Zeros(idx)
  {
    wide := columns;
    while |wide| < width
      invariant |columns| <= |wide| && (|columns| < width ==> |wide| <= width)
      invariant |columns| >= width ==> |wide| == |columns|
      invariant forall c | 0 <= c < |wide| :: wide[c] == if c < |columns| then columns[c] else Zeros(idx)
    {
      wide := wide + [Zeros(idx)];
    }
  }

  /** One cell of the row goes to the end of every column. */
  method PushRow(columns: seq<seq<Cell>>, row: Row) returns (out: seq<seq<Cell>>)
    ensures |out| == |columns|
    ensures forall c | 0 <= c < |out| :: out[c] == columns[c] + [CellAt(row, c)]
  {
    out := columns;
    for c := 0 to |columns|
      invariant |out| == |columns|
      invariant forall k | 0 <= k < |out| :: out[k] == if k < c then columns[k] + [CellAt(row, k)] else columns[k]
    {
      var value := if c < |row| then row[c] else 0;
      out := out[c := out[c] + [value]];
    }
  }

  /** Packed columns, cell by cell. */
  lemma PacksMeaning(columns: seq<seq<Cell>>, rows: seq<Row>)
    requires Packs(columns, rows)
    ensures |columns| >= 1 && forall r | r in rows :: |r| <= |columns|
    ensures |columns| == 1 || exists r | r in rows :: |r| == |columns|
    ensures forall c, r | 0 <= c < |columns| && 0 <= r < |rows| ::
              |columns[c]| == |rows| && columns[c][r] == if c < |rows[r]| then rows[r][c] else 0
    ensures forall c | 0 <= c < |columns| :: |columns[c]| == |rows|
  {
    WidestMeaning(rows);
  }

  method CollectByColumns(rows: seq<Row>) returns (columns: seq<seq<Cell>>)
    ensures Packs(columns, rows)
  {
    hide Width;
    columns := [];
    for idx := 0 to |rows|
      invariant if idx == 0 then columns == [] else Packs(columns, rows[..idx])
    {
      var row := rows[idx];
      ghost var before := columns;
      PackedNothing(rows[..idx]);
      assert Zeros(0) == [];
      if |columns| == 0 && |row| == 0 {
        columns := columns + [[]];
      }
      columns := Widen(columns, |row|, idx);
      columns := PushRow(columns, row);
      PackNext(before, rows, idx, columns);
    }
    assert rows[..|rows|] == rows;
    if |columns| == 0 {
      columns := [[]];
      PackedNothing(rows);
    }
  }

  lemma PackedNothing(rows: seq<Row>)
    ensures rows == [] ==> Packs([[]], rows)
    ensures Width(rows) > 0
  {
  }

  lemma PackNext(before: seq<seq<Cell>>, rows: seq<Row>, idx: nat, after: seq<seq<Cell>>)
    requires idx < |rows|
    requires if idx == 0 then before == [] else Packs(before, rows[..idx])
    requires |after| == if before == [] && rows[idx] == [] then 1
                        else if |before| < |rows[idx]| then |rows[idx]| else |before|
    requires forall c | 0 <= c < |after| ::
               after[c] == (if c < |before| then before[c] else Zeros(idx)) + [CellAt(rows[idx], c)]
    ensures Packs(after, rows[..idx + 1])
  {
    var prev, now := rows[..idx], rows[..idx + 1];
    assert now[..idx] == prev;
    assert |after| == Width(now);
    WidestMeaning(prev);
    forall c | 0 <= c < |after| ensures after[c] == ColumnOf(now, c) {
      assert ColumnOf(now, c) == ColumnOf(prev, c) + [CellAt(rows[idx], c)];
      if c >= |before| {
        forall i | 0 <= i < idx ensures CellAt(prev[i], c) == 0 {
          assert prev[i] in prev;
        }
        assert ColumnOf(prev, c) == Zeros(idx);
      }
    }
  }

  /** Reading a packed row back gives the row, padded with zeros to the common width. */
  lemma UnpackedRow(columns: seq<seq<Cell>>, rows: seq<Row>, r: nat)
    requires Packs(columns, rows) && r < |rows|
    ensures |rows[r]| <= |columns|
    ensures seq(|columns|, c requires 0 <= c < |columns| && r < |columns[c]| => columns[c][r])
         == rows[r] + Zeros(|columns| - |rows[r]|)
  {
    WidestMeaning(rows);
    assert rows[r] in rows;
  }
}
