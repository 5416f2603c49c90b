/** Writing a table padded to a power of two, with row ids and an activator. */
module PaddedWriter {
  import opened Options
  import opened Powers

  type Values = seq<int>

  /** A written row: its values (none for padding), its row id, and whether it is a real row. */
  datatype Row = Row(values: Option<Values>, rowId: nat, active: bool)

  function NextPowerOfTwo(n: nat): nat {
    if n <= 1 then (if n < 1 then 1 else n) else NextPower(n)
  }

  // ---- the padded table ----

  function Flatten(batches: seq<seq<Values>>): seq<Values> {
    if batches == [] then [] else Flatten(batches[..|batches| - 1]) + batches[|batches| - 1]
  }

  /** Flattening keeps every row of every batch, in order. */
  lemma {:induction false} FlattenMeaning(xs: seq<seq<Values>>, ys: seq<seq<Values>>, batch: seq<Values>)
    ensures Flatten([]) == [] && Flatten([batch]) == batch
    ensures Flatten(xs + ys) == Flatten(xs) + Flatten(ys)
  {
    assert [batch][..0] == [];
    if ys == [] {
      assert xs + ys == xs;
    } else {
      FlattenMeaning(xs, ys[..|ys| - 1], batch);
      assert (xs + ys)[..|xs + ys| - 1] == xs + ys[..|ys| - 1];
    }
  }

  function RealRows(rows: seq<Values>, start: nat): (r: seq<Row>)
    ensures |r| == |rows| && forall i | 0 <= i < |r| :: r[i] == Row(Some(rows[i]), start + i, true)
  {
    seq(|rows|, i requires 0 <= i < |rows| => Row(Some(rows[i]), start + i, true))
  }

  function NullRows(count: nat, start: nat): (r: seq<Row>)
    ensures |r| == count && forall i | 0 <= i < |r| :: r[i] == Row(None, start + i, false)
  {
    seq(count, i requires 0 <= i => Row(None, start + i, false))
  }

  /** The output depends on the rows only, not on how they were batched. */
  ghost predicate IsPadded(out: seq<Row>, rows: seq<Values>) {
    if rows == [] then out == []
    else
      && IsLeastPowerAtLeast(|out|, |rows|)
      && out == RealRows(rows, 0) + NullRows(|out| - |rows|, |rows|)
  }

  method WriteParquet(batches: seq<seq<Values>>) returns (out: seq<Row>)
    ensures IsPadded(out, Flatten(batches))
  {
    out := [];
    var totalRows := 0;
    var nextRowId := 0;
    for b := 0 to |batches|
      invariant totalRows == nextRowId == |Flatten(batches[..b])|
      invariant out == RealRows(Flatten(batches[..b]), 0)
    {
      var batch := batches[b];
      assert batches[..b + 1][..b] == batches[..b];
      var n := |batch|;
      if n == 0 {
        continue;
      }
      totalRows := totalRows + n;
      var written: seq<Row> := [];
      for offset := 0 to n
        invariant written == RealRows(batch[..offset], nextRowId)
      {
        written := written + [Row(Some(batch[offset]), nextRowId + offset, true)];
      }
      assert batch[..n] == batch;
      nextRowId := nextRowId + n;
      out := out + written;
    }
    assert batches[..|batches|] == batches;
    if totalRows == 0 {
      return;
    }
    ghost var rows := Flatten(batches);
    NextPowerLeast(totalRows);
    BitTest(totalRows);
    if !IsPowerOfTwo(totalRows) {
      var target := NextPowerOfTwo(totalRows);
      OddPower(1);
      var pad := target - totalRows;
      var nulls: seq<Row> := [];
      for offset := 0 to pad
        invariant nulls == NullRows(offset, nextRowId)
      {
        nulls := nulls + [Row(None, nextRowId + offset, false)];
      }
      out := out + nulls;
    }
  }

  /** Row ids count up from zero and the activator marks exactly the rows that were given. */
  lemma PaddedRows(out: seq<Row>, rows: seq<Values>)
    requires IsPadded(out, rows)
    ensures forall i | 0 <= i < |out| :: out[i].rowId == i && (out[i].active <==> i < |rows|)
    ensures |rows| <= |out| && forall i | 0 <= i < |rows| :: out[i].values == Some(rows[i])
    ensures |out| < 2 * |rows| || rows == []
  {
    if rows != [] && |out| >= 2 * |rows| {
      var k: nat :| |out| == Pow2(k);
      if k > 0 {
        assert IsPower(Pow2(k - 1));
      }
    }
  }
}
