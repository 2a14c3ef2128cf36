/** `_row_batches` in services/connectivity/app/ingest_sync.py: regroup a source's rows
    into batches of one size. The rows reach the writer in the same order, each once. */
module RowBatches {
  import opened Wrappers

  datatype Source<T> = Listed(rows: seq<T>) | Streamed(batches: seq<seq<T>>)

  function RowsOf<T>(source: Source<T>): seq<T> {
    match source
    case Listed(rows) => rows
    case Streamed(batches) => Flatten(batches)
  }

  /** Every batch is full except that the last may be shorter, and none is empty. */
  predicate Regrouped<T>(out: seq<seq<T>>, size: nat) {
    && (forall i | 0 <= i < |out| - 1 :: |out[i]| == size)
    && (out != [] ==> 0 < |out[|out| - 1]| <= size)
  }

  predicate AllFull<T>(out: seq<seq<T>>, size: nat) {
    forall i | 0 <= i < |out| :: |out[i]| == size
  }

  method Regroup<T>(source: Source<T>, size: nat) returns (out: seq<seq<T>>)
    requires size > 0
    ensures Flatten(out) == RowsOf(source)
    ensures Regrouped(out, size)
  {
    match source {
      case Listed(rows) => out := SliceList(rows, size);
      case Streamed(batches) => out := RegroupStream(batches, size);
    }
  }

  method SliceList<T>(rows: seq<T>, size: nat) returns (out: seq<seq<T>>)
    requires size > 0
    ensures Flatten(out) == rows
    ensures Regrouped(out, size)
  {
    out := [];
    var start := 0;
    while start < |rows|
      invariant 0 <= start <= |rows|
      invariant Flatten(out) == rows[..start]
      invariant if start < |rows| then AllFull(out, size) else Regrouped(out, size)
    {
      var end := if start + size < |rows| then start + size else |rows|;
      FlattenSnoc(out, rows[start..end]);
      assert rows[..end] == rows[..start] + rows[start..end];
      out := out + [rows[start..end]];
      start := end;
    }
  }

  method RegroupStream<T>(batches: seq<seq<T>>, size: nat) returns (out: seq<seq<T>>)
    requires size > 0
    ensures Flatten(out) == Flatten(batches)
    ensures Regrouped(out, size)
  {
    out := [];
    var pending: seq<T> := [];
    for n := 0 to |batches|
      invariant Flatten(out) + pending == Flatten(batches[..n])
      invariant AllFull(out, size) && |pending| < size
    {
      assert batches[..n + 1] == batches[..n] + [batches[n]];
      FlattenSnoc(batches[..n], batches[n]);
      var full;
      assert Flatten(batches[..n + 1]) == Flatten(out) + (pending + batches[n]);
      full, pending := TakeFull(pending + batches[n], size);
      FlattenAppend(out, full);
      assert Flatten(out + full) + pending == Flatten(out) + (Flatten(full) + pending);
      out := out + full;
    }
    assert batches[..|batches|] == batches;
    if pending != [] {
      FlattenSnoc(out, pending);
      out := out + [pending];
    }
  }

  /** The inner loop: yield full batches while enough rows are pending. */
  method TakeFull<T>(rows: seq<T>, size: nat) returns (full: seq<seq<T>>, pending: seq<T>)
    requires size > 0
    ensures Flatten(full) + pending == rows
    ensures AllFull(full, size) && |pending| < size
  {
    full, pending := [], rows;
    while |pending| >= size
      invariant Flatten(full) + pending == rows
      invariant AllFull(full, size)
    {
      FlattenSnoc(full, pending[..size]);
      full, pending := full + [pending[..size]], pending[size..];
    }
  }

  /** The regrouping is determined: two regroupings of the same rows are equal. */
  lemma {:induction false} RegroupUnique<T>(a: seq<seq<T>>, b: seq<seq<T>>, size: nat)
    requires size > 0 && Regrouped(a, size) && Regrouped(b, size) && Flatten(a) == Flatten(b)
    ensures a == b
  {
    if a != [] { FirstIsPrefix(a, size); }
    if b != [] { FirstIsPrefix(b, size); }
    if a != [] && b != [] {
      assert a[0] == b[0] && Flatten(a[1..]) == Flatten(b[1..]) by {
        var rows := Flatten(a);
        assert rows == a[0] + Flatten(a[1..]) == b[0] + Flatten(b[1..]);
        assert a[0] == rows[..|a[0]|] && b[0] == rows[..|b[0]|];
        assert Flatten(a[1..]) == rows[|a[0]|..] && Flatten(b[1..]) == rows[|b[0]|..];
      }
      RegroupUnique(a[1..], b[1..], size);
      assert a == [a[0]] + a[1..] && b == [b[0]] + b[1..];
    }
  }

  lemma FirstIsPrefix<T>(a: seq<seq<T>>, size: nat)
    requires size > 0 && Regrouped(a, size) && a != []
    ensures |a[0]| > 0
    ensures |a[0]| == if |Flatten(a)| >= size then size else |Flatten(a)|
    ensures Regrouped(a[1..], size)
  {
    if |a| == 1 {
      assert a[1..] == [];
    } else {
      assert |a[0]| == size;
      assert a[1..][|a| - 2] == a[|a| - 1];
    }
  }
}
