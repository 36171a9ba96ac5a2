/**
 * What one call of `Parse` (main.go:451-579) leaves in the store, for every
 * fault schedule: which rows end up in the real table, what the shadow table
 * path guarantees, and how the rows are cut into bulk inserts.
 */
module Guarantees {
  import opened Wrappers
  import opened Records
  import opened Xml
  import opened Store
  import opened Loader

  /** How many of the `m` statements numbered from `n` on come before the first scheduled fault. */
  function FirstFault(faults: set<nat>, n: nat, m: nat): (j: nat)
    ensures j <= m
    ensures forall i :: n <= i < n + j ==> i !in faults
    ensures j < m ==> n + j in faults
    decreases m
  {
    if m == 0 || n in faults then 0 else 1 + FirstFault(faults, n + 1, m - 1)
  }

  /** No statement from number `n` on is scheduled to fail. */
  predicate NoFaultsFrom(faults: set<nat>, n: nat)
  {
    forall i :: n <= i ==> i !in faults
  }

  lemma {:induction false} FlattenSplit(bs: seq<seq<Row>>, j: nat)
    requires j <= |bs|
    ensures Flatten(bs) == Flatten(bs[..j]) + Flatten(bs[j..])
    decreases j
  {
    if j == 0 {
      assert bs[..0] == [] && bs[0..] == bs;
    } else {
      FlattenSplit(bs[1..], j - 1);
      assert bs[..j][0] == bs[0] && bs[..j][1..] == bs[1..][..j - 1];
      assert bs[1..][j - 1..] == bs[j..];
      AppendAssoc(bs[0], Flatten(bs[1..][..j - 1]), Flatten(bs[j..]), []);
    }
  }

  lemma {:induction false} FlattenLength(bs: seq<seq<Row>>)
    requires forall k :: 0 <= k < |bs| ==> |bs[k]| == BatchSize
    ensures |Flatten(bs)| == |bs| * BatchSize
    decreases |bs|
  {
    if bs != [] {
      FlattenLength(bs[1..]);
    }
  }

  // A generic fact about maps, used by the proofs below.
  lemma MapUpdateSame<K, V>(m: map<K, V>, k: K)
    requires k in m
    ensures m[k := m[k]] == m
  {
  }

  // A generic fact about maps, used by the proofs below.
  lemma MapUpdateTwice<K, V>(m: map<K, V>, k: K, v: V, w: V)
    ensures m[k := v][k := w] == m[k := w]
  {
  }

  /**
   * A run of bulk inserts into an existing table: the batches before the
   * first fault are appended to it, and the insert that meets the fault is the
   * last statement sent.
   */
  lemma {:induction false} ExecuteInserts(t: Tables, n: nat, faults: set<nat>, target: string, bs: seq<seq<Row>>)
    requires target in t
    ensures var r := Execute(t, n, faults, Inserts(target, bs));
      var j := FirstFault(faults, n, |bs|);
      r.tables == t[target := t[target] + Flatten(bs[..j])] &&
      r.failed == (j < |bs|) &&
      |r.issued| == if j < |bs| then j + 1 else j
    decreases |bs|
  {
    var ss := Inserts(target, bs);
    if bs == [] || n in faults {
      assert bs[..0] == [] && t[target] + [] == t[target];
      MapUpdateSame(t, target);
    } else {
      assert ss[0] == Insert(target, bs[0]);
      assert ss[1..] == Inserts(target, bs[1..]);
      var t1 := t[target := t[target] + bs[0]];
      ExecuteInserts(t1, n + 1, faults, target, bs[1..]);
      var j' := FirstFault(faults, n + 1, |bs| - 1);
      assert bs[..1 + j'][0] == bs[0] && bs[..1 + j'][1..] == bs[1..][..j'];
      AppendAssoc(t[target], bs[0], Flatten(bs[1..][..j']), []);
      MapUpdateTwice(t, target, t[target] + bs[0], t1[target] + Flatten(bs[1..][..j']));
    }
  }

  /** The plan's full batches, sent from statement `n` into an existing table. */
  lemma BatchPhase(t: Tables, n: nat, faults: set<nat>, x: Extraction, table: string, target: string)
    requires target in t
    ensures var bs := Batches(x.rows);
      var ins := Inserts(target, bs);
      var r := Execute(t, n, faults, ins);
      var j := FirstFault(faults, n, |bs|);
      var rq := Execute(r.tables, n + |bs|, faults, FinalFlush(x, table, target));
      LoadSpec(t, n, faults, x, table, target) ==
        if r.failed then Outcome(r.tables, r.issued, Some(InsertFailed))
        else Outcome(rq.tables, ins + rq.issued, LoadResult(x, Run(rq.tables, ins + rq.issued, rq.failed)))
  {
    var bs := Batches(x.rows);
    var ins := Inserts(target, bs);
    ExecuteAppend(t, n, faults, ins, FinalFlush(x, table, target));
    ExecuteIssued(t, n, faults, ins);
    var r := Execute(t, n, faults, ins);
    if r.failed {
      assert r.issued[|r.issued| - 1] == ins[|r.issued| - 1];
    }
  }

  /** A fault among the full batches ends the load after the batches before it. */
  lemma LoadStopsAtFault(t: Tables, n: nat, faults: set<nat>, x: Extraction, table: string, target: string)
    requires target in t
    requires FirstFault(faults, n, |Batches(x.rows)|) < |Batches(x.rows)|
    ensures var bs := Batches(x.rows);
      var j := FirstFault(faults, n, |bs|);
      LoadSpec(t, n, faults, x, table, target) ==
        Outcome(t[target := t[target] + Flatten(bs[..j])], Inserts(target, bs)[..j + 1], Some(InsertFailed))
  {
    BatchPhase(t, n, faults, x, table, target);
    ExecuteInserts(t, n, faults, target, Batches(x.rows));
    ExecuteIssued(t, n, faults, Inserts(target, Batches(x.rows)));
  }

  /** With every full batch sent, a decode error ends the load. */
  lemma LoadStopsAtDecodeError(t: Tables, n: nat, faults: set<nat>, x: Extraction, table: string, target: string)
    requires target in t && x.decodeFailed
    requires FirstFault(faults, n, |Batches(x.rows)|) == |Batches(x.rows)|
    ensures var bs := Batches(x.rows);
      LoadSpec(t, n, faults, x, table, target) ==
        Outcome(t[target := t[target] + Flatten(bs)], Inserts(target, bs), Some(DecodeFailed))
  {
    var bs := Batches(x.rows);
    BatchPhase(t, n, faults, x, table, target);
    ExecuteInserts(t, n, faults, target, bs);
    ExecuteIssued(t, n, faults, Inserts(target, bs));
    assert bs[..|bs|] == bs;
    assert FinalFlush(x, table, target) == [];
    assert Inserts(target, bs) + [] == Inserts(target, bs);
  }

  /** Without a decode error, the statements after the batches are the flush of the rows left over. */
  lemma FinalFlushIsFlush(t: Tables, m: nat, faults: set<nat>, x: Extraction, table: string, target: string)
    requires !x.decodeFailed
    ensures var rq := Execute(t, m, faults, FinalFlush(x, table, target));
      var f := Flush(t, m, faults, table, target, Remainder(x.rows));
      rq.tables == f.tables && rq.issued == f.issued &&
      f.err == if rq.failed then Some(ErrorOf(rq.issued[|rq.issued| - 1])) else None
  {
    var rem := Remainder(x.rows);
    var fin := FinalFlush(x, table, target);
    BatchesCover(x.rows);
    FlushIsPlan(t, m, faults, table, target, rem);
    assert Batches(rem) == [] && Remainder(rem) == rem;
    assert Inserts(target, []) == [];
    assert Plan(Extraction(rem, false), table, target) == fin;
    ExecuteIssued(t, m, faults, fin);
  }

  /** With every full batch sent and no decode error, the rows left over are flushed. */
  lemma LoadEndsWithFlush(t: Tables, n: nat, faults: set<nat>, x: Extraction, table: string, target: string)
    requires target in t && !x.decodeFailed
    requires FirstFault(faults, n, |Batches(x.rows)|) == |Batches(x.rows)|
    ensures var bs := Batches(x.rows);
      var f := Flush(t[target := t[target] + Flatten(bs)], n + |bs|, faults, table, target, Remainder(x.rows));
      LoadSpec(t, n, faults, x, table, target) == Outcome(f.tables, Inserts(target, bs) + f.issued, f.err)
  {
    var bs := Batches(x.rows);
    var ins := Inserts(target, bs);
    BatchPhase(t, n, faults, x, table, target);
    ExecuteInserts(t, n, faults, target, bs);
    assert bs[..|bs|] == bs;
    var t1 := t[target := t[target] + Flatten(bs)];
    assert !Execute(t, n, faults, ins).failed && Execute(t, n, faults, ins).tables == t1;
    FinalFlushIsFlush(t1, n + |bs|, faults, x, table, target);
    var rq := Execute(t1, n + |bs|, faults, FinalFlush(x, table, target));
    var f := Flush(t1, n + |bs|, faults, table, target, Remainder(x.rows));
    assert LoadResult(x, Run(rq.tables, ins + rq.issued, rq.failed)) == f.err by {
      if rq.failed {
        assert (ins + rq.issued)[|ins + rq.issued| - 1] == rq.issued[|rq.issued| - 1];
      }
    }
  }

  // A generic fact about sequences, used by the proofs below.
  lemma PrefixOfAppend<T>(a: seq<T>, b: seq<T>)
    ensures a <= a + b
  {
    assert (a + b)[..|a|] == a;
  }

  /** The rows already in the table followed by the rows a run appended, for a table emptied first. */
  lemma {:induction false} WholeBatchesArePrefix(rows: seq<Row>, j: nat)
    requires j <= |Batches(rows)|
    ensures Flatten(Batches(rows)[..j]) <= rows
    ensures |Flatten(Batches(rows)[..j])| == j * BatchSize
  {
    var bs := Batches(rows);
    BatchesCover(rows);
    FlattenSplit(bs, j);
    FlattenLength(bs[..j]);
    PrefixOfAppend(Flatten(bs[..j]), Flatten(bs[j..]) + Remainder(rows));
    AppendAssoc(Flatten(bs[..j]), Flatten(bs[j..]), Remainder(rows), []);
  }

  /** The load into an emptied table in place, where the whole batch plan ends: a flush. */
  lemma InPlaceFlush(t: Tables, m: nat, faults: set<nat>, table: string, full: seq<Row>, rem: seq<Row>)
    requires table in t && rem != []
    ensures var f := Flush(t[table := full], m, faults, table, table, rem);
      f.tables == t[table := f.tables[table]] &&
      f.tables[table] == (if f.err.None? then full + rem else full) &&
      (f.err.Some? ==> f.err == Some(InsertFailed))
  {
    MapUpdateTwice(t, table, full, full + rem);
  }

  /**
   * Outcome `o` changed only `table` of `t`, which now holds a prefix of
   * `rows`: all of them if there was no error, else whole batches.
   */
  predicate KeptPrefix(t: Tables, table: string, rows: seq<Row>, o: Outcome)
  {
    table in o.tables && o.tables == t[table := o.tables[table]] &&
    o.tables[table] <= rows &&
    (o.err.None? ==> o.tables[table] == rows) &&
    (o.err.Some? ==> |o.tables[table]| % BatchSize == 0)
  }

  /** Whole batches appended to an emptied table are a prefix of the rows that ends on a batch boundary. */
  lemma KeptBatches(t: Tables, table: string, rows: seq<Row>, j: nat, issued: seq<Stmt>, err: Option<LoadError>)
    requires table in t && t[table] == [] && j <= |Batches(rows)| && err.Some?
    ensures KeptPrefix(t, table, rows, Outcome(t[table := t[table] + Flatten(Batches(rows)[..j])], issued, err))
  {
    var full := Flatten(Batches(rows)[..j]);
    WholeBatchesArePrefix(rows, j);
    assert [] + full == full;
    MapUpdateTwice(t, table, [], full);
  }

  /** The final flush into an emptied table after every whole batch keeps a prefix of the rows. */
  lemma KeptAfterFlush(t: Tables, m: nat, faults: set<nat>, table: string, rows: seq<Row>, issued: seq<Stmt>)
    requires table in t && t[table] == []
    ensures var bs := Batches(rows);
      var f := Flush(t[table := t[table] + Flatten(bs)], m, faults, table, table, Remainder(rows));
      KeptPrefix(t, table, rows, Outcome(f.tables, issued, f.err))
  {
    var bs := Batches(rows);
    var full := Flatten(bs);
    WholeBatchesArePrefix(rows, |bs|);
    assert bs[..|bs|] == bs && [] + full == full;
    BatchesCover(rows);
    if Remainder(rows) == [] {
      assert full + [] == full;
      MapUpdateTwice(t, table, [], full);
    } else {
      InPlaceFlush(t, m, faults, table, full, Remainder(rows));
      var f := Flush(t[table := full], m, faults, table, table, Remainder(rows));
      MapUpdateTwice(t, table, full, f.tables[table]);
      MapUpdateTwice(t, table, [], f.tables[table]);
    }
  }

  lemma InPlaceLoadFault(t: Tables, m: nat, faults: set<nat>, x: Extraction, table: string)
    requires table in t && t[table] == []
    requires FirstFault(faults, m, |Batches(x.rows)|) < |Batches(x.rows)|
    ensures KeptPrefix(t, table, x.rows, LoadSpec(t, m, faults, x, table, table))
  {
    var bs := Batches(x.rows);
    var j := FirstFault(faults, m, |bs|);
    LoadStopsAtFault(t, m, faults, x, table, table);
    KeptBatches(t, table, x.rows, j, Inserts(table, bs)[..j + 1], Some(InsertFailed));
  }

  lemma InPlaceLoadDecodeError(t: Tables, m: nat, faults: set<nat>, x: Extraction, table: string)
    requires table in t && t[table] == [] && x.decodeFailed
    requires FirstFault(faults, m, |Batches(x.rows)|) == |Batches(x.rows)|
    ensures KeptPrefix(t, table, x.rows, LoadSpec(t, m, faults, x, table, table))
  {
    var bs := Batches(x.rows);
    LoadStopsAtDecodeError(t, m, faults, x, table, table);
    KeptBatches(t, table, x.rows, |bs|, Inserts(table, bs), Some(DecodeFailed));
    assert bs[..|bs|] == bs;
  }

  lemma InPlaceLoadFlush(t: Tables, m: nat, faults: set<nat>, x: Extraction, table: string)
    requires table in t && t[table] == [] && !x.decodeFailed
    requires FirstFault(faults, m, |Batches(x.rows)|) == |Batches(x.rows)|
    ensures KeptPrefix(t, table, x.rows, LoadSpec(t, m, faults, x, table, table))
  {
    var bs := Batches(x.rows);
    LoadEndsWithFlush(t, m, faults, x, table, table);
    var f := Flush(t[table := t[table] + Flatten(bs)], m + |bs|, faults, table, table, Remainder(x.rows));
    KeptAfterFlush(t, m + |bs|, faults, table, x.rows, Inserts(table, bs) + f.issued);
  }

  /**
   * A small file goes straight into its table (main.go:490-498): when the
   * TRUNCATE fails nothing changes; otherwise no other table changes, and the
   * table holds a prefix of the rows read: all of them when `Parse` reports
   * no error, a whole number of batches when it reports one.
   */
  lemma InPlaceGuarantee(t: Tables, n: nat, faults: set<nat>, size: nat, tokens: seq<Token>,
                         table: string, element: string, fields: seq<Field>, coerce: Coercion)
    requires size <= LargeFileSize
    ensures var x := Extract(tokens, element, fields, coerce, ZeroRecord(fields));
      var o := ParseSpec(t, n, faults, File(size, tokens), table, element, fields, coerce);
      if table !in t || n in faults then o.tables == t && o.err == Some(TruncateFailed)
      else
        table in o.tables && o.tables == t[table := o.tables[table]] &&
        o.tables[table] <= x.rows &&
        (o.err.None? ==> o.tables[table] == x.rows) &&
        (o.err.Some? ==> |o.tables[table]| % BatchSize == 0)
  {
    var x := Extract(tokens, element, fields, coerce, ZeroRecord(fields));
    if table in t && n !in faults {
      var t1 := t[table := []];
      if FirstFault(faults, n + 1, |Batches(x.rows)|) < |Batches(x.rows)| {
        InPlaceLoadFault(t1, n + 1, faults, x, table);
      } else if x.decodeFailed {
        InPlaceLoadDecodeError(t1, n + 1, faults, x, table);
      } else {
        InPlaceLoadFlush(t1, n + 1, faults, x, table);
      }
      var o := LoadSpec(t1, n + 1, faults, x, table, table);
      MapUpdateTwice(t, table, [], o.tables[table]);
    }
  }

  /** Whole batches of the rows are the rows up to the last multiple of the batch size. */
  lemma WholeBatchesAreLeadingRows(rows: seq<Row>)
    ensures Flatten(Batches(rows)) == rows[..|rows| / BatchSize * BatchSize]
  {
    BatchesCover(rows);
    FlattenLength(Batches(rows));
    assert rows[..|Flatten(Batches(rows))|] == Flatten(Batches(rows));
  }

  lemma NoFaultsFirstFault(faults: set<nat>, n: nat, m: nat)
    requires NoFaultsFrom(faults, n)
    ensures FirstFault(faults, n, m) == m
  {
  }

  /** With no fault, a load into an existing table appends every row read, or the whole batches before a decode error. */
  lemma LoadNoFaults(t: Tables, m: nat, faults: set<nat>, x: Extraction, table: string)
    requires table in t && NoFaultsFrom(faults, m)
    ensures var o := LoadSpec(t, m, faults, x, table, table);
      o.tables == t[table := t[table] + (if x.decodeFailed then x.rows[..|x.rows| / BatchSize * BatchSize] else x.rows)] &&
      o.err == if x.decodeFailed then Some(DecodeFailed) else None
  {
    if x.decodeFailed {
      NoFaultsFirstFault(faults, m, |Batches(x.rows)|);
      WholeBatchesAreLeadingRows(x.rows);
      LoadStopsAtDecodeError(t, m, faults, x, table, table);
    } else {
      LoadNoFaultsComplete(t, m, faults, x, table);
    }
  }

  lemma LoadNoFaultsComplete(t: Tables, m: nat, faults: set<nat>, x: Extraction, table: string)
    requires table in t && NoFaultsFrom(faults, m) && !x.decodeFailed
    ensures var o := LoadSpec(t, m, faults, x, table, table);
      o.tables == t[table := t[table] + x.rows] && o.err == None
  {
    var bs := Batches(x.rows);
    NoFaultsFirstFault(faults, m, |bs|);
    LoadEndsWithFlush(t, m, faults, x, table, table);
    BatchesCover(x.rows);
    var t1 := t[table := t[table] + Flatten(bs)];
    if Remainder(x.rows) == [] {
      assert Flatten(bs) + [] == Flatten(bs);
    } else {
      assert m + |bs| !in faults;
      AppendAssoc(t[table], Flatten(bs), Remainder(x.rows), []);
      MapUpdateTwice(t, table, t1[table], t1[table] + Remainder(x.rows));
    }
  }

  /**
   * With no fault from the TRUNCATE on, a small file replaces the table's rows
   * by all the rows read, or by the whole batches before a decode error.
   */
  lemma InPlaceNoFaults(t: Tables, n: nat, faults: set<nat>, size: nat, tokens: seq<Token>,
                        table: string, element: string, fields: seq<Field>, coerce: Coercion)
    requires size <= LargeFileSize && table in t && NoFaultsFrom(faults, n)
    ensures var x := Extract(tokens, element, fields, coerce, ZeroRecord(fields));
      var o := ParseSpec(t, n, faults, File(size, tokens), table, element, fields, coerce);
      o.tables == t[table := if x.decodeFailed then x.rows[..|x.rows| / BatchSize * BatchSize] else x.rows] &&
      o.err == if x.decodeFailed then Some(DecodeFailed) else None
  {
    var x := Extract(tokens, element, fields, coerce, ZeroRecord(fields));
    InPlaceLoadNoFaults(t, n + 1, faults, x, table);
  }

  lemma InPlaceLoadNoFaults(t: Tables, m: nat, faults: set<nat>, x: Extraction, table: string)
    requires table in t && NoFaultsFrom(faults, m)
    ensures var o := LoadSpec(t[table := []], m, faults, x, table, table);
      o.tables == t[table := if x.decodeFailed then x.rows[..|x.rows| / BatchSize * BatchSize] else x.rows] &&
      o.err == if x.decodeFailed then Some(DecodeFailed) else None
  {
    LoadNoFaults(t[table := []], m, faults, x, table);
    var kept := if x.decodeFailed then x.rows[..|x.rows| / BatchSize * BatchSize] else x.rows;
    assert [] + kept == kept;
    MapUpdateTwice(t, table, [], kept);
  }

  /**
   * After a load into `shadow`: either only the shadow table changed, or the
   * shadow, holding `rows`, took the place of `table` and there was no error.
   */
  predicate ShadowOutcome(t: Tables, table: string, shadow: string, rows: seq<Row>, o: Outcome)
  {
    (shadow in o.tables && o.tables == t[shadow := o.tables[shadow]]) ||
    (o.tables == (t - {shadow})[table := rows] && o.err.None?)
  }

  /** The flush into the shadow table: the rows left over, then the swap (main.go:556-574). */
  lemma ShadowFlush(t: Tables, m: nat, faults: set<nat>, table: string, shadow: string, full: seq<Row>, rem: seq<Row>)
    requires table in t && shadow in t && table != shadow && rem != []
    ensures ShadowOutcome(t, table, shadow, full + rem, Flush(t[shadow := full], m, faults, table, shadow, rem))
  {
    var t2 := t[shadow := full];
    MapUpdateTwice(t, shadow, full, full + rem);
    var t3 := t[shadow := full + rem];
    assert t3[table := t3[shadow]] - {shadow} == (t - {shadow})[table := full + rem];
  }

  lemma ShadowLoadFault(t: Tables, m: nat, faults: set<nat>, x: Extraction, table: string, shadow: string)
    requires shadow in t
    requires FirstFault(faults, m, |Batches(x.rows)|) < |Batches(x.rows)|
    ensures ShadowOutcome(t, table, shadow, x.rows, LoadSpec(t, m, faults, x, table, shadow))
  {
    var bs := Batches(x.rows);
    var j := FirstFault(faults, m, |bs|);
    LoadStopsAtFault(t, m, faults, x, table, shadow);
    MapUpdateTwice(t, shadow, t[shadow], t[shadow] + Flatten(bs[..j]));
  }

  lemma ShadowLoadDecodeError(t: Tables, m: nat, faults: set<nat>, x: Extraction, table: string, shadow: string)
    requires shadow in t && x.decodeFailed
    requires FirstFault(faults, m, |Batches(x.rows)|) == |Batches(x.rows)|
    ensures ShadowOutcome(t, table, shadow, x.rows, LoadSpec(t, m, faults, x, table, shadow))
  {
    LoadStopsAtDecodeError(t, m, faults, x, table, shadow);
  }

  /** The final flush into an empty shadow table after every whole batch. */
  lemma ShadowAfterFlush(t: Tables, m: nat, faults: set<nat>, table: string, shadow: string, rows: seq<Row>, issued: seq<Stmt>)
    requires table in t && shadow in t && table != shadow && t[shadow] == []
    ensures var bs := Batches(rows);
      var f := Flush(t[shadow := t[shadow] + Flatten(bs)], m, faults, table, shadow, Remainder(rows));
      ShadowOutcome(t, table, shadow, rows, Outcome(f.tables, issued, f.err))
  {
    var full := Flatten(Batches(rows));
    BatchesCover(rows);
    assert [] + full == full;
    if Remainder(rows) != [] {
      ShadowFlush(t, m, faults, table, shadow, full, Remainder(rows));
    }
  }

  lemma ShadowLoadFlush(t: Tables, m: nat, faults: set<nat>, x: Extraction, table: string, shadow: string)
    requires table in t && shadow in t && table != shadow && t[shadow] == [] && !x.decodeFailed
    requires FirstFault(faults, m, |Batches(x.rows)|) == |Batches(x.rows)|
    ensures ShadowOutcome(t, table, shadow, x.rows, LoadSpec(t, m, faults, x, table, shadow))
  {
    var bs := Batches(x.rows);
    LoadEndsWithFlush(t, m, faults, x, table, shadow);
    var f := Flush(t[shadow := t[shadow] + Flatten(bs)], m + |bs|, faults, table, shadow, Remainder(x.rows));
    ShadowAfterFlush(t, m + |bs|, faults, table, shadow, x.rows, Inserts(shadow, bs) + f.issued);
  }

  /** The load of a large file into its freshly created shadow table. */
  lemma ShadowLoad(t: Tables, m: nat, faults: set<nat>, x: Extraction, table: string, shadow: string)
    requires table in t && shadow in t && table != shadow && t[shadow] == []
    ensures ShadowOutcome(t, table, shadow, x.rows, LoadSpec(t, m, faults, x, table, shadow))
  {
    if FirstFault(faults, m, |Batches(x.rows)|) < |Batches(x.rows)| {
      ShadowLoadFault(t, m, faults, x, table, shadow);
    } else if x.decodeFailed {
      ShadowLoadDecodeError(t, m, faults, x, table, shadow);
    } else {
      ShadowLoadFlush(t, m, faults, x, table, shadow);
    }
  }

  /** The deferred DROP TABLE of the shadow table, statement number `d`, after a load into it. */
  lemma ShadowDrop(t: Tables, d: nat, faults: set<nat>, table: string, shadow: string, rows: seq<Row>, l: Outcome)
    requires shadow !in t && table != shadow
    requires ShadowOutcome(t[shadow := []], table, shadow, rows, l)
    ensures var dropped := Execute(l.tables, d, faults, [Drop(shadow)]).tables;
      (shadow in l.tables ==> dropped - {shadow} == t) &&
      (shadow !in l.tables ==> dropped == t[table := rows] && l.err.None?) &&
      (dropped - {shadow} == t || (dropped - {shadow} == t[table := rows] && l.err.None?)) &&
      (shadow in dropped ==> d in faults)
  {
    ExecuteSingle(l.tables, d, faults, Drop(shadow));
    var t1 := t[shadow := []];
    assert t1 - {shadow} == t;
    if shadow in l.tables && l.tables == t1[shadow := l.tables[shadow]] {
      assert l.tables - {shadow} == t;
    }
  }

  lemma ShadowNameDiffers(table: string)
    ensures ShadowName(table) != table
  {
    assert |ShadowName(table)| > |table|;
  }

  /** The load into a freshly created shadow table and the deferred DROP TABLE, under any faults. */
  lemma ShadowSpecGuarantee(t: Tables, n: nat, faults: set<nat>, x: Extraction, table: string)
    requires table in t && ShadowName(table) !in t
    ensures var shadow := ShadowName(table);
      var o := ShadowSpec(t[shadow := []], n, faults, x, table);
      (o.tables - {shadow} == t || (o.tables - {shadow} == t[table := x.rows] && o.err.None?)) &&
      (shadow in o.tables ==> n + |o.issued| - 1 in faults)
  {
    var shadow := ShadowName(table);
    ShadowNameDiffers(table);
    var t1 := t[shadow := []];
    ShadowLoad(t1, n, faults, x, table, shadow);
    var l := LoadSpec(t1, n, faults, x, table, shadow);
    ShadowDrop(t, n + |l.issued|, faults, table, shadow, x.rows, l);
  }

  /** With no fault, the load into the shadow table swaps it in exactly when rows are left over after the whole batches. */
  lemma ShadowLoadNoFaults(t: Tables, m: nat, faults: set<nat>, x: Extraction, table: string, shadow: string)
    requires table in t && shadow in t && table != shadow && t[shadow] == [] && NoFaultsFrom(faults, m)
    ensures var l := LoadSpec(t, m, faults, x, table, shadow);
      l.err == (if x.decodeFailed then Some(DecodeFailed) else None) &&
      (shadow !in l.tables <==> !x.decodeFailed && |x.rows| % BatchSize != 0)
  {
    if x.decodeFailed {
      NoFaultsFirstFault(faults, m, |Batches(x.rows)|);
      LoadStopsAtDecodeError(t, m, faults, x, table, shadow);
    } else {
      ShadowLoadNoFaultsComplete(t, m, faults, x, table, shadow);
    }
  }

  lemma ShadowLoadNoFaultsComplete(t: Tables, m: nat, faults: set<nat>, x: Extraction, table: string, shadow: string)
    requires table in t && shadow in t && table != shadow && t[shadow] == [] && NoFaultsFrom(faults, m)
    requires !x.decodeFailed
    ensures var l := LoadSpec(t, m, faults, x, table, shadow);
      l.err == None && (shadow !in l.tables <==> |x.rows| % BatchSize != 0)
  {
    var bs := Batches(x.rows);
    NoFaultsFirstFault(faults, m, |bs|);
    BatchesCover(x.rows);
    LoadEndsWithFlush(t, m, faults, x, table, shadow);
    if Remainder(x.rows) != [] {
      assert m + |bs| !in faults && m + |bs| + 1 !in faults;
    }
  }

  /** The load into a freshly created shadow table and the deferred DROP TABLE, with no fault. */
  lemma ShadowSpecNoFaults(t: Tables, n: nat, faults: set<nat>, x: Extraction, table: string)
    requires table in t && ShadowName(table) !in t && NoFaultsFrom(faults, n)
    ensures var o := ShadowSpec(t[ShadowName(table) := []], n, faults, x, table);
      o.tables == (if !x.decodeFailed && |x.rows| % BatchSize != 0 then t[table := x.rows] else t) &&
      o.err == if x.decodeFailed then Some(DecodeFailed) else None
  {
    var shadow := ShadowName(table);
    ShadowNameDiffers(table);
    var t1 := t[shadow := []];
    ShadowLoad(t1, n, faults, x, table, shadow);
    ShadowLoadNoFaults(t1, n, faults, x, table, shadow);
    var l := LoadSpec(t1, n, faults, x, table, shadow);
    ShadowDrop(t, n + |l.issued|, faults, table, shadow, x.rows, l);
    var dropped := Execute(l.tables, n + |l.issued|, faults, [Drop(shadow)]).tables;
    assert shadow !in dropped;
    assert dropped - {shadow} == dropped;
  }

  /**
   * A large file goes through the shadow table `temp_<table>` (main.go:476-485,
   * 562-572): when CREATE TABLE fails nothing changes; otherwise, apart from
   * the shadow table, the store is either exactly as before, or the table
   * holds every row read and `Parse` reports no error: never part of the
   * rows. The shadow table is left behind only when the final DROP TABLE,
   * the last statement sent, is scheduled to fail.
   */
  lemma ShadowGuarantee(t: Tables, n: nat, faults: set<nat>, size: nat, tokens: seq<Token>,
                        table: string, element: string, fields: seq<Field>, coerce: Coercion)
    requires size > LargeFileSize
    ensures var x := Extract(tokens, element, fields, coerce, ZeroRecord(fields));
      var o := ParseSpec(t, n, faults, File(size, tokens), table, element, fields, coerce);
      var shadow := ShadowName(table);
      if table !in t || shadow in t || n in faults then o.tables == t && o.err == Some(CreateFailed)
      else
        (o.tables - {shadow} == t || (o.tables - {shadow} == t[table := x.rows] && o.err.None?)) &&
        (shadow in o.tables ==> n + |o.issued| - 1 in faults)
  {
    var x := Extract(tokens, element, fields, coerce, ZeroRecord(fields));
    if table in t && ShadowName(table) !in t && n !in faults {
      ShadowSpecGuarantee(t, n + 1, faults, x, table);
    }
  }

  /**
   * With no fault from the CREATE TABLE on, a large file read without a decode
   * error replaces the table's rows by all the rows read, unless their number
   * is a whole multiple of the batch size (zero included): then no swap is
   * sent, the deferred DROP TABLE discards the loaded shadow table, and the
   * table keeps its old rows although `Parse` reports no error. After a
   * decode error the table keeps its old rows.
   */
  lemma ShadowNoFaults(t: Tables, n: nat, faults: set<nat>, size: nat, tokens: seq<Token>,
                       table: string, element: string, fields: seq<Field>, coerce: Coercion)
    requires size > LargeFileSize && table in t && ShadowName(table) !in t && NoFaultsFrom(faults, n)
    ensures var x := Extract(tokens, element, fields, coerce, ZeroRecord(fields));
      var o := ParseSpec(t, n, faults, File(size, tokens), table, element, fields, coerce);
      o.tables == (if !x.decodeFailed && |x.rows| % BatchSize != 0 then t[table := x.rows] else t) &&
      o.err == if x.decodeFailed then Some(DecodeFailed) else None
  {
    var x := Extract(tokens, element, fields, coerce, ZeroRecord(fields));
    ShadowSpecNoFaults(t, n + 1, faults, x, table);
  }

  /** The rows carried by the bulk inserts of a run of statements, in order. */
  function InsertedRows(ss: seq<Stmt>): seq<Row>
  {
    if ss == [] then [] else (if ss[0].Insert? then ss[0].rows else []) + InsertedRows(ss[1..])
  }

  lemma {:induction false} InsertedRowsAppend(a: seq<Stmt>, b: seq<Stmt>)
    ensures InsertedRows(a + b) == InsertedRows(a) + InsertedRows(b)
    decreases |a|
  {
    if a == [] {
      assert a + b == b;
    } else {
      assert (a + b)[0] == a[0] && (a + b)[1..] == a[1..] + b;
      InsertedRowsAppend(a[1..], b);
      var first := if a[0].Insert? then a[0].rows else [];
      AppendAssoc(first, InsertedRows(a[1..]), InsertedRows(b), []);
    }
  }

  lemma {:induction false} InsertedRowsOfInserts(target: string, bs: seq<seq<Row>>)
    ensures InsertedRows(Inserts(target, bs)) == Flatten(bs)
    decreases |bs|
  {
    if bs != [] {
      assert Inserts(target, bs)[1..] == Inserts(target, bs[1..]);
      InsertedRowsOfInserts(target, bs[1..]);
    }
  }

  /**
   * The batching of main.go:547-561 on a load with no decode error: the plan
   * holds one bulk insert into the target per started batch of 5000 rows,
   * each carrying 1 to 5000 rows and together all the rows in order, then,
   * on the shadow path, the swap exactly when a part batch was left over.
   */
  lemma PlanBatches(x: Extraction, table: string, target: string)
    requires !x.decodeFailed
    ensures var p := Plan(x, table, target);
      var inserts := (|x.rows| + BatchSize - 1) / BatchSize;
      var swap := target != table && |x.rows| % BatchSize != 0;
      |p| == inserts + (if swap then 1 else 0) &&
      (forall k :: 0 <= k < inserts ==> p[k].Insert? && p[k].name == target && 0 < |p[k].rows| <= BatchSize) &&
      (swap ==> p[inserts] == DropAndRename(table, target)) &&
      InsertedRows(p) == x.rows
  {
    var bs := Batches(x.rows);
    var rem := Remainder(x.rows);
    var ins := Inserts(target, bs);
    var fin := FinalFlush(x, table, target);
    BatchesCover(x.rows);
    InsertedRowsAppend(ins, fin);
    InsertedRowsOfInserts(target, bs);
    var q, r := |x.rows| / BatchSize, |x.rows| % BatchSize;
    assert |x.rows| == q * BatchSize + r;
    assert (|x.rows| + BatchSize - 1) / BatchSize == q + (if r == 0 then 0 else 1);
    if rem == [] {
      assert fin == [];
      assert Flatten(bs) + [] == Flatten(bs);
    } else {
      var swap := if target != table then [DropAndRename(table, target)] else [];
      assert fin == [Insert(target, rem)] + swap;
      assert InsertedRows(fin) == rem + InsertedRows(swap);
      assert InsertedRows(swap) == [] by {
        if swap != [] {
          assert swap[1..] == [];
        }
      }
    }
  }

  /** Every row the token loop emits has exactly the derived column names as keys (main.go:535-539). */
  lemma {:induction false} ExtractRowKeys(ts: seq<Token>, element: string, fields: seq<Field>, coerce: Coercion, rec: Record)
    requires |rec| == |fields|
    ensures forall row :: row in Extract(ts, element, fields, coerce, rec).rows ==> row.Keys == ColumnSet(ColumnsOf(fields))
    decreases |ts|
  {
    if ts == [] || ts[0].Nil? {
    } else if ts[0].StartElement? && ts[0].local == element {
      match DecodeElement(rec, fields, ts[0], ts[1..], coerce)
      case DecodeError =>
      case Decoded(next, k) =>
        ExtractRowKeys(ts[1 + k..], element, fields, coerce, next);
        var rows := Extract(ts[1 + k..], element, fields, coerce, next).rows;
        assert Extract(ts, element, fields, coerce, rec).rows == [RowOf(ColumnsOf(fields), next)] + rows;
    } else {
      ExtractRowKeys(ts[1..], element, fields, coerce, rec);
    }
  }

  /**
   * Tokens that are neither nil nor a start tag of the wanted element add no
   * row and leave the shared record as it was (main.go:518-545).
   */
  lemma {:induction false} ExtractSkipsOthers(us: seq<Token>, ts: seq<Token>, element: string, fields: seq<Field>,
                                             coerce: Coercion, rec: Record)
    requires |rec| == |fields|
    requires forall i :: 0 <= i < |us| ==> !us[i].Nil? && !(us[i].StartElement? && us[i].local == element)
    ensures Extract(us + ts, element, fields, coerce, rec) == Extract(ts, element, fields, coerce, rec)
    decreases |us|
  {
    if us != [] {
      assert (us + ts)[0] == us[0];
      assert (us + ts)[1..] == us[1..] + ts;
      forall i | 0 <= i < |us[1..]|
        ensures !us[1..][i].Nil? && !(us[1..][i].StartElement? && us[1..][i].local == element)
      {
        assert us[1..][i] == us[i + 1];
      }
      ExtractSkipsOthers(us[1..], ts, element, fields, coerce, rec);
      assert Extract(us + ts, element, fields, coerce, rec) == Extract((us + ts)[1..], element, fields, coerce, rec);
    } else {
      assert us + ts == ts;
    }
  }

  /** A wanted start tag that decodes adds the row of the decoded record. */
  lemma ExtractWanted(ts: seq<Token>, element: string, fields: seq<Field>, coerce: Coercion, rec: Record, next: Record, k: nat)
    requires |rec| == |fields| && ts != [] && ts[0].StartElement? && ts[0].local == element
    requires DecodeElement(rec, fields, ts[0], ts[1..], coerce) == Decoded(next, k)
    ensures |next| == |fields| && 1 + k <= |ts|
    ensures Extract(ts, element, fields, coerce, rec) ==
      Prepend([RowOf(ColumnsOf(fields), next)], Extract(ts[1 + k..], element, fields, coerce, next))
  {
  }

  /** `ExtractWanted` for a stream written as its start tag and the rest. */
  lemma ExtractWantedAfter(start: Token, rest: seq<Token>, element: string, fields: seq<Field>, coerce: Coercion,
                           rec: Record, next: Record, k: nat)
    requires |rec| == |fields| && start.StartElement? && start.local == element
    requires DecodeElement(rec, fields, start, rest, coerce) == Decoded(next, k)
    ensures |next| == |fields| && k <= |rest|
    ensures Extract([start] + rest, element, fields, coerce, rec) ==
      Prepend([RowOf(ColumnsOf(fields), next)], Extract(rest[k..], element, fields, coerce, next))
  {
    var us := [start] + rest;
    assert us[0] == start && us[1..] == rest;
    ExtractWanted(us, element, fields, coerce, rec, next, k);
    assert us[1 + k..] == rest[k..];
  }

  /**
   * An empty wanted element whose attributes are all accepted adds exactly
   * the row of the record it decodes to, and the loop goes on with that
   * record (main.go:529-541).
   */
  lemma ExtractOneElement(attrs: seq<Attr>, ts: seq<Token>, element: string, fields: seq<Field>,
                          coerce: Coercion, rec: Record, next: Record)
    requires |rec| == |fields| && AssignAttrs(rec, fields, attrs, coerce) == Some(next)
    ensures |next| == |fields|
    ensures Extract([StartElement(element, attrs)] + ([EndElement] + ts), element, fields, coerce, rec) ==
      Prepend([RowOf(ColumnsOf(fields), next)], Extract(ts, element, fields, coerce, next))
  {
    var rest := [EndElement] + ts;
    var us := [StartElement(element, attrs)] + rest;
    assert us[0] == StartElement(element, attrs) && us[1..] == rest;
    assert rest[0] == EndElement;
    assert SkipLength(rest, 1) == Some(1);
    assert us[1 + 1..] == ts;
    assert DecodeElement(rec, fields, us[0], us[1..], coerce) == Decoded(next, 1);
    ExtractWanted(us, element, fields, coerce, rec, next, 1);
  }

  /**
   * `c` is what follows a start tag up to and including its matching end
   * tag: no nil token, and the nesting closes at its last token and not
   * before.
   */
  predicate Closes(c: seq<Token>)
  {
    (forall m :: 0 <= m < |c| ==> !c[m].Nil?) &&
    1 + Balance(c) == 0 &&
    (forall m :: 0 <= m < |c| ==> 1 + Balance(c[..m]) > 0)
  }

  /** Skipping a closed content stops exactly at its end tag, whatever follows. */
  lemma ClosesSkip(c: seq<Token>, ts: seq<Token>)
    requires Closes(c)
    ensures SkipLength(c + ts, 1) == Some(|c|)
  {
    var rest := c + ts;
    var whole := rest[..|c|];
    assert whole == c;
    SkipLengthCloses(rest, 1, |c|);
    var k := SkipLength(rest, 1).value;
    SkipLengthBalanced(rest, 1);
    assert k <= |c| ==> rest[..k] == c[..k];
    assert k > |c| ==> 1 + Balance(whole) > 0;
  }

  /**
   * A wanted element whose attributes are all accepted, whatever its
   * content, adds exactly the row of the record it decodes to; its content,
   * nested wanted elements included, adds nothing, and the loop goes on
   * after its end tag with that record (main.go:529-541).
   */
  lemma ExtractElement(attrs: seq<Attr>, c: seq<Token>, ts: seq<Token>, element: string, fields: seq<Field>,
                       coerce: Coercion, rec: Record, next: Record)
    requires |rec| == |fields| && AssignAttrs(rec, fields, attrs, coerce) == Some(next)
    requires Closes(c)
    ensures |next| == |fields|
    ensures Extract([StartElement(element, attrs)] + (c + ts), element, fields, coerce, rec) ==
      Prepend([RowOf(ColumnsOf(fields), next)], Extract(ts, element, fields, coerce, next))
  {
    var start := StartElement(element, attrs);
    ClosesSkip(c, ts);
    assert DecodeElement(rec, fields, start, c + ts, coerce) == Decoded(next, |c|);
    ExtractWantedAfter(start, c + ts, element, fields, coerce, rec, next, |c|);
    assert (c + ts)[|c|..] == ts;
  }

  /** A run of wanted elements, each with its attributes and its content up to its end tag. */
  function Elements(element: string, attrss: seq<seq<Attr>>, contents: seq<seq<Token>>): (ts: seq<Token>)
    requires |contents| == |attrss|
  {
    if attrss == [] then [] else [StartElement(element, attrss[0])] + (contents[0] + Elements(element, attrss[1..], contents[1..]))
  }

  /** No attribute of the run is refused by a field tagged with its name. */
  predicate Accepted(fields: seq<Field>, attrss: seq<seq<Attr>>, coerce: Coercion)
  {
    forall k, i, j :: 0 <= k < |attrss| && 0 <= i < |attrss[k]| && 0 <= j < |fields| && fields[j].attr == attrss[k][i].name ==>
      coerce(fields[j].kind, attrss[k][i].value).Some?
  }

  /** The shared record after the run has been decoded into it, element by element. */
  function Replay(rec: Record, fields: seq<Field>, attrss: seq<seq<Attr>>, coerce: Coercion): (r: Record)
    requires |rec| == |fields|
    ensures |r| == |fields|
    decreases |attrss|
  {
    if attrss == [] then rec
    else match AssignAttrs(rec, fields, attrss[0], coerce)
      case None => rec
      case Some(next) => Replay(next, fields, attrss[1..], coerce)
  }

  /** The first element of an accepted run decodes. */
  lemma AcceptedHead(fields: seq<Field>, attrss: seq<seq<Attr>>, coerce: Coercion, rec: Record)
    requires |rec| == |fields| && attrss != [] && Accepted(fields, attrss, coerce)
    ensures AssignAttrs(rec, fields, attrss[0], coerce).Some?
  {
    var head := attrss[0];
    forall i, j | 0 <= i < |head| && 0 <= j < |fields| && fields[j].attr == head[i].name
      ensures coerce(fields[j].kind, head[i].value).Some?
    {
      assert head == attrss[0];
    }
    AssignAttrsFails(rec, fields, head, coerce);
  }

  /** The rest of an accepted run is accepted. */
  lemma AcceptedTail(fields: seq<Field>, attrss: seq<seq<Attr>>, coerce: Coercion)
    requires attrss != [] && Accepted(fields, attrss, coerce)
    ensures Accepted(fields, attrss[1..], coerce)
  {
    var tail: seq<seq<Attr>> := attrss[1..];
    forall k: int, i: int, j: int | 0 <= k < |tail| && 0 <= i < |tail[k]| && 0 <= j < |fields| && fields[j].attr == tail[k][i].name
      ensures coerce(fields[j].kind, tail[k][i].value).Some?
    {
      assert tail[k] == attrss[k + 1];
    }
  }

  /** One more row in front keeps the count and the tail. */
  lemma PrependCount(row: Row, x: Extraction, z: Extraction, y: Extraction, n: nat)
    requires x == Prepend([row], z)
    requires z.decodeFailed == y.decodeFailed && |z.rows| == n + |y.rows| && z.rows[n..] == y.rows
    ensures x.decodeFailed == y.decodeFailed && |x.rows| == n + 1 + |y.rows| && x.rows[n + 1..] == y.rows
  {
    assert x.rows[n + 1..] == z.rows[n..];
  }

  /**
   * A run of accepted wanted elements, whatever their content, adds one row
   * per element, before the rows of whatever follows, which is read with the
   * record the run left.
   */
  lemma {:induction false} ExtractCount(attrss: seq<seq<Attr>>, contents: seq<seq<Token>>, ts: seq<Token>, element: string,
                                       fields: seq<Field>, coerce: Coercion, rec: Record)
    requires |rec| == |fields| && Accepted(fields, attrss, coerce)
    requires |contents| == |attrss| && forall k :: 0 <= k < |contents| ==> Closes(contents[k])
    ensures var x := Extract(Elements(element, attrss, contents) + ts, element, fields, coerce, rec);
      var y := Extract(ts, element, fields, coerce, Replay(rec, fields, attrss, coerce));
      x.decodeFailed == y.decodeFailed && |x.rows| == |attrss| + |y.rows| && x.rows[|attrss|..] == y.rows
    decreases |attrss|
  {
    if attrss != [] {
      var head, tail := attrss[0], attrss[1..];
      var c, cs := contents[0], contents[1..];
      AcceptedHead(fields, attrss, coerce, rec);
      AcceptedTail(fields, attrss, coerce);
      var next := AssignAttrs(rec, fields, head, coerce).value;
      assert Replay(rec, fields, attrss, coerce) == Replay(next, fields, tail, coerce);
      var rest := Elements(element, tail, cs);
      assert Elements(element, attrss, contents) + ts == [StartElement(element, head)] + (c + (rest + ts));
      assert Closes(c);
      ExtractElement(head, c, rest + ts, element, fields, coerce, rec, next);
      forall k | 0 <= k < |cs| ensures Closes(cs[k]) {
        assert cs[k] == contents[k + 1];
      }
      ExtractCount(tail, cs, ts, element, fields, coerce, next);
      PrependCount(RowOf(ColumnsOf(fields), next),
                   Extract(Elements(element, attrss, contents) + ts, element, fields, coerce, rec),
                   Extract(rest + ts, element, fields, coerce, next),
                   Extract(ts, element, fields, coerce, Replay(next, fields, tail, coerce)), |tail|);
    } else {
      assert Elements(element, attrss, contents) + ts == ts;
    }
  }
}
