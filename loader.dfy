/**
 * `Parse` (main.go:451-579): loads one extract into its table.
 *
 * A file larger than 20388921 bytes is loaded into a shadow table
 * `temp_<table>` created like the real one, and a smaller file straight into
 * the real table after truncating it. The token loop turns every start
 * element with the wanted name into a row of the shared record, and every
 * 5000 rows are sent as one bulk insert. Only when rows are left over at the
 * end are they inserted and, on the shadow path, the real table dropped and
 * the shadow renamed into its place. The shadow table is dropped on every
 * return once it has been created.
 */
module Loader {
  import opened Wrappers
  import opened Records
  import opened Xml
  import opened Store

  /** Rows per bulk insert (main.go:547). */
  const BatchSize: nat := 5000

  /** Files above this many bytes are loaded through a shadow table (main.go:477). */
  const LargeFileSize: nat := 20388921

  /** What `os.Open` and `file.Stat` give `Parse`: nothing, or the size and the token stream. */
  datatype Source = Unreadable | File(size: nat, tokens: seq<Token>)

  /** The error `Parse` returns, by the step that failed. */
  datatype LoadError = OpenFailed | CreateFailed | TruncateFailed | DecodeFailed | InsertFailed | SwapFailed

  function ShadowName(table: string): string
  {
    "temp_" + table
  }

  /** The rows the token loop produces, and whether it stopped at a decode error. */
  datatype Extraction = Extraction(rows: seq<Row>, decodeFailed: bool)

  function Prepend(rows: seq<Row>, x: Extraction): Extraction
  {
    Extraction(rows + x.rows, x.decodeFailed)
  }

  /**
   * The token loop (main.go:516-545) as a function of the remaining tokens
   * and the shared record `rec`: it ends at the first nil token, decodes
   * every start element called `element` into `rec` and emits a row of it,
   * and skips every other token.
   */
  function Extract(ts: seq<Token>, element: string, fields: seq<Field>, coerce: Coercion, rec: Record): (x: Extraction)
    requires |rec| == |fields|
    decreases |ts|
  {
    if ts == [] || ts[0].Nil? then Extraction([], false)
    else if ts[0].StartElement? && ts[0].local == element then
      match DecodeElement(rec, fields, ts[0], ts[1..], coerce)
      case DecodeError => Extraction([], true)
      case Decoded(next, k) =>
        Prepend([RowOf(ColumnsOf(fields), next)], Extract(ts[1 + k..], element, fields, coerce, next))
    else Extract(ts[1..], element, fields, coerce, rec)
  }

  /** The full batches of `rows`, in order. */
  function Batches(rows: seq<Row>): (bs: seq<seq<Row>>)
    ensures forall k :: 0 <= k < |bs| ==> |bs[k]| == BatchSize
    decreases |rows|
  {
    if |rows| < BatchSize then [] else [rows[..BatchSize]] + Batches(rows[BatchSize..])
  }

  /** The rows left after the full batches. */
  function Remainder(rows: seq<Row>): seq<Row>
    decreases |rows|
  {
    if |rows| < BatchSize then rows else Remainder(rows[BatchSize..])
  }

  function Flatten(bs: seq<seq<Row>>): seq<Row>
  {
    if bs == [] then [] else bs[0] + Flatten(bs[1..])
  }

  /** One bulk insert per batch. */
  function Inserts(target: string, bs: seq<seq<Row>>): (ss: seq<Stmt>)
    ensures |ss| == |bs|
    ensures forall k :: 0 <= k < |bs| ==> ss[k] == Insert(target, bs[k])
  {
    seq(|bs|, k requires 0 <= k < |bs| => Insert(target, bs[k]))
  }

  /**
   * The statements after the loop (main.go:556-574): only when rows are left
   * over, their insert and, on the shadow path, the swap.
   */
  function FinalFlush(x: Extraction, table: string, target: string): seq<Stmt>
  {
    if !x.decodeFailed && Remainder(x.rows) != [] then
      [Insert(target, Remainder(x.rows))] + (if target != table then [DropAndRename(table, target)] else [])
    else []
  }

  /** Every statement the load would send after its setup if none failed. */
  function Plan(x: Extraction, table: string, target: string): seq<Stmt>
  {
    Inserts(target, Batches(x.rows)) + FinalFlush(x, table, target)
  }

  function ErrorOf(s: Stmt): LoadError
  {
    match s
    case CreateLike(_, _) => CreateFailed
    case Truncate(_) => TruncateFailed
    case Insert(_, _) => InsertFailed
    case Drop(_) => InsertFailed  // unreachable: no plan holds a DROP, and the deferred DROP's error is discarded (main.go:487)
    case DropAndRename(_, _) => SwapFailed
  }

  /** The error of a load: the failed statement's, else a decode error, else none. */
  function LoadResult(x: Extraction, r: Run): Option<LoadError>
  {
    if r.failed && r.issued != [] then Some(ErrorOf(r.issued[|r.issued| - 1]))
    else if x.decodeFailed then Some(DecodeFailed)
    else None
  }

  /** The tables after `Parse`, the statements it sent, and the error it returned. */
  datatype Outcome = Outcome(tables: Tables, issued: seq<Stmt>, err: Option<LoadError>)

  /** The statements of a load after its setup, sent until the first failure. */
  function LoadSpec(t: Tables, n: nat, faults: set<nat>, x: Extraction, table: string, target: string): Outcome
  {
    var r := Execute(t, n, faults, Plan(x, table, target));
    Outcome(r.tables, r.issued, LoadResult(x, r))
  }

  /** The shadow path, once CREATE TABLE has succeeded with tables `t1`: load, then the deferred drop. */
  function ShadowSpec(t1: Tables, n: nat, faults: set<nat>, x: Extraction, table: string): Outcome
  {
    var shadow := ShadowName(table);
    var o := LoadSpec(t1, n, faults, x, table, shadow);
    var dropped := Execute(o.tables, n + |o.issued|, faults, [Drop(shadow)]);
    Outcome(dropped.tables, o.issued + [Drop(shadow)], o.err)
  }

  /**
   * `Parse` from tables `t`, its first statement being number `n` of the
   * session.
   */
  function ParseSpec(t: Tables, n: nat, faults: set<nat>, source: Source,
                     table: string, element: string, fields: seq<Field>, coerce: Coercion): Outcome
  {
    match source
    case Unreadable => Outcome(t, [], Some(OpenFailed))
    case File(size, tokens) =>
      var x := Extract(tokens, element, fields, coerce, ZeroRecord(fields));
      var setup := if size > LargeFileSize then CreateLike(ShadowName(table), table) else Truncate(table);
      match Step(t, n, faults, setup)
      case None => Outcome(t, [setup], Some(ErrorOf(setup)))
      case Some(t1) =>
        var o := if size > LargeFileSize then ShadowSpec(t1, n + 1, faults, x, table)
                 else LoadSpec(t1, n + 1, faults, x, table, table);
        Outcome(o.tables, [setup] + o.issued, o.err)
  }

  // ---------------------------------------------------------------------
  // Batches

  /** Full batches first, then fewer than `BatchSize` rows: nothing is lost or repeated. */
  lemma {:induction false} BatchesCover(rows: seq<Row>)
    ensures Flatten(Batches(rows)) + Remainder(rows) == rows
    ensures |Remainder(rows)| < BatchSize
    ensures |Batches(rows)| == |rows| / BatchSize
    ensures |Remainder(rows)| == |rows| % BatchSize
    decreases |rows|
  {
    if |rows| >= BatchSize {
      BatchesCover(rows[BatchSize..]);
      calc {
        Flatten(Batches(rows)) + Remainder(rows);
        rows[..BatchSize] + Flatten(Batches(rows[BatchSize..])) + Remainder(rows[BatchSize..]);
        rows[..BatchSize] + rows[BatchSize..];
        rows;
      }
    }
  }

  /** Rows that follow whole batches are cut into those batches and then batched on their own. */
  lemma {:induction false} BatchesAfterFull(bs: seq<seq<Row>>, tail: seq<Row>)
    requires forall k :: 0 <= k < |bs| ==> |bs[k]| == BatchSize
    ensures Batches(Flatten(bs) + tail) == bs + Batches(tail)
    ensures Remainder(Flatten(bs) + tail) == Remainder(tail)
    decreases |bs|
  {
    if bs == [] {
      assert Flatten(bs) + tail == tail;
    } else {
      var rows := Flatten(bs) + tail;
      assert rows == bs[0] + (Flatten(bs[1..]) + tail);
      assert rows[..BatchSize] == bs[0];
      assert rows[BatchSize..] == Flatten(bs[1..]) + tail;
      BatchesAfterFull(bs[1..], tail);
    }
  }

  lemma {:induction false} FlattenSnoc(bs: seq<seq<Row>>, b: seq<Row>)
    ensures Flatten(bs + [b]) == Flatten(bs) + b
    decreases |bs|
  {
    if bs == [] {
      assert [b][1..] == [];
    } else {
      assert (bs + [b])[1..] == bs[1..] + [b];
      FlattenSnoc(bs[1..], b);
    }
  }

  // ---------------------------------------------------------------------
  // The load after the setup statement

  /** The outcome of sending `s`, which succeeded, and then whatever `o` describes. */
  function Then(s: Stmt, o: Outcome): Outcome
  {
    Outcome(o.tables, [s] + o.issued, o.err)
  }

  /** The statements after the loop (main.go:556-574), statement by statement. */
  function Flush(t: Tables, n: nat, faults: set<nat>, table: string, target: string, buffer: seq<Row>): Outcome
  {
    if buffer == [] then Outcome(t, [], None)
    else
      match Step(t, n, faults, Insert(target, buffer))
      case None => Outcome(t, [Insert(target, buffer)], Some(InsertFailed))
      case Some(t1) =>
        if target == table then Outcome(t1, [Insert(target, buffer)], None)
        else
          match Step(t1, n + 1, faults, DropAndRename(table, target))
          case None => Outcome(t1, [Insert(target, buffer), DropAndRename(table, target)], Some(SwapFailed))
          case Some(t2) => Outcome(t2, [Insert(target, buffer), DropAndRename(table, target)], None)
  }

  /**
   * The token loop of main.go:516-554 followed by the flush, statement by
   * statement, from tables `t`, shared record `rec` and the rows `buffer`
   * not yet sent.
   */
  function LoadLoop(t: Tables, n: nat, faults: set<nat>, ts: seq<Token>, table: string, target: string,
                    element: string, fields: seq<Field>, coerce: Coercion, rec: Record, buffer: seq<Row>): Outcome
    requires |rec| == |fields| && |buffer| < BatchSize
    decreases |ts|
  {
    if ts == [] || ts[0].Nil? then Flush(t, n, faults, table, target, buffer)
    else if ts[0].StartElement? && ts[0].local == element then
      match DecodeElement(rec, fields, ts[0], ts[1..], coerce)
      case DecodeError => Outcome(t, [], Some(DecodeFailed))
      case Decoded(next, k) =>
        var full := buffer + [RowOf(ColumnsOf(fields), next)];
        if |full| < BatchSize then LoadLoop(t, n, faults, ts[1 + k..], table, target, element, fields, coerce, next, full)
        else
          match Step(t, n, faults, Insert(target, full))
          case None => Outcome(t, [Insert(target, full)], Some(InsertFailed))
          case Some(t1) => Then(Insert(target, full), LoadLoop(t1, n + 1, faults, ts[1 + k..], table, target, element, fields, coerce, next, []))
    else LoadLoop(t, n, faults, ts[1..], table, target, element, fields, coerce, rec, buffer)
  }

  // A generic fact about sequences, used by the proofs below.
  lemma AppendAssoc<T>(a: seq<T>, b: seq<T>, c: seq<T>, d: seq<T>)
    ensures a + b + c == a + (b + c)
    ensures a + b + c + d == a + (b + (c + d))
  {
  }

  /** At the end of the tokens, the flush is the plan of the rows left in the buffer. */
  lemma FlushIsPlan(t: Tables, n: nat, faults: set<nat>, table: string, target: string, buffer: seq<Row>)
    requires |buffer| < BatchSize
    ensures Flush(t, n, faults, table, target, buffer) == LoadSpec(t, n, faults, Extraction(buffer, false), table, target)
  {
    var x := Extraction(buffer, false);
    assert Batches(buffer) == [] && Remainder(buffer) == buffer;
    assert Inserts(target, []) == [];
    if buffer == [] {
      assert Plan(x, table, target) == [];
    } else if target == table {
      assert Plan(x, table, target) == [Insert(target, buffer)];
      ExecuteSingle(t, n, faults, Insert(target, buffer));
    } else {
      assert Plan(x, table, target) == [Insert(target, buffer), DropAndRename(table, target)];
      ExecutePair(t, n, faults, Insert(target, buffer), DropAndRename(table, target));
    }
  }

  /** A full buffer is one more insert in front of the plan of the rows after it. */
  lemma FullBatchPlan(full: seq<Row>, x: Extraction, table: string, target: string)
    requires |full| == BatchSize
    ensures Plan(Prepend(full, x), table, target) == [Insert(target, full)] + Plan(x, table, target)
  {
    var rows := full + x.rows;
    assert rows[..BatchSize] == full && rows[BatchSize..] == x.rows;
    assert Batches(rows) == [full] + Batches(x.rows);
    assert Remainder(rows) == Remainder(x.rows);
    assert Inserts(target, [full] + Batches(x.rows)) == [Insert(target, full)] + Inserts(target, Batches(x.rows));
  }

  /** Sending a full batch first, as `LoadSpec` describes it. */
  lemma FullBatchSpec(t: Tables, n: nat, faults: set<nat>, full: seq<Row>, x: Extraction, table: string, target: string)
    requires |full| == BatchSize
    ensures LoadSpec(t, n, faults, Prepend(full, x), table, target) ==
      match Step(t, n, faults, Insert(target, full))
      case None => Outcome(t, [Insert(target, full)], Some(InsertFailed))
      case Some(t1) => Then(Insert(target, full), LoadSpec(t1, n + 1, faults, x, table, target))
  {
    FullBatchPlan(full, x, table, target);
    var p := [Insert(target, full)] + Plan(x, table, target);
    assert p[0] == Insert(target, full) && p[1..] == Plan(x, table, target);
    match Step(t, n, faults, Insert(target, full))
    case None =>
    case Some(t1) =>
      var r := Execute(t1, n + 1, faults, Plan(x, table, target));
      if r.failed {
        assert ([Insert(target, full)] + r.issued)[|r.issued|] == r.issued[|r.issued| - 1];
      }
  }

  /** The statement-by-statement loop sends exactly the batch plan of the rows it extracts. */
  lemma {:induction false} LoadLoopIsLoadSpec(t: Tables, n: nat, faults: set<nat>, ts: seq<Token>, table: string, target: string,
                                             element: string, fields: seq<Field>, coerce: Coercion, rec: Record, buffer: seq<Row>)
    requires |rec| == |fields| && |buffer| < BatchSize
    ensures LoadLoop(t, n, faults, ts, table, target, element, fields, coerce, rec, buffer) ==
      LoadSpec(t, n, faults, Prepend(buffer, Extract(ts, element, fields, coerce, rec)), table, target)
    decreases |ts|
  {
    var x := Prepend(buffer, Extract(ts, element, fields, coerce, rec));
    if ts == [] || ts[0].Nil? {
      assert buffer + [] == buffer;
      FlushIsPlan(t, n, faults, table, target, buffer);
    } else if ts[0].StartElement? && ts[0].local == element {
      match DecodeElement(rec, fields, ts[0], ts[1..], coerce)
      case DecodeError =>
        assert buffer + [] == buffer;
        assert Batches(buffer) == [];
        assert Plan(x, table, target) == [];
      case Decoded(next, k) =>
        var full := buffer + [RowOf(ColumnsOf(fields), next)];
        var rest := Extract(ts[1 + k..], element, fields, coerce, next);
        assert x == Prepend(full, rest) by {
          AppendAssoc(buffer, [RowOf(ColumnsOf(fields), next)], rest.rows, []);
        }
        if |full| < BatchSize {
          LoadLoopIsLoadSpec(t, n, faults, ts[1 + k..], table, target, element, fields, coerce, next, full);
        } else {
          FullBatchSpec(t, n, faults, full, rest, table, target);
          match Step(t, n, faults, Insert(target, full))
          case None =>
          case Some(t1) =>
            assert Prepend([], rest) == rest;
            LoadLoopIsLoadSpec(t1, n + 1, faults, ts[1 + k..], table, target, element, fields, coerce, next, []);
        }
    } else {
      LoadLoopIsLoadSpec(t, n, faults, ts[1..], table, target, element, fields, coerce, rec, buffer);
    }
  }

  /** A token other than a wanted start element is passed over. */
  lemma LoadLoopSkip(t: Tables, n: nat, faults: set<nat>, ts: seq<Token>, table: string, target: string,
                     element: string, fields: seq<Field>, coerce: Coercion, rec: Record, buffer: seq<Row>)
    requires |rec| == |fields| && |buffer| < BatchSize
    requires ts != [] && !ts[0].Nil? && !(ts[0].StartElement? && ts[0].local == element)
    ensures LoadLoop(t, n, faults, ts, table, target, element, fields, coerce, rec, buffer) ==
      LoadLoop(t, n, faults, ts[1..], table, target, element, fields, coerce, rec, buffer)
  {
  }

  /** One decoded element whose row leaves the buffer short of a batch. */
  lemma LoadLoopRow(t: Tables, n: nat, faults: set<nat>, ts: seq<Token>, table: string, target: string,
                    element: string, fields: seq<Field>, coerce: Coercion, rec: Record, buffer: seq<Row>,
                    next: Record, k: nat, rest: seq<Token>, longer: seq<Row>)
    requires |rec| == |fields| && |buffer| < BatchSize
    requires ts != [] && ts[0].StartElement? && ts[0].local == element
    requires DecodeElement(rec, fields, ts[0], ts[1..], coerce) == Decoded(next, k)
    requires 1 + k <= |ts| && rest == ts[1 + k..]
    requires longer == buffer + [RowOf(ColumnsOf(fields), next)] && |longer| < BatchSize
    ensures |next| == |fields|
    ensures LoadLoop(t, n, faults, ts, table, target, element, fields, coerce, rec, buffer) ==
      LoadLoop(t, n, faults, rest, table, target, element, fields, coerce, next, longer)
  {
  }

  /**
   * The bulk insert of a full batch (main.go:547-553), for the element at the
   * head of `ts` whose row completed the batch `full`.
   */
  method SendBatch(db: Database, ghost ts: seq<Token>, table: string, target: string,
                   ghost element: string, ghost fields: seq<Field>, ghost coerce: Coercion,
                   ghost rec: Record, ghost buffer: seq<Row>, ghost next: Record, ghost k: nat, ghost rest: seq<Token>,
                   full: seq<Row>)
    returns (ok: bool)
    requires |rec| == |fields| && |buffer| < BatchSize
    requires ts != [] && ts[0].StartElement? && ts[0].local == element
    requires DecodeElement(rec, fields, ts[0], ts[1..], coerce) == Decoded(next, k)
    requires 1 + k <= |ts| && rest == ts[1 + k..]
    requires full == buffer + [RowOf(ColumnsOf(fields), next)] && |full| == BatchSize
    modifies db
    ensures |next| == |fields|
    ensures db.log == old(db.log) + [Insert(target, full)]
    ensures var o := LoadLoop(old(db.tables), |old(db.log)|, db.faults, ts, table, target, element, fields, coerce, rec, buffer);
      if ok then o == Then(Insert(target, full), LoadLoop(db.tables, |db.log|, db.faults, rest, table, target, element, fields, coerce, next, []))
      else o == Outcome(db.tables, [Insert(target, full)], Some(InsertFailed))
  {
    ok := db.Exec(Insert(target, full));
  }

  /** The statements after the loop (main.go:556-574): the rows left over, then the swap. */
  method FlushBuffer(db: Database, table: string, target: string, buffer: seq<Row>) returns (err: Option<LoadError>)
    modifies db
    ensures var o := Flush(old(db.tables), |old(db.log)|, db.faults, table, target, buffer);
      db.tables == o.tables && db.log == old(db.log) + o.issued && err == o.err
  {
    if |buffer| > 0 {
      var ok := db.Exec(Insert(target, buffer));
      if !ok {
        return Some(InsertFailed);
      }
      if target != table {
        ok := db.Exec(DropAndRename(table, target));
        if !ok {
          return Some(SwapFailed);
        }
        assert old(db.log) + [Insert(target, buffer)] + [DropAndRename(table, target)] ==
               old(db.log) + [Insert(target, buffer), DropAndRename(table, target)];
      }
    }
    return None;
  }

  /** The token loop, the batch inserts and the final flush (main.go:500-578). */
  method Load(db: Database, ts: seq<Token>, table: string, target: string,
              element: string, fields: seq<Field>, coerce: Coercion)
    returns (err: Option<LoadError>)
    modifies db
    ensures var o := LoadLoop(old(db.tables), |old(db.log)|, db.faults, ts, table, target, element, fields, coerce, ZeroRecord(fields), []);
      db.tables == o.tables && db.log == old(db.log) + o.issued && err == o.err
  {
    var columns := ColumnNames(fields);
    var rec := ZeroRecord(fields);
    var buffer: seq<Row> := [];
    ghost var goal := LoadLoop(db.tables, |db.log|, db.faults, ts, table, target, element, fields, coerce, rec, buffer);
    ghost var sent: seq<Stmt> := [];
    assert ts[0..] == ts;
    var i := 0;
    while i < |ts| && !ts[i].Nil?
      invariant 0 <= i <= |ts|
      invariant |rec| == |fields| && columns[..] == ColumnsOf(fields) && |buffer| < BatchSize
      invariant db.log == old(db.log) + sent
      invariant var o := LoadLoop(db.tables, |db.log|, db.faults, ts[i..], table, target, element, fields, coerce, rec, buffer);
        goal == Outcome(o.tables, sent + o.issued, o.err)
      decreases |ts| - i
    {
      ghost var o := LoadLoop(db.tables, |db.log|, db.faults, ts[i..], table, target, element, fields, coerce, rec, buffer);
      ghost var here, old_rec, old_buffer, k := ts[i..], rec, buffer, 0;
      var t := ts[i];
      assert here[0] == t && here[1..] == ts[i + 1..];
      i := i + 1;
      if t.StartElement? && t.local == element {
        var d := DecodeElement(rec, fields, t, ts[i..], coerce);
        if d.DecodeError? {
          assert o == Outcome(db.tables, [], Some(DecodeFailed));
          assert sent + [] == sent;
          return Some(DecodeFailed);
        }
        assert here[1 + d.consumed..] == ts[i + d.consumed..];
        k := d.consumed;
        rec := d.rec;
        i := i + d.consumed;
        var row := BuildRow(columns, rec);
        buffer := buffer + [row];
        if |buffer| < BatchSize {
          LoadLoopRow(db.tables, |db.log|, db.faults, here, table, target, element, fields, coerce, old_rec, old_buffer,
                      rec, k, ts[i..], buffer);
        }
      } else {
        LoadLoopSkip(db.tables, |db.log|, db.faults, here, table, target, element, fields, coerce, rec, buffer);
      }
      if |buffer| == BatchSize {
        var ok := SendBatch(db, here, table, target, element, fields, coerce, old_rec, old_buffer, rec, k, ts[i..], buffer);
        if !ok {
          AppendAssoc(old(db.log), sent, [Insert(target, buffer)], []);
          return Some(InsertFailed);
        }
        ghost var rest := LoadLoop(db.tables, |db.log|, db.faults, ts[i..], table, target, element, fields, coerce, rec, []);
        AppendAssoc(sent, [Insert(target, buffer)], rest.issued, []);
        AppendAssoc(old(db.log), sent, [Insert(target, buffer)], []);
        sent := sent + [Insert(target, buffer)];
        buffer := [];
      }
    }
    ghost var f := Flush(db.tables, |db.log|, db.faults, table, target, buffer);
    err := FlushBuffer(db, table, target, buffer);
    AppendAssoc(old(db.log), sent, f.issued, []);
  }

  /** `ParseSpec` of a large file once the shadow table exists, statement by statement. */
  lemma ShadowParseSpec(t: Tables, n: nat, faults: set<nat>, size: nat, tokens: seq<Token>,
                        table: string, element: string, fields: seq<Field>, coerce: Coercion, t1: Tables)
    requires size > LargeFileSize
    requires Step(t, n, faults, CreateLike(ShadowName(table), table)) == Some(t1)
    ensures var shadow := ShadowName(table);
      var l := LoadLoop(t1, n + 1, faults, tokens, table, shadow, element, fields, coerce, ZeroRecord(fields), []);
      var s := Step(l.tables, n + 1 + |l.issued|, faults, Drop(shadow));
      ParseSpec(t, n, faults, File(size, tokens), table, element, fields, coerce) ==
        Outcome(if s.Some? then s.value else l.tables, [CreateLike(shadow, table)] + (l.issued + [Drop(shadow)]), l.err)
  {
    var x := Extract(tokens, element, fields, coerce, ZeroRecord(fields));
    LoadLoopIsLoadSpec(t1, n + 1, faults, tokens, table, ShadowName(table), element, fields, coerce, ZeroRecord(fields), []);
    assert Prepend([], x) == x;
    var o := LoadSpec(t1, n + 1, faults, x, table, ShadowName(table));
    ExecuteSingle(o.tables, n + 1 + |o.issued|, faults, Drop(ShadowName(table)));
  }

  /** `ParseSpec` of a small file once its table is truncated, statement by statement. */
  lemma InPlaceParseSpec(t: Tables, n: nat, faults: set<nat>, size: nat, tokens: seq<Token>,
                         table: string, element: string, fields: seq<Field>, coerce: Coercion, t1: Tables)
    requires size <= LargeFileSize
    requires Step(t, n, faults, Truncate(table)) == Some(t1)
    ensures var l := LoadLoop(t1, n + 1, faults, tokens, table, table, element, fields, coerce, ZeroRecord(fields), []);
      ParseSpec(t, n, faults, File(size, tokens), table, element, fields, coerce) ==
        Outcome(l.tables, [Truncate(table)] + l.issued, l.err)
  {
    var x := Extract(tokens, element, fields, coerce, ZeroRecord(fields));
    LoadLoopIsLoadSpec(t1, n + 1, faults, tokens, table, table, element, fields, coerce, ZeroRecord(fields), []);
    assert Prepend([], x) == x;
  }

  /** `Parse` (main.go:451-579). */
  method Parse(db: Database, source: Source, table: string, element: string, fields: seq<Field>, coerce: Coercion)
    returns (err: Option<LoadError>)
    modifies db
    ensures var o := ParseSpec(old(db.tables), |old(db.log)|, db.faults, source, table, element, fields, coerce);
      db.tables == o.tables && db.log == old(db.log) + o.issued && err == o.err
  {
    if source.Unreadable? {
      return Some(OpenFailed);
    }
    ghost var n, t0, log0 := |db.log|, db.tables, db.log;
    var target := table;
    var shadowed := false;
    if source.size > LargeFileSize {
      target := ShadowName(table);
      var ok := db.Exec(CreateLike(target, table));
      if !ok {
        return Some(CreateFailed);
      }
      shadowed := true;  // from here on the deferred DROP TABLE runs on every return
    }
    if target == table {
      var ok := db.Exec(Truncate(target));
      if !ok {
        return Some(TruncateFailed);
      }
    }
    ghost var t1 := db.tables;
    ghost var l := LoadLoop(t1, n + 1, db.faults, source.tokens, table, target, element, fields, coerce, ZeroRecord(fields), []);
    err := Load(db, source.tokens, table, target, element, fields, coerce);
    if shadowed {
      var _ := db.Exec(Drop(target));
      ShadowParseSpec(t0, n, db.faults, source.size, source.tokens, table, element, fields, coerce, t1);
      AppendAssoc(log0, [CreateLike(target, table)], l.issued, [Drop(target)]);
    } else {
      InPlaceParseSpec(t0, n, db.faults, source.size, source.tokens, table, element, fields, coerce, t1);
      AppendAssoc(log0, [Truncate(table)], l.issued, []);
    }
  }
}
