/**
 * The relational store as `Parse` uses it (main.go:476-498, 548-572).
 *
 * Tables are named sequences of rows. Every statement is atomic: it either
 * takes full effect or none. A statement fails when the store's own rules
 * reject it (a missing table, a name already taken) or when it is one of the
 * statements listed in `faults`, counted from the first statement sent to
 * the store; the fault schedule stands for connection loss, constraint and
 * column violations and every other failure the model does not reproduce.
 */
module Store {
  import opened Wrappers
  import opened Records

  type Tables = map<string, seq<Row>>

  datatype Stmt =
    | CreateLike(name: string, source: string)      // CREATE TABLE name ( like source including all)
    | Truncate(name: string)                        // TRUNCATE name
    | Insert(name: string, rows: seq<Row>)          // INSERT INTO name ... (one bulk insert)
    | Drop(name: string)                            // DROP TABLE name
    | DropAndRename(table: string, shadow: string)  // DROP TABLE table; ALTER TABLE shadow RENAME TO table

  /** The effect of a statement on the tables; None when the store rejects it. */
  function Apply(t: Tables, s: Stmt): Option<Tables>
  {
    match s
    case CreateLike(name, source) =>
      if source in t && name !in t then Some(t[name := []]) else None
    case Truncate(name) =>
      if name in t then Some(t[name := []]) else None
    case Insert(name, rows) =>
      if name in t then Some(t[name := t[name] + rows]) else None
    case Drop(name) =>
      if name in t then Some(t - {name}) else None
    case DropAndRename(table, shadow) =>
      if table in t && shadow in t && table != shadow then Some(t[table := t[shadow]] - {shadow}) else None
  }

  /** Statement number `index` of the session: it fails if scheduled to, or if the store rejects it. */
  function Step(t: Tables, index: nat, faults: set<nat>, s: Stmt): Option<Tables>
  {
    if index in faults then None else Apply(t, s)
  }

  /** Tables after a run of statements, the statements sent, and whether the last one failed. */
  datatype Run = Run(tables: Tables, issued: seq<Stmt>, failed: bool)

  /**
   * Sends the statements of `plan` in order, starting at statement number
   * `start`, and stops after the first one that fails (a failed statement
   * is still sent, and changes nothing).
   */
  function Execute(t: Tables, start: nat, faults: set<nat>, plan: seq<Stmt>): Run
    decreases |plan|
  {
    if plan == [] then Run(t, [], false)
    else
      match Step(t, start, faults, plan[0])
      case None => Run(t, [plan[0]], true)
      case Some(t1) =>
        var r := Execute(t1, start + 1, faults, plan[1..]);
        Run(r.tables, [plan[0]] + r.issued, r.failed)
  }

  /** Running `p + q` is running `p`, then, unless it failed, running `q` from where `p` left off. */
  lemma {:induction false} ExecuteAppend(t: Tables, start: nat, faults: set<nat>, p: seq<Stmt>, q: seq<Stmt>)
    ensures var rp := Execute(t, start, faults, p);
      var rq := Execute(rp.tables, start + |p|, faults, q);
      Execute(t, start, faults, p + q) ==
        if rp.failed then rp else Run(rq.tables, p + rq.issued, rq.failed)
    decreases |p|
  {
    if p == [] {
      assert p + q == q;
    } else {
      assert (p + q)[0] == p[0];
      assert (p + q)[1..] == p[1..] + q;
      match Step(t, start, faults, p[0])
      case None =>
      case Some(t1) =>
        ExecuteAppend(t1, start + 1, faults, p[1..], q);
    }
  }

  /**
   * The statements sent are the first ones of the plan: all of them when none
   * failed, else those up to and including the one that failed.
   */
  lemma {:induction false} ExecuteIssued(t: Tables, start: nat, faults: set<nat>, plan: seq<Stmt>)
    ensures var r := Execute(t, start, faults, plan);
      |r.issued| <= |plan| && r.issued == plan[..|r.issued|] &&
      (r.failed ==> r.issued != []) && (!r.failed ==> r.issued == plan)
    decreases |plan|
  {
    if plan != [] {
      match Step(t, start, faults, plan[0])
      case None =>
      case Some(t1) =>
        ExecuteIssued(t1, start + 1, faults, plan[1..]);
        var r := Execute(t1, start + 1, faults, plan[1..]);
        assert plan[..1 + |r.issued|] == [plan[0]] + plan[1..][..|r.issued|];
        assert plan == [plan[0]] + plan[1..];
    }
  }

  /** A plan of one statement. */
  lemma ExecuteSingle(t: Tables, start: nat, faults: set<nat>, s: Stmt)
    ensures Execute(t, start, faults, [s]) ==
      match Step(t, start, faults, s)
      case None => Run(t, [s], true)
      case Some(t1) => Run(t1, [s], false)
  {
    assert [s][1..] == [];
  }

  /** A plan of two statements: the second is sent only when the first succeeds. */
  lemma ExecutePair(t: Tables, start: nat, faults: set<nat>, a: Stmt, b: Stmt)
    ensures Execute(t, start, faults, [a, b]) ==
      match Step(t, start, faults, a)
      case None => Run(t, [a], true)
      case Some(t1) =>
        match Step(t1, start + 1, faults, b)
        case None => Run(t1, [a, b], true)
        case Some(t2) => Run(t2, [a, b], false)
  {
    assert [a, b][1..] == [b];
    ExecuteSingle(t, start, faults, a);
    match Step(t, start, faults, a)
    case None =>
    case Some(t1) =>
      ExecuteSingle(t1, start + 1, faults, b);
  }

  /** The names a plan may change. */
  function Touches(s: Stmt): set<string>
  {
    match s
    case CreateLike(name, _) => {name}
    case Truncate(name) => {name}
    case Insert(name, _) => {name}
    case Drop(name) => {name}
    case DropAndRename(table, shadow) => {table, shadow}
  }

  /** A run leaves every table its statements do not name exactly as it was. */
  lemma {:induction false} ExecuteFrame(t: Tables, start: nat, faults: set<nat>, plan: seq<Stmt>, name: string)
    requires forall k :: 0 <= k < |plan| ==> name !in Touches(plan[k])
    ensures var r := Execute(t, start, faults, plan);
      (name in r.tables <==> name in t) && (name in t ==> r.tables[name] == t[name])
    decreases |plan|
  {
    if plan != [] {
      match Step(t, start, faults, plan[0])
      case None =>
      case Some(t1) =>
        assert name !in Touches(plan[0]);
        ExecuteFrame(t1, start + 1, faults, plan[1..], name);
    }
  }

  /**
   * The store `Parse` talks to: the tables, every statement sent so far, and
   * the fault schedule of the session.
   */
  class Database {
    var tables: Tables
    var log: seq<Stmt>
    const faults: set<nat>

    constructor (tables: Tables, faults: set<nat>)
      ensures this.tables == tables && this.log == [] && this.faults == faults
    {
      this.tables := tables;
      this.log := [];
      this.faults := faults;
    }

    /** `pgDb.Exec` / `Exec()` of a goqu dataset: sends one statement and reports whether it succeeded. */
    method Exec(s: Stmt) returns (ok: bool)
      modifies this
      ensures ok == Step(old(tables), |old(log)|, faults, s).Some?
      ensures tables == if ok then Step(old(tables), |old(log)|, faults, s).value else old(tables)
      ensures log == old(log) + [s]
    {
      var r := Step(tables, |log|, faults, s);
      ok := r.Some?;
      if ok {
        tables := r.value;
      }
      log := log + [s];
    }
  }
}
