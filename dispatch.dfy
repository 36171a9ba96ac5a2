/**
 * The loop over the unpacked files in `main` (main.go:636-725): each file
 * whose name one of the patterns matches is loaded by `Parse` into the table
 * of its case; every other file is passed over. Errors of `Parse` are
 * dropped and the loop goes on with the next file.
 */
module Dispatch {
  import opened Wrappers
  import opened Records
  import opened Xml
  import opened Store
  import opened Loader
  import C = Classifier

  /** What a case of the `switch` hands to `Parse`: the table, the element name and the struct. */
  datatype Case = Case(table: string, element: string, shape: Shape)

  /** The cases of the `switch` (main.go:638-722). */
  function CaseFor(t: C.Tag): Case
  {
    match t
    case ActStat => Case("actual_status", "ActualStatus", ActualStatus)
    case AddrObj => Case("address_objects", "Object", Object)
    case CenterSt => Case("center_status", "CenterStatus", CenterStatus)
    case CurentSt => Case("current_status", "CurrentStatus", CenterStatus)
    case DelAddrObj => Case("del_address_objects", "Object", Object)
    case DelHouse => Case("del_house", "House", Shape.House)
    case DelHouseInt => Case("del_house_interval", "HouseInterval", HouseInterval)
    case DelNormDoc => Case("del_normative_document", "NormativeDocument", NormativeDocument)
    case EstStat => Case("estate_status", "EstateStatus", EstateStatus)
    case House => Case("house", "House", Shape.House)
    case HouseInt => Case("house_interval", "HouseInterval", HouseInterval)
    case HstStat => Case("house_state_status", "HouseStateStatus", HouseStateStatus)
    case IntvStat => Case("interval_status", "IntervalStatus", IntervalStatus)
    case Landmark => Case("landmark", "Landmark", Shape.Landmark)
    case NDocType => Case("normative_document_type", "NormativeDocumentType", NormativeDocumentType)
    case NormDoc => Case("normative_document", "NormativeDocument", NormativeDocumentType)
    case OperStat => Case("operation_status", "OperationStatus", OperationStatus)
    case SocrBase => Case("address_object_type", "AddressObjectType", AddressObjectType)
    case StrStat => Case("structure_status", "StructureStatus", StructureStatus)
    case Stead => Case("steads", "Stead", Shape.Stead)
    case Room => Case("rooms", "Room", Shape.Room)
  }

  /** The Go name of each struct. */
  function StructName(s: Shape): string
  {
    match s
    case ActualStatus => "ActualStatus"
    case Object => "Object"
    case CenterStatus => "CenterStatus"
    case CurrentStatus => "CurrentStatus"
    case EstateStatus => "EstateStatus"
    case House => "House"
    case HouseInterval => "HouseInterval"
    case HouseStateStatus => "HouseStateStatus"
    case IntervalStatus => "IntervalStatus"
    case Landmark => "Landmark"
    case NormativeDocumentType => "NormativeDocumentType"
    case NormativeDocument => "NormativeDocument"
    case OperationStatus => "OperationStatus"
    case Room => "Room"
    case AddressObjectType => "AddressObjectType"
    case Stead => "Stead"
    case StructureStatus => "StructureStatus"
  }

  /**
   * The length and the first letter of each case's table name, which already
   * tell the tables apart. Not part of the source: comparing these small keys
   * keeps the proof that tables differ cheap for the solver.
   */
  function TableKey(t: C.Tag): (int, char)
  {
    match t
    case ActStat => (13, 'a')
    case AddrObj => (15, 'a')
    case CenterSt => (13, 'c')
    case CurentSt => (14, 'c')
    case DelAddrObj => (19, 'd')
    case DelHouse => (9, 'd')
    case DelHouseInt => (18, 'd')
    case DelNormDoc => (22, 'd')
    case EstStat => (13, 'e')
    case House => (5, 'h')
    case HouseInt => (14, 'h')
    case HstStat => (18, 'h')
    case IntvStat => (15, 'i')
    case Landmark => (8, 'l')
    case NDocType => (23, 'n')
    case NormDoc => (18, 'n')
    case OperStat => (16, 'o')
    case SocrBase => (19, 'a')
    case StrStat => (16, 's')
    case Stead => (6, 's')
    case Room => (5, 'r')
  }

  /** Proof device: each key is read off the table name itself. */
  lemma TableKeyOfName(t: C.Tag)
    ensures TableKey(t) == (|CaseFor(t).table|, CaseFor(t).table[0])
  {
  }

  /** Proof device: no two cases share a key. */
  lemma TableKeyInjective(t1: C.Tag, t2: C.Tag)
    ensures TableKey(t1) == TableKey(t2) ==> t1 == t2
  {
  }

  /** Different patterns load different tables, so no table is written by two kinds of file. */
  lemma CaseTablesDistinct(t1: C.Tag, t2: C.Tag)
    ensures CaseFor(t1).table == CaseFor(t2).table <==> t1 == t2
  {
    TableKeyOfName(t1);
    TableKeyOfName(t2);
    TableKeyInjective(t1, t2);
  }

  /**
   * Every case decodes the elements named after its struct, except two:
   * CURENTST files decode `CurrentStatus` elements into the `CenterStatus`
   * struct, and NORMDOC files decode `NormativeDocument` elements into the
   * `NormativeDocumentType` struct.
   */
  lemma ElementIsStructName(t: C.Tag)
    ensures CaseFor(t).element == StructName(CaseFor(t).shape) <==> t != C.CurentSt && t != C.NormDoc
  {
    if t == C.CurentSt {
      assert CaseFor(t).element[1] != StructName(CaseFor(t).shape)[1];
    } else if t != C.NormDoc {
      ElementNamedAfterStruct(t);
    }
  }

  lemma ElementNamedAfterStruct(t: C.Tag)
    requires t != C.CurentSt && t != C.NormDoc
    ensures CaseFor(t).element == StructName(CaseFor(t).shape)
  {
    if t.ActStat? || t.AddrObj? || t.CenterSt? || t.DelAddrObj? || t.DelHouse? || t.DelHouseInt? || t.DelNormDoc? || t.EstStat? || t.House? || t.HouseInt? {
      ElementNamedAfterStructA(t);
    } else if t.HstStat? || t.IntvStat? || t.Landmark? || t.NDocType? || t.OperStat? {
      ElementNamedAfterStructB(t);
    } else {
      ElementNamedAfterStructC(t);
    }
  }

  /** Cases ActStat, AddrObj, CenterSt, DelAddrObj, DelHouse, DelHouseInt, DelNormDoc, EstStat, House, HouseInt of `ElementNamedAfterStruct`, proved apart to keep each proof small. */
  lemma ElementNamedAfterStructA(t: C.Tag)
    requires t.ActStat? || t.AddrObj? || t.CenterSt? || t.DelAddrObj? || t.DelHouse? || t.DelHouseInt? || t.DelNormDoc? || t.EstStat? || t.House? || t.HouseInt?
    ensures CaseFor(t).element == StructName(CaseFor(t).shape)
  {
  }

  /** Cases HstStat, IntvStat, Landmark, NDocType, OperStat of `ElementNamedAfterStruct`, proved apart to keep each proof small. */
  lemma ElementNamedAfterStructB(t: C.Tag)
    requires t.HstStat? || t.IntvStat? || t.Landmark? || t.NDocType? || t.OperStat?
    ensures CaseFor(t).element == StructName(CaseFor(t).shape)
  {
  }

  /** Cases SocrBase, StrStat, Stead, Room of `ElementNamedAfterStruct`, proved apart to keep each proof small. */
  lemma ElementNamedAfterStructC(t: C.Tag)
    requires t.SocrBase? || t.StrStat? || t.Stead? || t.Room?
    ensures CaseFor(t).element == StructName(CaseFor(t).shape)
  {
  }

  /** A file of the unpacked directory: its name and what opening it gives. */
  datatype Entry = Entry(name: string, source: Source)

  /** The tables and the statements of the session after some files. */
  datatype Session = Session(tables: Tables, issued: seq<Stmt>)

  /** One pass of the loop: `Parse` for a matched file, nothing for any other. */
  function LoadEntry(t: Tables, n: nat, faults: set<nat>, e: Entry, coerce: Coercion): Session
  {
    match C.Classify(e.name)
    case None => Session(t, [])
    case Some(tag) =>
      var c := CaseFor(tag);
      var o := ParseSpec(t, n, faults, e.source, c.table, c.element, Fields(c.shape), coerce);
      Session(o.tables, o.issued)
  }

  /** Runs `load` on each file in turn, each pass starting where the one before left the store. */
  function Fold(load: (Tables, nat, Entry) -> Session, t: Tables, n: nat, files: seq<Entry>): Session
    decreases |files|
  {
    if files == [] then Session(t, [])
    else
      var s := load(t, n, files[0]);
      var r := Fold(load, s.tables, n + |s.issued|, files[1..]);
      Session(r.tables, s.issued + r.issued)
  }

  /** A fold over the files from `i` on is the pass over file `i`, then the fold over the rest from where it left off. */
  lemma FoldFrom(load: (Tables, nat, Entry) -> Session, t: Tables, n: nat, files: seq<Entry>, i: nat, t1: Tables, n1: nat)
    requires i < |files|
    requires t1 == load(t, n, files[i]).tables && n1 == n + |load(t, n, files[i]).issued|
    ensures var r := Fold(load, t1, n1, files[i + 1..]);
      Fold(load, t, n, files[i..]) == Session(r.tables, load(t, n, files[i]).issued + r.issued)
  {
    assert files[i..][0] == files[i] && files[i..][1..] == files[i + 1..];
  }

  /** Folding over two lists of files one after the other is folding over their concatenation. */
  lemma {:induction false} FoldAppend(load: (Tables, nat, Entry) -> Session, t: Tables, n: nat, f1: seq<Entry>, f2: seq<Entry>)
    ensures var r1 := Fold(load, t, n, f1);
      var r2 := Fold(load, r1.tables, n + |r1.issued|, f2);
      Fold(load, t, n, f1 + f2) == Session(r2.tables, r1.issued + r2.issued)
    decreases |f1|
  {
    if f1 == [] {
      assert f1 + f2 == f2;
    } else {
      assert (f1 + f2)[0] == f1[0] && (f1 + f2)[1..] == f1[1..] + f2;
      var s := load(t, n, f1[0]);
      var m := n + |s.issued|;
      var rest := Fold(load, s.tables, m, f1[1..]);
      var r1 := Fold(load, t, n, f1);
      assert r1 == Session(rest.tables, s.issued + rest.issued);
      assert n + |r1.issued| == m + |rest.issued|;
      var r2 := Fold(load, rest.tables, m + |rest.issued|, f2);
      FoldAppend(load, s.tables, m, f1[1..], f2);
      assert Fold(load, s.tables, m, f1[1..] + f2) == Session(r2.tables, rest.issued + r2.issued);
      AppendAssoc(s.issued, rest.issued, r2.issued, []);
    }
  }

  /** `LoadEntry` as the step of `Fold`. */
  function Pass(faults: set<nat>, coerce: Coercion): (Tables, nat, Entry) -> Session
  {
    (t: Tables, n: nat, e: Entry) => LoadEntry(t, n, faults, e, coerce)
  }

  /** The loop of `main` over the files as one pass of `LoadEntry` per file. */
  function RunFiles(t: Tables, n: nat, faults: set<nat>, files: seq<Entry>, coerce: Coercion): Session
  {
    Fold(Pass(faults, coerce), t, n, files)
  }

  /** A file no pattern matches sends nothing and changes nothing. */
  lemma UnmatchedFileIgnored(t: Tables, n: nat, faults: set<nat>, e: Entry, coerce: Coercion)
    requires forall tag: C.Tag :: !C.Matches(e.name, tag)
    ensures LoadEntry(t, n, faults, e, coerce) == Session(t, [])
  {
    C.ClassifyNoneIff(e.name);
  }

  /** A file that pattern `tag` matches is loaded into the table of `tag`'s case, whatever the order of the cases. */
  lemma MatchedFileLoaded(t: Tables, n: nat, faults: set<nat>, e: Entry, coerce: Coercion, tag: C.Tag)
    requires C.Matches(e.name, tag)
    ensures var c := CaseFor(tag);
      var o := ParseSpec(t, n, faults, e.source, c.table, c.element, Fields(c.shape), coerce);
      LoadEntry(t, n, faults, e, coerce) == Session(o.tables, o.issued)
  {
    C.ClassifyIff(e.name, tag);
  }

  /** One pass of the loop (main.go:637-723). */
  method LoadOne(db: Database, e: Entry, coerce: Coercion)
    modifies db
    ensures var s := Pass(db.faults, coerce)(old(db.tables), |old(db.log)|, e);
      db.tables == s.tables && db.log == old(db.log) + s.issued
  {
    var tag := C.Classify(e.name);
    if tag.Some? {
      var c := CaseFor(tag.value);
      var _ := Parse(db, e.source, c.table, c.element, Fields(c.shape), coerce);
    } else {
      assert old(db.log) + [] == old(db.log);
    }
  }

  /** One pass of the loop as the first step of `RunFiles` over the files from `i` on. */
  method LoadNext(db: Database, files: seq<Entry>, i: nat, coerce: Coercion) returns (ghost issued: seq<Stmt>)
    requires i < |files|
    modifies db
    ensures db.log == old(db.log) + issued
    ensures var r := RunFiles(db.tables, |db.log|, db.faults, files[i + 1..], coerce);
      RunFiles(old(db.tables), |old(db.log)|, db.faults, files[i..], coerce) == Session(r.tables, issued + r.issued)
  {
    ghost var t0, n0 := db.tables, |db.log|;
    LoadOne(db, files[i], coerce);
    issued := Pass(db.faults, coerce)(t0, n0, files[i]).issued;
    FoldFrom(Pass(db.faults, coerce), t0, n0, files, i, db.tables, |db.log|);
  }

  /** The loop of `main` over the unpacked files (main.go:636-725); the errors of `Parse` are dropped. */
  method LoadFiles(db: Database, files: seq<Entry>, coerce: Coercion)
    modifies db
    ensures var r := RunFiles(old(db.tables), |old(db.log)|, db.faults, files, coerce);
      db.tables == r.tables && db.log == old(db.log) + r.issued
  {
    ghost var goal := RunFiles(db.tables, |db.log|, db.faults, files, coerce);
    ghost var sent: seq<Stmt> := [];
    assert files[0..] == files;
    for i := 0 to |files|
      invariant db.log == old(db.log) + sent
      invariant var r := RunFiles(db.tables, |db.log|, db.faults, files[i..], coerce);
        goal == Session(r.tables, sent + r.issued)
    {
      ghost var issued := LoadNext(db, files, i, coerce);
      ghost var r := RunFiles(db.tables, |db.log|, db.faults, files[i + 1..], coerce);
      AppendAssoc(sent, issued, r.issued, []);
      AppendAssoc(old(db.log), sent, issued, []);
      sent := sent + issued;
    }
    assert files[|files|..] == [];
    assert RunFiles(db.tables, |db.log|, db.faults, [], coerce) == Session(db.tables, []);
    assert sent + [] == sent;
  }
}
