/**
 * Record shapes and column derivation (main.go:88-327, 500-507, 535-539).
 *
 * Each Go struct that `Parse` decodes into is a shape: its fields in
 * declaration order, each with the Go field name, the XML attribute it is
 * read from (its `xml:"...,attr"` tag) and its Go type. The table columns are
 * the lower-cased Go field names, and a row maps each column to the value of
 * its field.
 */
module Records {
  /** Go's `int` on the 64-bit targets the loader runs on. */
  newtype int64 = x: int | -0x8000_0000_0000_0000 <= x < 0x8000_0000_0000_0000

  /** Go's `byte`. */
  newtype uint8 = x: int | 0 <= x < 0x100

  /** The Go field types that occur in the record structs. */
  datatype Kind = StringKind | IntKind | ByteKind

  /** A field value, as `f.Interface()` hands it to the row. */
  datatype Value = Str(s: string) | Int(i: int64) | Byte(b: uint8)

  datatype Field = Field(name: string, attr: string, kind: Kind)

  /** The record structs. */
  datatype Shape =
    | ActualStatus
    | Object
    | CenterStatus
    | CurrentStatus
    | EstateStatus
    | House
    | HouseInterval
    | HouseStateStatus
    | IntervalStatus
    | Landmark
    | NormativeDocumentType
    | NormativeDocument
    | OperationStatus
    | Room
    | AddressObjectType
    | Stead
    | StructureStatus

  /** Fields of each struct in declaration order. */
  function Fields(shape: Shape): seq<Field>
  {
    match shape
    // main.go:89
    case ActualStatus => [
      Field("ACTSTATID", "ACTSTATID", IntKind),
      Field("NAME", "NAME", StringKind)
    ]
    // main.go:95
    case Object => [
      Field("AOGUID", "AOGUID", StringKind),
      Field("FORMALNAME", "FORMALNAME", StringKind),
      Field("REGIONCODE", "REGIONCODE", StringKind),
      Field("AUTOCODE", "AUTOCODE", StringKind),
      Field("AREACODE", "AREACODE", StringKind),
      Field("CITYCODE", "CITYCODE", StringKind),
      Field("CTARCODE", "CTARCODE", StringKind),
      Field("PLACECODE", "PLACECODE", StringKind),
      Field("STREETCODE", "STREETCODE", StringKind),
      Field("EXTRCODE", "EXTRCODE", StringKind),
      Field("SEXTCODE", "SEXTCODE", StringKind),
      Field("OFFNAME", "OFFNAME", StringKind),
      Field("POSTALCODE", "POSTALCODE", StringKind),
      Field("IFNSFL", "IFNSFL", StringKind),
      Field("TERRIFNSFL", "TERRIFNSFL", StringKind),
      Field("IFNSUL", "IFNSUL", StringKind),
      Field("TERRIFNSUL", "TERRIFNSUL", StringKind),
      Field("OKATO", "OKATO", StringKind),
      Field("OKTMO", "OKTMO", StringKind),
      Field("UPDATEDATE", "UPDATEDATE", StringKind),
      Field("SHORTNAME", "SHORTNAME", StringKind),
      Field("AOLEVEL", "AOLEVEL", IntKind),
      Field("PARENTGUID", "PARENTGUID", StringKind),
      Field("AOID", "AOID", StringKind),
      Field("PREVID", "PREVID", StringKind),
      Field("NEXTID", "NEXTID", StringKind),
      Field("CODE", "CODE", StringKind),
      Field("PLAINCODE", "PLAINCODE", StringKind),
      Field("ACTSTATUS", "ACTSTATUS", IntKind),
      Field("CENTSTATUS", "CENTSTATUS", IntKind),
      Field("OPERSTATUS", "OPERSTATUS", IntKind),
      Field("CURRSTATUS", "CURRSTATUS", IntKind),
      Field("STARTDATE", "STARTDATE", StringKind),
      Field("ENDDATE", "ENDDATE", StringKind),
      Field("NORMDOC", "NORMDOC", StringKind),
      Field("LIVESTATUS", "LIVESTATUS", ByteKind),
      Field("CADNUM", "CADNUM", StringKind),
      Field("DIVTYPE", "DIVTYPE", IntKind)
    ]
    // main.go:137
    case CenterStatus => [
      Field("CENTERSTID", "CENTERSTID", IntKind),
      Field("NAME", "NAME", StringKind)
    ]
    // main.go:143
    case CurrentStatus => [
      Field("CURENTSTID", "CURENTSTID", IntKind),
      Field("NAME", "NAME", StringKind)
    ]
    // main.go:149
    case EstateStatus => [
      Field("ESTSTATID", "ESTSTATID", IntKind),
      Field("NAME", "NAME", StringKind),
      Field("SHORTNAME", "SHORTNAME", StringKind)
    ]
    // main.go:156
    case House => [
      Field("PostalCode", "POSTALCODE", StringKind),
      Field("RegionCode", "REGIONCODE", StringKind),
      Field("IFNSFL", "IFNSFL", StringKind),
      Field("TerrIFNSFL", "TERRIFNSFL", StringKind),
      Field("IFNSUL", "IFNSUL", StringKind),
      Field("TerrIFNSUL", "TERRIFNSUL", StringKind),
      Field("OKATO", "OKATO", StringKind),
      Field("OKTMO", "OKTMO", StringKind),
      Field("UPDATEDATE", "UPDATEDATE", StringKind),
      Field("HouseNum", "HOUSENUM", StringKind),
      Field("ESTStatus", "ESTSTATUS", IntKind),
      Field("BuildNum", "BUILDNUM", StringKind),
      Field("StrucNum", "STRUCNUM", StringKind),
      Field("STRStatus", "STRSTATUS", IntKind),
      Field("HouseID", "HOUSEID", StringKind),
      Field("HouseGUID", "HOUSEGUID", StringKind),
      Field("AOGUID", "AOGUID", StringKind),
      Field("STARTDATE", "STARTDATE", StringKind),
      Field("ENDDATE", "ENDDATE", StringKind),
      Field("StatStatus", "STATSTATUS", IntKind),
      Field("NormDoc", "NORMDOC", StringKind),
      Field("Counter", "COUNTER", IntKind),
      Field("CadNum", "CADNUM", StringKind),
      Field("DviType", "DVITYPE", IntKind)
    ]
    // main.go:189
    case HouseInterval => [
      Field("POSTALCODE", "POSTALCODE", StringKind),
      Field("IFNSFL", "IFNSFL", StringKind),
      Field("TERRIFNSFL", "TERRIFNSFL", StringKind),
      Field("IFNSUL", "IFNSUL", StringKind),
      Field("TERRIFNSUL", "TERRIFNSUL", StringKind),
      Field("OKATO", "OKATO", StringKind),
      Field("OKTMO", "OKTMO", StringKind),
      Field("UPDATEDATE", "UPDATEDATE", StringKind),
      Field("INTSTART", "INTSTART", IntKind),
      Field("INTEND", "INTEND", IntKind),
      Field("HOUSEINTID", "HOUSEINTID", StringKind),
      Field("INTGUID", "INTGUID", StringKind),
      Field("AOGUID", "AOGUID", StringKind),
      Field("STARTDATE", "STARTDATE", StringKind),
      Field("ENDDATE", "ENDDATE", StringKind),
      Field("INTSTATUS", "INTSTATUS", IntKind),
      Field("NORMDOC", "NORMDOC", StringKind),
      Field("COUNTER", "COUNTER", IntKind)
    ]
    // main.go:211
    case HouseStateStatus => [
      Field("HOUSESTID", "HOUSESTID", IntKind),
      Field("NAME", "NAME", StringKind)
    ]
    // main.go:217
    case IntervalStatus => [
      Field("INTVSTATID", "INTVSTATID", IntKind),
      Field("NAME", "NAME", StringKind)
    ]
    // main.go:223
    case Landmark => [
      Field("LOCATION", "LOCATION", StringKind),
      Field("REGIONCODE", "REGIONCODE", StringKind),
      Field("POSTALCODE", "POSTALCODE", StringKind),
      Field("IFNSFL", "IFNSFL", StringKind),
      Field("TERRIFNSFL", "TERRIFNSFL", StringKind),
      Field("IFNSUL", "IFNSUL", StringKind),
      Field("TERRIFNSUL", "TERRIFNSUL", StringKind),
      Field("OKATO", "OKATO", StringKind),
      Field("OKTMO", "OKTMO", StringKind),
      Field("UPDATEDATE", "UPDATEDATE", StringKind),
      Field("LANDID", "LANDID", StringKind),
      Field("LANDGUID", "LANDGUID", StringKind),
      Field("AOGUID", "AOGUID", StringKind),
      Field("STARTDATE", "STARTDATE", StringKind),
      Field("ENDDATE", "ENDDATE", StringKind),
      Field("NORMDOC", "NORMDOC", StringKind),
      Field("CADNUM", "CADNUM", StringKind)
    ]
    // main.go:244
    case NormativeDocumentType => [
      Field("NDTYPEID", "NDTYPEID", IntKind),
      Field("NAME", "NAME", StringKind)
    ]
    // main.go:250
    case NormativeDocument => [
      Field("NORMDOCID", "NORMDOCID", StringKind),
      Field("DOCNAME", "DOCNAME", StringKind),
      Field("DOCDATE", "DOCDATE", StringKind),
      Field("DOCNUM", "DOCNUM", StringKind),
      Field("DOCTYPE", "DOCTYPE", IntKind),
      Field("DOCIMGID", "DOCIMGID", IntKind)
    ]
    // main.go:260
    case OperationStatus => [
      Field("OPERSTATID", "OPERSTATID", IntKind),
      Field("NAME", "NAME", StringKind)
    ]
    // main.go:266
    case Room => [
      Field("RoomGuid", "ROOMGUID", StringKind),
      Field("FlatNumber", "FLATNUMBER", StringKind),
      Field("FlatType", "FLATTYPE", IntKind),
      Field("RoomNumber", "ROOMNUMBER", StringKind),
      Field("RoomType", "ROOMTYPE", IntKind),
      Field("RegionCode", "REGIONCODE", StringKind),
      Field("PostalCode", "POSTALCODE", StringKind),
      Field("UpdateDate", "UPDATEDATE", StringKind),
      Field("HouseGuid", "HOUSEGUID", StringKind),
      Field("RoomId", "ROOMID", StringKind),
      Field("PrevId", "PREVID", StringKind),
      Field("NextId", "NEXTID", StringKind),
      Field("StartDate", "STARTDATE", StringKind),
      Field("EndDate", "ENDDATE", StringKind),
      Field("LiveStatus", "LIVESTATUS", StringKind),
      Field("NormDoc", "NORMDOC", StringKind),
      Field("OperStatus", "OPERSTATUS", IntKind),
      Field("CadNum", "CADNUM", StringKind),
      Field("RoomCadNum", "ROOMCADNUM", StringKind)
    ]
    // main.go:289
    case AddressObjectType => [
      Field("LEVEL", "LEVEL", IntKind),
      Field("SCNAME", "SCNAME", StringKind),
      Field("SOCRNAME", "SOCRNAME", StringKind),
      Field("KODTST", "KOD_T_ST", StringKind)
    ]
    // main.go:297
    case Stead => [
      Field("STEADGUID", "STEADGUID", StringKind),
      Field("NUMBER", "NUMBER", StringKind),
      Field("REGIONCODE", "REGIONCODE", StringKind),
      Field("POSTALCODE", "POSTALCODE", StringKind),
      Field("IFNSFL", "IFNSFL", StringKind),
      Field("TERRIFNSFL", "TERRIFNSFL", StringKind),
      Field("IFNSUL", "IFNSUL", StringKind),
      Field("TERRIFNSUL", "TERRIFNSUL", StringKind),
      Field("OKATO", "OKATO", StringKind),
      Field("OKTMO", "OKTMO", StringKind),
      Field("UPDATEDATE", "UPDATEDATE", StringKind),
      Field("PARENTGUID", "PARENTGUID", StringKind),
      Field("STEADID", "STEADID", StringKind),
      Field("PREVID", "PREVID", StringKind),
      Field("NEXTID", "NEXTID", StringKind),
      Field("OPERSTATUS", "OPERSTATUS", IntKind),
      Field("STARTDATE", "STARTDATE", StringKind),
      Field("ENDDATE", "ENDDATE", StringKind),
      Field("NORMDOC", "NORMDOC", StringKind),
      Field("LIVESTATUS", "LIVESTATUS", ByteKind),
      Field("CADNUM", "CADNUM", StringKind),
      Field("DIVTYPE", "DIVTYPE", IntKind)
    ]
    // main.go:323
    case StructureStatus => [
      Field("STRSTATID", "STRSTATID", IntKind),
      Field("NAME", "NAME", StringKind),
      Field("SHORTNAME", "SHORTNAME", StringKind)
    ]
  }

  /** The value Go gives a field of a freshly allocated struct (`new(T)`). */
  function Zero(k: Kind): Value
  {
    match k
    case StringKind => Str("")
    case IntKind => Int(0)
    case ByteKind => Byte(0)
  }

  /** Field values of a struct of some shape, in declaration order. */
  type Record = seq<Value>

  /** The struct `new(T)` allocates: every field at its zero value. */
  function ZeroRecord(fields: seq<Field>): (r: Record)
    ensures |r| == |fields|
  {
    seq(|fields|, i requires 0 <= i < |fields| => Zero(fields[i].kind))
  }

  predicate IsUpper(c: char)
  {
    'A' <= c <= 'Z'
  }

  function LowerChar(c: char): char
  {
    if IsUpper(c) then (c as int + 32) as char else c
  }

  /** `strings.ToLower` on the ASCII identifiers that Go field names are here. */
  function ToLower(s: string): (r: string)
    ensures |r| == |s|
    ensures forall i :: 0 <= i < |s| ==> r[i] == LowerChar(s[i])
  {
    if s == [] then [] else [LowerChar(s[0])] + ToLower(s[1..])
  }

  /** A lower-cased name holds no upper-case letter, and lower-casing it again changes nothing. */
  lemma ToLowerIsLower(s: string)
    ensures forall i :: 0 <= i < |ToLower(s)| ==> !IsUpper(ToLower(s)[i])
    ensures ToLower(ToLower(s)) == ToLower(s)
  {
  }

  /** The column names `Parse` derives: each Go field name lower-cased, in declaration order. */
  function ColumnsOf(fields: seq<Field>): (cols: seq<string>)
    ensures |cols| == |fields|
  {
    seq(|fields|, i requires 0 <= i < |fields| => ToLower(fields[i].name))
  }

  /**
   * The loop at main.go:501-507: an array with one slot per field, filled in
   * declaration order with the lower-cased field names.
   */
  method ColumnNames(fields: seq<Field>) returns (names: array<string>)
    ensures fresh(names)
    ensures names[..] == ColumnsOf(fields)
  {
    names := new string[|fields|];
    for i := 0 to |fields|
      invariant forall k :: 0 <= k < i ==> names[k] == ToLower(fields[k].name)
    {
      names[i] := ToLower(fields[i].name);
    }
  }

  /** A row: column name to value (goqu.Record). */
  type Row = map<string, Value>

  /** The set of names in a column list. */
  function ColumnSet(columns: seq<string>): set<string>
  {
    set c | c in columns
  }

  /**
   * The row built from `rec` by assigning column j the value of field j, for
   * j from first to last; a later column with the same name overwrites an
   * earlier one. Its keys are exactly the column names.
   */
  function RowOf(columns: seq<string>, rec: Record): (row: Row)
    requires |columns| == |rec|
    ensures row.Keys == ColumnSet(columns)
    decreases |columns|
  {
    if columns == [] then map[]
    else
      var n := |columns| - 1;
      assert ColumnSet(columns) == ColumnSet(columns[..n]) + {columns[n]};
      RowOf(columns[..n], rec[..n])[columns[n] := rec[n]]
  }

  /** Each column holds the value of its field, unless a later column repeats its name. */
  lemma {:induction false} RowOfAt(columns: seq<string>, rec: Record, j: int)
    requires |columns| == |rec| && 0 <= j < |columns|
    requires columns[j] !in columns[j + 1..]
    ensures RowOf(columns, rec)[columns[j]] == rec[j]
    decreases |columns|
  {
    var n := |columns| - 1;
    if j < n {
      assert columns[n] in columns[j + 1..];
      assert columns[..n][j + 1..] == columns[j + 1..n];
      assert columns[..n][j] !in columns[..n][j + 1..];
      RowOfAt(columns[..n], rec[..n], j);
    }
  }

  /** The loop at main.go:535-539 that copies each field of the shared record into a new row. */
  method BuildRow(columns: array<string>, rec: Record) returns (row: Row)
    requires columns.Length == |rec|
    ensures row == RowOf(columns[..], rec)
  {
    row := map[];
    for j := 0 to columns.Length
      invariant row == RowOf(columns[..j], rec[..j])
    {
      assert columns[..j + 1][..j] == columns[..j];
      assert rec[..j + 1][..j] == rec[..j];
      row := row[columns[j] := rec[j]];
    }
    assert columns[..] == columns[..columns.Length];
    assert rec == rec[..|rec|];
  }
}
