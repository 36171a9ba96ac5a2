/**
 * The part of `encoding/xml` that `Parse` relies on (main.go:513-530).
 *
 * The document is the sequence of tokens `Decoder.Token` returns. `Parse`
 * discards the error `Token` reports, so end of input and a malformed
 * document look the same to it: a nil token, here `Nil`. `DecodeElement`
 * into a struct whose fields are all `,attr` fields assigns each attribute
 * of the start element to the fields tagged with its name, leaves every other
 * field as it was, and then consumes the element's content up to and
 * including its matching end tag.
 */
module Xml {
  import opened Wrappers
  import opened Records

  datatype Attr = Attr(name: string, value: string)

  /** StartElement carries the local name and the attributes; the rest of the kinds are told apart only as far as nesting needs. */
  datatype Token =
    | StartElement(local: string, attrs: seq<Attr>)
    | EndElement
    | Other   // character data, comments, processing instructions, directives
    | Nil     // what Token returns at end of input or on a syntax error

  /**
   * Conversion of an attribute's text to a field of the given kind
   * (strconv parsing inside encoding/xml); None is a conversion error.
   */
  type Coercion = (Kind, string) -> Option<Value>

  /**
   * Assigns attribute `a` to fields i.. of the record: every field tagged
   * with the attribute's name gets the converted value; a conversion error
   * makes the whole assignment fail.
   */
  function AssignFrom(rec: Record, fields: seq<Field>, a: Attr, coerce: Coercion, i: nat): (r: Option<Record>)
    requires |rec| == |fields| && i <= |fields|
    ensures r.Some? ==> |r.value| == |rec|
    decreases |fields| - i
  {
    if i == |fields| then Some(rec)
    else if fields[i].attr != a.name then AssignFrom(rec, fields, a, coerce, i + 1)
    else
      match coerce(fields[i].kind, a.value)
      case None => None
      case Some(v) => AssignFrom(rec[i := v], fields, a, coerce, i + 1)
  }

  /**
   * Assigning one attribute succeeds exactly when its text converts for
   * every field from `i` on that carries its tag; those fields then hold the
   * converted value and all others keep theirs.
   */
  lemma {:induction false} AssignFromValues(rec: Record, fields: seq<Field>, a: Attr, coerce: Coercion, i: nat)
    requires |rec| == |fields| && i <= |fields|
    ensures var r := AssignFrom(rec, fields, a, coerce, i);
      (r.Some? <==> forall j :: i <= j < |fields| && fields[j].attr == a.name ==> coerce(fields[j].kind, a.value).Some?) &&
      (r.Some? ==> forall j :: 0 <= j < |rec| ==>
        if i <= j && fields[j].attr == a.name then coerce(fields[j].kind, a.value) == Some(r.value[j])
        else r.value[j] == rec[j])
    decreases |fields| - i
  {
    if i < |fields| {
      if fields[i].attr != a.name {
        AssignFromValues(rec, fields, a, coerce, i + 1);
      } else {
        match coerce(fields[i].kind, a.value)
        case None =>
        case Some(v) =>
          AssignFromValues(rec[i := v], fields, a, coerce, i + 1);
      }
    }
  }

  /** Assigns the attributes in document order, stopping at the first conversion error. */
  function AssignAttrs(rec: Record, fields: seq<Field>, attrs: seq<Attr>, coerce: Coercion): (r: Option<Record>)
    requires |rec| == |fields|
    ensures r.Some? ==> |r.value| == |rec|
    decreases |attrs|
  {
    if attrs == [] then Some(rec)
    else
      match AssignAttrs(rec, fields, attrs[..|attrs| - 1], coerce)
      case None => None
      case Some(r) => AssignFrom(r, fields, attrs[|attrs| - 1], coerce, 0)
  }

  /** The value of the last attribute called `name`, if any. */
  function LastValue(attrs: seq<Attr>, name: string): Option<string>
  {
    if attrs == [] then None
    else if attrs[|attrs| - 1].name == name then Some(attrs[|attrs| - 1].value)
    else LastValue(attrs[..|attrs| - 1], name)
  }

  /**
   * After a successful assignment each field holds the converted value of the
   * last attribute carrying its tag, and a field no attribute names keeps the
   * value it had: the shared record is not reset between elements.
   */
  lemma {:induction false} AssignAttrsValues(rec: Record, fields: seq<Field>, attrs: seq<Attr>, coerce: Coercion)
    requires |rec| == |fields|
    requires AssignAttrs(rec, fields, attrs, coerce).Some?
    ensures var r := AssignAttrs(rec, fields, attrs, coerce).value;
      forall j :: 0 <= j < |fields| ==>
        match LastValue(attrs, fields[j].attr)
        case None => r[j] == rec[j]
        case Some(v) => coerce(fields[j].kind, v) == Some(r[j])
    decreases |attrs|
  {
    if attrs != [] {
      var init := attrs[..|attrs| - 1];
      AssignAttrsValues(rec, fields, init, coerce);
      AssignFromValues(AssignAttrs(rec, fields, init, coerce).value, fields, attrs[|attrs| - 1], coerce, 0);
    }
  }

  /** Assignment fails exactly when some attribute's text does not convert to the kind of a field it names. */
  lemma {:induction false} AssignAttrsFails(rec: Record, fields: seq<Field>, attrs: seq<Attr>, coerce: Coercion)
    requires |rec| == |fields|
    ensures AssignAttrs(rec, fields, attrs, coerce).None? <==>
      exists k, j :: 0 <= k < |attrs| && 0 <= j < |fields| && fields[j].attr == attrs[k].name &&
        coerce(fields[j].kind, attrs[k].value).None?
    decreases |attrs|
  {
    if attrs != [] {
      var init := attrs[..|attrs| - 1];
      AssignAttrsFails(rec, fields, init, coerce);
      if AssignAttrs(rec, fields, init, coerce).Some? {
        AssignFromValues(AssignAttrs(rec, fields, init, coerce).value, fields, attrs[|attrs| - 1], coerce, 0);
      }
      if AssignAttrs(rec, fields, init, coerce).None? {
        var k, j :| 0 <= k < |init| && 0 <= j < |fields| && fields[j].attr == init[k].name &&
          coerce(fields[j].kind, init[k].value).None?;
        assert attrs[k] == init[k];
      } else if AssignAttrs(rec, fields, attrs, coerce).None? {
        var last := attrs[|attrs| - 1];
        var j :| 0 <= j < |fields| && fields[j].attr == last.name && coerce(fields[j].kind, last.value).None?;
        assert fields[j].attr == attrs[|attrs| - 1].name;
      } else {
        forall k, j | 0 <= k < |attrs| && 0 <= j < |fields| && fields[j].attr == attrs[k].name
          ensures coerce(fields[j].kind, attrs[k].value).Some?
        {
          if k < |init| {
            assert init[k] == attrs[k];
          }
        }
      }
    }
  }

  /** Start tags minus end tags in `ts`. */
  function Balance(ts: seq<Token>): int
  {
    if ts == [] then 0
    else Balance(ts[..|ts| - 1]) + match ts[|ts| - 1]
      case StartElement(_, _) => 1
      case EndElement => -1
      case _ => 0
  }

  /**
   * The number of tokens that close `depth` open elements: the content of the
   * element being decoded and its end tag. None when a nil token comes first,
   * which `DecodeElement` reports as an error.
   */
  function SkipLength(ts: seq<Token>, depth: nat): (r: Option<nat>)
    requires depth >= 1
    ensures r.Some? ==> 1 <= r.value <= |ts| && ts[r.value - 1].EndElement?
    decreases |ts|
  {
    if ts == [] || ts[0].Nil? then None
    else if ts[0].EndElement? && depth == 1 then Some(1)
    else
      var inner := match ts[0]
        case StartElement(_, _) => depth + 1
        case EndElement => depth - 1
        case _ => depth;
      match SkipLength(ts[1..], inner)
      case None => None
      case Some(k) => Some(k + 1)
  }

  /** Balance of the first tokens, counted from the front. */
  lemma {:induction false} BalanceCons(t: Token, ts: seq<Token>)
    ensures Balance([t] + ts) == Balance([t]) + Balance(ts)
    decreases |ts|
  {
    if ts != [] {
      var n := |ts| - 1;
      assert ([t] + ts)[..|ts|] == [t] + ts[..n];
      BalanceCons(t, ts[..n]);
    }
  }

  /** Balance of a non-empty prefix: its first token, then the rest of it. */
  lemma BalancePrefix(ts: seq<Token>, m: nat)
    requires 0 < m <= |ts|
    ensures Balance(ts[..m]) == Balance([ts[0]]) + Balance(ts[1..][..m - 1])
  {
    assert ts[..m] == [ts[0]] + ts[1..][..m - 1];
    BalanceCons(ts[0], ts[1..][..m - 1]);
  }

  /**
   * What is skipped closes exactly the open elements, no shorter stretch does,
   * and none of it is a nil token.
   */
  lemma {:induction false} SkipLengthBalanced(ts: seq<Token>, depth: nat)
    requires depth >= 1 && SkipLength(ts, depth).Some?
    ensures var k := SkipLength(ts, depth).value;
      depth + Balance(ts[..k]) == 0 &&
      (forall m :: 0 <= m < k ==> depth + Balance(ts[..m]) > 0) &&
      (forall m :: 0 <= m < k ==> !ts[m].Nil?)
    decreases |ts|
  {
    var k := SkipLength(ts, depth).value;
    var t := ts[0];
    BalanceCons(t, []);
    assert Balance([t]) == match t
      case StartElement(_, _) => 1
      case EndElement => -1
      case _ => 0;
    if k == 1 {
      assert ts[..1] == [t];
      assert ts[..0] == [];
    } else {
      var inner := depth + Balance([t]);
      SkipLengthBalanced(ts[1..], inner);
      forall m | 0 <= m < k ensures depth + Balance(ts[..m]) > 0 && !ts[m].Nil? {
        if m > 0 {
          BalancePrefix(ts, m);
          assert ts[m] == ts[1..][m - 1];
        }
      }
      BalancePrefix(ts, k);
    }
  }

  /** A stretch free of nil tokens that closes the open elements is found by the skip. */
  lemma {:induction false} SkipLengthCloses(ts: seq<Token>, depth: nat, k: nat)
    requires depth >= 1 && 1 <= k <= |ts| && depth + Balance(ts[..k]) == 0
    requires forall m :: 0 <= m < k ==> !ts[m].Nil?
    ensures SkipLength(ts, depth).Some?
    decreases |ts|
  {
    var t := ts[0];
    assert !t.Nil?;
    if !(t.EndElement? && depth == 1) {
      BalanceCons(t, []);
      assert Balance([t]) == match t
        case StartElement(_, _) => 1
        case EndElement => -1
        case _ => 0;
      var inner := depth + Balance([t]);
      BalancePrefix(ts, k);
      assert ts[1..][..0] == [];
      forall m | 0 <= m < k - 1 ensures !ts[1..][m].Nil? {
        assert ts[1..][m] == ts[m + 1];
      }
      SkipLengthCloses(ts[1..], inner, k - 1);
    }
  }

  /**
   * The skip fails exactly when the stream ends, or a nil token comes, before
   * the open elements are closed.
   */
  lemma SkipLengthNoneIff(ts: seq<Token>, depth: nat)
    requires depth >= 1
    ensures SkipLength(ts, depth).None? <==>
      forall k :: 1 <= k <= |ts| && depth + Balance(ts[..k]) == 0 ==> exists m :: 0 <= m < k && ts[m].Nil?
  {
    if SkipLength(ts, depth).Some? {
      SkipLengthBalanced(ts, depth);
    } else {
      forall k | 1 <= k <= |ts| && depth + Balance(ts[..k]) == 0
        ensures exists m :: 0 <= m < k && ts[m].Nil?
      {
        if forall m :: 0 <= m < k ==> !ts[m].Nil? {
          SkipLengthCloses(ts, depth, k);
        }
      }
    }
  }

  /** Outcome of `DecodeElement`: the updated shared record and how many tokens it consumed. */
  datatype Decoded = DecodeError | Decoded(rec: Record, consumed: nat)

  /**
   * `decoder.DecodeElement(&r, &se)` for start element `start`, followed in
   * the document by `rest`.
   */
  function DecodeElement(rec: Record, fields: seq<Field>, start: Token, rest: seq<Token>, coerce: Coercion): (d: Decoded)
    requires start.StartElement? && |rec| == |fields|
    ensures d.Decoded? ==> |d.rec| == |rec| && 1 <= d.consumed <= |rest|
  {
    match AssignAttrs(rec, fields, start.attrs, coerce)
    case None => DecodeError
    case Some(r) =>
      match SkipLength(rest, 1)
      case None => DecodeError
      case Some(k) => Decoded(r, k)
  }

  /**
   * Decoding an element fails exactly when one of its attributes is refused
   * by a field tagged with its name, or the stream ends or breaks before the
   * element's end tag.
   */
  lemma DecodeElementFails(rec: Record, fields: seq<Field>, start: Token, rest: seq<Token>, coerce: Coercion)
    requires start.StartElement? && |rec| == |fields|
    ensures DecodeElement(rec, fields, start, rest, coerce).DecodeError? <==>
      (exists k, j :: 0 <= k < |start.attrs| && 0 <= j < |fields| && fields[j].attr == start.attrs[k].name &&
         coerce(fields[j].kind, start.attrs[k].value).None?) ||
      SkipLength(rest, 1).None?
  {
    AssignAttrsFails(rec, fields, start.attrs, coerce);
  }
}
