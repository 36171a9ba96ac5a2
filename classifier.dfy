/**
 * File classification (main.go:29-49, 637-725).
 *
 * Every archive member is matched against 21 anchored regular expressions of
 * the form ^(AS_<TAG>_)[0-9]{8}_.+ and the first one that matches, in the
 * order of the `switch` in `main`, decides how the file is loaded.
 */
module Classifier {
  import opened Wrappers

  /** The 21 tags, one per pattern variable. */
  datatype Tag =
    | ActStat | AddrObj | CenterSt | CurentSt | DelAddrObj | DelHouse
    | DelHouseInt | DelNormDoc | EstStat | House | HouseInt | HstStat
    | IntvStat | Landmark | NDocType | NormDoc | OperStat | SocrBase
    | StrStat | Stead | Room

  /** The literal tag text between `AS_` and `_` in each pattern. */
  function Literal(t: Tag): string
  {
    match t
    case ActStat => "ACTSTAT"
    case AddrObj => "ADDROBJ"
    case CenterSt => "CENTERST"
    case CurentSt => "CURENTST"
    case DelAddrObj => "DEL_ADDROBJ"
    case DelHouse => "DEL_HOUSE"
    case DelHouseInt => "DEL_HOUSEINT"
    case DelNormDoc => "DEL_NORMDOC"
    case EstStat => "ESTSTAT"
    case House => "HOUSE"
    case HouseInt => "HOUSEINT"
    case HstStat => "HSTSTAT"
    case IntvStat => "INTVSTAT"
    case Landmark => "LANDMARK"
    case NDocType => "NDOCTYPE"
    case NormDoc => "NORMDOC"
    case OperStat => "OPERSTAT"
    case SocrBase => "SOCRBASE"
    case StrStat => "STRSTAT"
    case Stead => "STEAD"
    case Room => "ROOM"
  }

  /** The order in which the `switch` in `main` tries the patterns. */
  const SwitchOrder: seq<Tag> :=
    [ ActStat, AddrObj, CenterSt, CurentSt, DelAddrObj, DelHouse, DelHouseInt,
      DelNormDoc, EstStat, House, HouseInt, HstStat, IntvStat, Landmark,
      NDocType, NormDoc, OperStat, SocrBase, StrStat, Stead, Room ]

  /** The anchored literal part of a pattern: `AS_` + tag + `_`. */
  function Prefix(t: Tag): string
  {
    "AS_" + Literal(t) + "_"
  }

  predicate IsDigit(c: char)
  {
    '0' <= c <= '9'
  }

  /**
   * The pattern with literal part `prefix` matches `name`: the literal, eight
   * ASCII digits, an underscore, and then at least one character other than
   * a newline (`.` does not match `\n`). The pattern is not anchored at the
   * end, so anything may follow.
   */
  predicate MatchesPrefix(name: string, prefix: string)
  {
    var p := |prefix|;
    |name| >= p + 10 &&
    name[..p] == prefix &&
    (forall k :: p <= k < p + 8 ==> IsDigit(name[k])) &&
    name[p + 8] == '_' &&
    name[p + 9] != '\n'
  }

  /** `^(AS_<TAG>_)[0-9]{8}_.+` matches `name`. */
  predicate Matches(name: string, t: Tag)
  {
    MatchesPrefix(name, Prefix(t))
  }

  /** First pattern of `order` that matches, as the `switch` evaluates its cases. */
  function FirstMatch(name: string, order: seq<Tag>): (r: Option<Tag>)
    ensures r.Some? ==> r.value in order && Matches(name, r.value)
    ensures r.None? ==> forall t :: t in order ==> !Matches(name, t)
  {
    if order == [] then None
    else if Matches(name, order[0]) then Some(order[0])
    else FirstMatch(name, order[1..])
  }

  /** The classification `main` applies to each file name (None: "It doesn't match"). */
  function Classify(name: string): Option<Tag>
  {
    FirstMatch(name, SwitchOrder)
  }

  /** A file name built the way the registry names its extracts. */
  function MakeName(t: Tag, date: string, suffix: string): string
  {
    Prefix(t) + date + "_" + suffix
  }

  predicate IsDate(date: string)
  {
    |date| == 8 && forall k :: 0 <= k < 8 ==> IsDigit(date[k])
  }

  /** No character of `p` from index `from` on is a digit. */
  predicate NoDigitFrom(p: string, from: nat)
  {
    forall k :: from <= k < |p| ==> !IsDigit(p[k])
  }

  /** After `AS_`, a pattern's literal part holds tag letters, `_` and no digit. */
  lemma PrefixHasNoDigit(t: Tag)
    ensures |Prefix(t)| >= 4 && NoDigitFrom(Prefix(t), 3)
  {
    var lit := Literal(t);
    LiteralHasNoDigit(t);
    forall k | 3 <= k < |Prefix(t)|
      ensures !IsDigit(Prefix(t)[k])
    {
      if k < 3 + |lit| {
        assert Prefix(t)[k] == lit[k - 3];
      }
    }
  }

  lemma LiteralHasNoDigit(t: Tag)
    ensures |Literal(t)| >= 1 && NoDigitFrom(Literal(t), 0)
  {
  }

  /** Inverse of `Literal`, used to show that distinct tags have distinct texts. */
  function TagOf(s: string): Option<Tag>
  {
    if s == "ACTSTAT" then Some(ActStat)
    else if s == "ADDROBJ" then Some(AddrObj)
    else if s == "CENTERST" then Some(CenterSt)
    else if s == "CURENTST" then Some(CurentSt)
    else if s == "DEL_ADDROBJ" then Some(DelAddrObj)
    else if s == "DEL_HOUSE" then Some(DelHouse)
    else if s == "DEL_HOUSEINT" then Some(DelHouseInt)
    else if s == "DEL_NORMDOC" then Some(DelNormDoc)
    else if s == "ESTSTAT" then Some(EstStat)
    else if s == "HOUSE" then Some(House)
    else if s == "HOUSEINT" then Some(HouseInt)
    else if s == "HSTSTAT" then Some(HstStat)
    else if s == "INTVSTAT" then Some(IntvStat)
    else if s == "LANDMARK" then Some(Landmark)
    else if s == "NDOCTYPE" then Some(NDocType)
    else if s == "NORMDOC" then Some(NormDoc)
    else if s == "OPERSTAT" then Some(OperStat)
    else if s == "SOCRBASE" then Some(SocrBase)
    else if s == "STRSTAT" then Some(StrStat)
    else if s == "STEAD" then Some(Stead)
    else if s == "ROOM" then Some(Room)
    else None
  }

  lemma TagOfLiteral(t: Tag)
    ensures TagOf(Literal(t)) == Some(t)
  {
  }

  lemma AllTagsInSwitch(t: Tag)
    ensures t in SwitchOrder
  {
  }

  /** Where a shorter matching literal part ends, the name has a digit. */
  lemma ShorterPrefixMeetsDigit(name: string, p1: string, p2: string)
    requires MatchesPrefix(name, p1) && MatchesPrefix(name, p2) && |p1| < |p2|
    ensures IsDigit(p2[|p1|])
  {
    assert p2[|p1|] == name[..|p2|][|p1|];
  }

  /**
   * Two literal parts that both match one name are equal, when neither holds
   * a digit after its first three characters: the shorter one would be
   * followed in the name by a digit, where the longer one has no digit.
   */
  lemma {:induction false} MatchingPrefixesEqual(name: string, p1: string, p2: string)
    requires MatchesPrefix(name, p1) && MatchesPrefix(name, p2)
    requires |p1| >= 4 && |p2| >= 4 && NoDigitFrom(p1, 3) && NoDigitFrom(p2, 3)
    ensures p1 == p2
  {
    if |p1| < |p2| {
      ShorterPrefixMeetsDigit(name, p1, p2);
      assert false;
    } else if |p2| < |p1| {
      ShorterPrefixMeetsDigit(name, p2, p1);
      assert false;
    } else {
      assert p1 == name[..|p1|] == p2;
    }
  }

  /** At most one pattern matches a name. */
  lemma MatchesUnique(name: string, t1: Tag, t2: Tag)
    requires Matches(name, t1) && Matches(name, t2)
    ensures t1 == t2
  {
    PrefixHasNoDigit(t1);
    PrefixHasNoDigit(t2);
    MatchingPrefixesEqual(name, Prefix(t1), Prefix(t2));
    assert Literal(t1) == Prefix(t1)[3..|Prefix(t1)| - 1];
    assert Literal(t2) == Prefix(t2)[3..|Prefix(t2)| - 1];
    TagOfLiteral(t1);
    TagOfLiteral(t2);
  }

  /**
   * Because patterns never overlap, the first match in ANY order that lists
   * every tag is the one tag that matches: the order of the `switch` cases
   * does not change the result.
   */
  lemma {:induction false} FirstMatchIsTheMatch(name: string, order: seq<Tag>, t: Tag)
    requires t in order
    ensures FirstMatch(name, order) == Some(t) <==> Matches(name, t)
  {
    var r := FirstMatch(name, order);
    if r.Some? && Matches(name, t) {
      MatchesUnique(name, r.value, t);
    }
  }

  /** `Classify` names tag `t` exactly when t's pattern matches. */
  lemma ClassifyIff(name: string, t: Tag)
    ensures Classify(name) == Some(t) <==> Matches(name, t)
  {
    AllTagsInSwitch(t);
    FirstMatchIsTheMatch(name, SwitchOrder, t);
  }

  /** A name is unclassified exactly when no pattern matches it. */
  lemma ClassifyNoneIff(name: string)
    ensures Classify(name).None? <==> forall t: Tag :: !Matches(name, t)
  {
    if Classify(name).None? {
      forall t: Tag ensures !Matches(name, t) {
        AllTagsInSwitch(t);
      }
    }
  }

  /** A name built from a literal part, a date and a suffix matches that literal part. */
  lemma {:induction false} MatchesBuiltName(prefix: string, date: string, suffix: string)
    requires IsDate(date)
    requires |suffix| > 0 && suffix[0] != '\n'
    ensures MatchesPrefix(prefix + date + "_" + suffix, prefix)
  {
    var name := prefix + date + "_" + suffix;
    var p := |prefix|;
    assert name[..p] == prefix;
    forall k | p <= k < p + 8 ensures IsDigit(name[k]) {
      assert name[k] == date[k - p];
    }
    assert name[p + 8] == '_';
    assert name[p + 9] == suffix[0];
  }

  /** A name that matches a literal part splits into that part, a date, `_` and a suffix. */
  lemma {:induction false} MatchedNameSplits(name: string, prefix: string)
    requires MatchesPrefix(name, prefix)
    ensures var p := |prefix|;
      IsDate(name[p..p + 8]) &&
      name == prefix + name[p..p + 8] + "_" + name[p + 9..] &&
      name[p + 9] != '\n'
  {
    var p := |prefix|;
    var date := name[p..p + 8];
    forall k | 0 <= k < 8 ensures IsDigit(date[k]) {
      assert date[k] == name[p + k];
    }
    assert name[p + 8..p + 9] == "_";
    assert name == name[..p] + date + name[p + 8..p + 9] + name[p + 9..];
  }

  /** Every well-formed registry name is classified to its own tag. */
  lemma ClassifyMakeName(t: Tag, date: string, suffix: string)
    requires IsDate(date)
    requires |suffix| > 0 && suffix[0] != '\n'
    ensures Classify(MakeName(t, date, suffix)) == Some(t)
  {
    MatchesBuiltName(Prefix(t), date, suffix);
    ClassifyIff(MakeName(t, date, suffix), t);
  }

  /** Conversely, a classified name is a registry name: tag, date, `_`, non-empty suffix. */
  lemma ClassifiedNameParts(name: string, t: Tag)
    requires Classify(name) == Some(t)
    ensures var p := |Prefix(t)|;
      IsDate(name[p..p + 8]) &&
      name == MakeName(t, name[p..p + 8], name[p + 9..]) &&
      name[p + 9] != '\n'
  {
    ClassifyIff(name, t);
    MatchedNameSplits(name, Prefix(t));
  }
}
