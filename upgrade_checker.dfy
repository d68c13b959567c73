/**
 * Version strings of releases (internal/upgrade/checker.go): parsing "vM.m.p[-pre]" and
 * "vM.m[-pre]", the "is newer" order, and rendering.
 */
module UpgradeChecker {
  import opened Wrappers
  import opened GoStrings

  datatype VersionInfo = VersionInfo(version: string, major: int, minor: int, patch: int,
                                     prerelease: string, isValid: bool)

  // ---------------------------------------------------------------- the two patterns

  /** Length of the leading run of ASCII digits (`\d` in Go's regexp syntax). */
  function DigitRun(s: string): (n: nat)
    ensures n <= |s| && AllDigits(s[..n])
    ensures n == |s| || !IsDigit(s[n])
  {
    if s == [] || !IsDigit(s[0]) then 0
    else
      var n := 1 + DigitRun(s[1..]);
      assert forall j :: 1 <= j < n ==> s[..n][j] == s[1..][..n - 1][j - 1];
      n
  }

  /** `(\d+)` followed by `rest`: the number and what follows it. */
  function Number(s: string): Option<(nat, string)> {
    var n := DigitRun(s);
    if n == 0 then None else Some((DigitsValue(s[..n]), s[n..]))
  }

  /** `(\d+)\.` : the number and what follows the dot. */
  function NumberDot(s: string): Option<(nat, string)> {
    match Number(s)
    case None => None
    case Some((x, rest)) => if rest != [] && rest[0] == '.' then Some((x, rest[1..])) else None
  }

  /** `(?:-(.+))?$` : "" at the end of the text, or the non-empty line after a '-'. */
  function Prerelease(t: string): (r: Option<string>)
    ensures r.Some? ==> '\n' !in r.value
  {
    if t == [] then Some("")
    else if t[0] == '-' && |t| > 1 && '\n' !in t[1..] then Some(t[1..])
    else None
  }

  /** `^(\d+)\.(\d+)\.(\d+)(?:-(.+))?$` */
  function MatchFull(v: string): (r: Option<(nat, nat, nat, string)>)
    ensures r.Some? ==> '\n' !in r.value.3
  {
    match NumberDot(v)
    case None => None
    case Some((a, r1)) =>
      match NumberDot(r1)
      case None => None
      case Some((b, r2)) =>
        match Number(r2)
        case None => None
        case Some((c, r3)) =>
          match Prerelease(r3)
          case None => None
          case Some(pre) => Some((a, b, c, pre))
  }

  /** `^(\d+)\.(\d+)(?:-(.+))?$` */
  function MatchShort(v: string): (r: Option<(nat, nat, string)>)
    ensures r.Some? ==> '\n' !in r.value.2
  {
    match NumberDot(v)
    case None => None
    case Some((a, r1)) =>
      match Number(r1)
      case None => None
      case Some((b, r2)) =>
        match Prerelease(r2)
        case None => None
        case Some(pre) => Some((a, b, pre))
  }

  /** `ParseVersion`: a leading "v" is dropped, then the long pattern, then the short one. */
  function ParseVersion(version: string): (info: VersionInfo)
    ensures info.version == version
    ensures !info.isValid ==> info == VersionInfo(version, 0, 0, 0, "", false)
    ensures info.isValid ==> info.major >= 0 && info.minor >= 0 && info.patch >= 0 && '\n' !in info.prerelease
  {
    var v := TrimPrefix(version, "v");
    match MatchFull(v)
    case Some((a, b, c, pre)) => VersionInfo(version, a, b, c, pre, true)
    case None =>
      match MatchShort(v)
      case Some((a, b, pre)) => VersionInfo(version, a, b, 0, pre, true)
      case None => VersionInfo(version, 0, 0, 0, "", false)
  }

  // ---------------------------------------------------------------- the patterns as text

  /** The text `(?:-(.+))?` matches for the prerelease `pre`. */
  function Suffix(pre: string): string {
    if pre == "" then "" else "-" + pre
  }

  /** A non-empty run of digits, as `(\d+)` matches it. */
  predicate Numeral(s: string) { s != [] && AllDigits(s) }

  predicate GoodPrerelease(pre: string) { '\n' !in pre }

  /** The text of the long form with these numerals and prerelease. */
  function FullText(a: string, b: string, c: string, pre: string): string {
    a + "." + b + "." + c + Suffix(pre)
  }

  /** The text of the short form. */
  function ShortText(a: string, b: string, pre: string): string {
    a + "." + b + Suffix(pre)
  }

  /** Parsing reads the numbers off any text of the long form, with or without the "v". */
  lemma ParseFullForm(a: string, b: string, c: string, pre: string)
    requires Numeral(a) && Numeral(b) && Numeral(c) && GoodPrerelease(pre)
    ensures var v := FullText(a, b, c, pre);
      ParseVersion(v) == VersionInfo(v, DigitsValue(a), DigitsValue(b), DigitsValue(c), pre, true)
      && ParseVersion("v" + v) == VersionInfo("v" + v, DigitsValue(a), DigitsValue(b), DigitsValue(c), pre, true)
  {
    var v := FullText(a, b, c, pre);
    MatchFullOf(a, b, c, pre);
    assert v[0] == a[0];
    assert TrimPrefix(v, "v") == v;
    var w := "v" + v;
    assert w[..1] == "v" && w[1..] == v;
  }

  lemma MatchFullOf(a: string, b: string, c: string, pre: string)
    requires Numeral(a) && Numeral(b) && Numeral(c) && GoodPrerelease(pre)
    ensures MatchFull(FullText(a, b, c, pre)) == Some((DigitsValue(a), DigitsValue(b), DigitsValue(c), pre))
  {
    var r2 := c + Suffix(pre);
    var r1 := b + "." + r2;
    assert FullText(a, b, c, pre) == a + "." + r1;
    NumberDotOf(a, r1);
    NumberDotOf(b, r2);
    NumberOf(c, Suffix(pre));
    PrereleaseOf(pre);
  }

  /** Parsing reads the numbers off any text of the short form, with patch 0. */
  lemma ParseShortForm(a: string, b: string, pre: string)
    requires Numeral(a) && Numeral(b) && GoodPrerelease(pre)
    ensures var v := ShortText(a, b, pre);
      ParseVersion(v) == VersionInfo(v, DigitsValue(a), DigitsValue(b), 0, pre, true)
  {
    var v := ShortText(a, b, pre);
    MatchShortOf(a, b, pre);
    assert v[0] == a[0];
    assert TrimPrefix(v, "v") == v;
    ShortIsNotFull(a, b, pre);
  }

  lemma MatchShortOf(a: string, b: string, pre: string)
    requires Numeral(a) && Numeral(b) && GoodPrerelease(pre)
    ensures MatchShort(ShortText(a, b, pre)) == Some((DigitsValue(a), DigitsValue(b), pre))
  {
    assert ShortText(a, b, pre) == a + "." + (b + Suffix(pre));
    NumberDotOf(a, b + Suffix(pre));
    NumberOf(b, Suffix(pre));
    PrereleaseOf(pre);
  }

  /** A short-form text never matches the long pattern: after the second number comes '-' or the end. */
  lemma ShortIsNotFull(a: string, b: string, pre: string)
    requires Numeral(a) && Numeral(b) && GoodPrerelease(pre)
    ensures MatchFull(ShortText(a, b, pre)) == None
  {
    assert ShortText(a, b, pre) == a + "." + (b + Suffix(pre));
    NumberDotOf(a, b + Suffix(pre));
    NumberOf(b, Suffix(pre));
  }

  lemma NumberDotOf(a: string, rest: string)
    requires Numeral(a)
    ensures NumberDot(a + "." + rest) == Some((DigitsValue(a), rest))
  {
    assert a + "." + rest == a + ("." + rest);
    NumberOf(a, "." + rest);
    assert ("." + rest)[1..] == rest;
  }

  lemma NumberOf(a: string, rest: string)
    requires Numeral(a) && (rest == [] || !IsDigit(rest[0]))
    ensures Number(a + rest) == Some((DigitsValue(a), rest))
  {
    var s := a + rest;
    DigitRunOf(a, rest);
    assert s[..|a|] == a && s[|a|..] == rest;
  }

  lemma {:induction false} DigitRunOf(a: string, rest: string)
    requires AllDigits(a) && (rest == [] || !IsDigit(rest[0]))
    ensures DigitRun(a + rest) == |a|
  {
    if a != [] {
      assert (a + rest)[1..] == a[1..] + rest;
      DigitRunOf(a[1..], rest);
    } else {
      assert a + rest == rest;
    }
  }

  lemma PrereleaseOf(pre: string)
    requires GoodPrerelease(pre)
    ensures Prerelease(Suffix(pre)) == Some(pre)
  {
    if pre != "" {
      assert Suffix(pre)[1..] == pre;
    }
  }

  /** The numeral a matched number was read from. */
  lemma NumberSome(s: string) returns (a: string)
    requires Number(s).Some?
    ensures Numeral(a) && s == a + Number(s).value.1 && Number(s).value.0 == DigitsValue(a)
  {
    var n := DigitRun(s);
    a := s[..n];
    assert s == a + s[n..];
  }

  lemma NumberDotSome(s: string) returns (a: string)
    requires NumberDot(s).Some?
    ensures Numeral(a) && s == a + "." + NumberDot(s).value.1 && NumberDot(s).value.0 == DigitsValue(a)
  {
    a := NumberSome(s);
    var rest := Number(s).value.1;
    assert rest == "." + rest[1..];
  }

  lemma SuffixOf(t: string, pre: string)
    requires Prerelease(t) == Some(pre)
    ensures t == Suffix(pre)
  {
    if t != [] {
      assert t == "-" + t[1..];
    }
  }

  /** A text the long pattern matches is the long form of the numerals it reads. */
  lemma MatchFullSome(v: string) returns (a: string, b: string, c: string)
    requires MatchFull(v).Some?
    ensures var m := MatchFull(v).value;
      Numeral(a) && Numeral(b) && Numeral(c) && v == FullText(a, b, c, m.3)
      && m.0 == DigitsValue(a) && m.1 == DigitsValue(b) && m.2 == DigitsValue(c)
  {
    a := NumberDotSome(v);
    var r1 := NumberDot(v).value.1;
    b := NumberDotSome(r1);
    var r2 := NumberDot(r1).value.1;
    c := NumberSome(r2);
    var r3 := Number(r2).value.1;
    var pre := Prerelease(r3).value;
    assert MatchFull(v).value == (NumberDot(v).value.0, NumberDot(r1).value.0, Number(r2).value.0, pre);
    SuffixOf(r3, pre);
    assert v == a + "." + (b + "." + (c + Suffix(pre)));
    Regroup(a, ".", b, ".", c, Suffix(pre));
  }

  lemma Regroup<T>(p: seq<T>, q: seq<T>, r: seq<T>, s: seq<T>, t: seq<T>, u: seq<T>)
    ensures p + q + (r + s + (t + u)) == p + q + r + s + t + u
  {
  }

  lemma MatchShortSome(v: string) returns (a: string, b: string)
    requires MatchShort(v).Some?
    ensures var m := MatchShort(v).value;
      Numeral(a) && Numeral(b) && v == ShortText(a, b, m.2) && m.0 == DigitsValue(a) && m.1 == DigitsValue(b)
  {
    a := NumberDotSome(v);
    var r1 := NumberDot(v).value.1;
    b := NumberSome(r1);
    var r2 := Number(r1).value.1;
    SuffixOf(r2, MatchShort(v).value.2);
  }

  /** Whatever parses was, after the "v", of the long or the short form, with the numbers read off its numerals. */
  lemma ParseValidForm(version: string)
    requires ParseVersion(version).isValid
    ensures var info, v := ParseVersion(version), TrimPrefix(version, "v");
      (exists a, b, c :: Numeral(a) && Numeral(b) && Numeral(c) && v == FullText(a, b, c, info.prerelease)
         && info.major == DigitsValue(a) && info.minor == DigitsValue(b) && info.patch == DigitsValue(c))
      || (exists a, b :: Numeral(a) && Numeral(b) && v == ShortText(a, b, info.prerelease)
           && info.major == DigitsValue(a) && info.minor == DigitsValue(b) && info.patch == 0)
  {
    var v := TrimPrefix(version, "v");
    if MatchFull(v).Some? {
      var a, b, c := MatchFullSome(v);
    } else {
      var a, b := MatchShortSome(v);
    }
  }

  // ---------------------------------------------------------------- IsNewer and String

  /** `VersionInfo.IsNewer`. */
  predicate IsNewer(v: VersionInfo, other: VersionInfo) {
    if !v.isValid || !other.isValid then false
    else if v.major != other.major then v.major > other.major
    else if v.minor != other.minor then v.minor > other.minor
    else if v.patch != other.patch then v.patch > other.patch
    else v.prerelease == "" && other.prerelease != ""
  }

  /** The order IsNewer implements: lexicographic on the numbers, then a release above a prerelease. */
  predicate Above(v: VersionInfo, other: VersionInfo) {
    v.major > other.major
    || (v.major == other.major && v.minor > other.minor)
    || (v.major == other.major && v.minor == other.minor && v.patch > other.patch)
    || (v.major == other.major && v.minor == other.minor && v.patch == other.patch
        && v.prerelease == "" && other.prerelease != "")
  }

  lemma IsNewerIsAbove(v: VersionInfo, other: VersionInfo)
    ensures IsNewer(v, other) <==> v.isValid && other.isValid && Above(v, other)
  {
  }

  lemma IsNewerIrreflexive(v: VersionInfo)
    ensures !IsNewer(v, v)
  {
  }

  lemma IsNewerAsymmetric(v: VersionInfo, w: VersionInfo)
    ensures IsNewer(v, w) ==> !IsNewer(w, v)
  {
  }

  lemma IsNewerTransitive(u: VersionInfo, v: VersionInfo, w: VersionInfo)
    ensures IsNewer(u, v) && IsNewer(v, w) ==> IsNewer(u, w)
  {
  }

  /** `VersionInfo.String`: "M.m.p", with "-pre" when there is a prerelease. */
  function VersionString(v: VersionInfo): (s: string)
    ensures v.major >= 0 && v.minor >= 0 && v.patch >= 0 ==>
      s == FullText(NatToString(v.major), NatToString(v.minor), NatToString(v.patch), v.prerelease)
  {
    IntToString(v.major) + "." + IntToString(v.minor) + "." + IntToString(v.patch)
    + (if v.prerelease != "" then "-" + v.prerelease else "")
  }

  /** Rendering and parsing again gives back the numbers and the prerelease. */
  lemma ParseVersionString(v: VersionInfo)
    requires v.major >= 0 && v.minor >= 0 && v.patch >= 0 && GoodPrerelease(v.prerelease)
    ensures var s := VersionString(v);
      ParseVersion(s) == VersionInfo(s, v.major, v.minor, v.patch, v.prerelease, true)
  {
    assert VersionString(v) == FullText(NatToString(v.major), NatToString(v.minor), NatToString(v.patch), v.prerelease);
    ParseFullForm(NatToString(v.major), NatToString(v.minor), NatToString(v.patch), v.prerelease);
  }
}
