/**
 * The table formatter's column headers and cell values (cli/internal/output/formatter.go):
 * a field name such as "MaxUses" becomes the header "MAX USES", and a field value is shown
 * by kind.  The value seen through Go's reflection is a datatype here, and the text of a
 * time and of a value of another kind is given with the value.
 */
module OutputFormatter {
  import opened Wrappers
  import opened GoStrings
  import opened Seqs

  predicate IsUpperAscii(c: char) {
    'A' <= c <= 'Z'
  }

  predicate IsLowerAscii(c: char) {
    'a' <= c <= 'z'
  }

  /** What one character after the first becomes: a space before an upper-case letter, then the character upper-cased. */
  function Piece(c: char): string {
    (if IsUpperAscii(c) then " " else "") + [UpperChar(c)]
  }

  function Pieces(s: string): string {
    if s == [] then [] else Piece(s[0]) + Pieces(s[1..])
  }

  /** What `formatHeader` builds: the first character upper-cased, then the pieces of the rest. */
  function Header(name: string): string {
    if name == [] then [] else [UpperChar(name[0])] + Pieces(name[1..])
  }

  lemma {:induction false} PiecesAppend(a: string, b: string)
    ensures Pieces(a + b) == Pieces(a) + Pieces(b)
  {
    if a != [] {
      assert (a + b)[1..] == a[1..] + b;
      PiecesAppend(a[1..], b);
    } else {
      assert a + b == b;
    }
  }

  /** `formatHeader`: one pass over the characters. */
  method FormatHeader(name: string) returns (result: string)
    ensures result == Header(name)
  {
    result := "";
    var i := 0;
    while i < |name|
      invariant i <= |name|
      invariant result == Header(name[..i])
    {
      HeaderSnoc(name, i);
      if i > 0 {
        if IsUpperAscii(name[i]) {
          result := result + " ";
        }
      }
      if IsLowerAscii(name[i]) {
        result := result + [(name[i] as int - 32) as char];
      } else {
        result := result + [name[i]];
      }
      i := i + 1;
    }
    assert name[..i] == name;
  }

  /** One more character of the name adds its piece to the header, or starts it. */
  lemma HeaderSnoc(name: string, i: nat)
    requires i < |name|
    ensures Header(name[..i + 1]) == Header(name[..i]) + (if i == 0 then [UpperChar(name[i])] else Piece(name[i]))
  {
    if i > 0 {
      assert name[..i + 1][1..] == name[1..i] + [name[i]];
      assert name[..i][1..] == name[1..i];
      PiecesAppend(name[1..i], [name[i]]);
      assert Pieces([name[i]]) == Piece(name[i]);
    }
  }

  /** No ASCII lower-case letter survives in a header. */
  lemma {:induction false} PiecesNoLower(s: string)
    ensures forall k :: 0 <= k < |Pieces(s)| ==> !IsLowerAscii(Pieces(s)[k])
  {
    if s != [] {
      PiecesNoLower(s[1..]);
    }
  }

  /** A run without upper-case letters only has its letters upper-cased. */
  lemma {:induction false} PiecesOfLower(s: string)
    requires forall k :: 0 <= k < |s| ==> !IsUpperAscii(s[k])
    ensures Pieces(s) == ToUpper(s)
  {
    if s != [] {
      var t := s[1..];
      assert forall k :: 0 <= k < |t| ==> t[k] == s[k + 1];
      PiecesOfLower(t);
      ToUpperCons(s);
    }
  }

  lemma ToUpperCons(s: string)
    requires s != []
    ensures ToUpper(s) == [UpperChar(s[0])] + ToUpper(s[1..])
  {
    assert forall k :: 0 < k < |s| ==> ToUpper(s)[k] == ToUpper(s[1..])[k - 1];
  }

  /** A word of a camel-case name: an upper-case letter followed by no upper-case letter. */
  predicate CamelWord(w: string) {
    |w| > 0 && IsUpperAscii(w[0]) && forall k :: 0 < k < |w| ==> !IsUpperAscii(w[k])
  }

  /** A non-initial camel-case word is a space and the word upper-cased. */
  lemma PiecesOfWord(w: string)
    requires CamelWord(w)
    ensures Pieces(w) == " " + ToUpper(w)
  {
    PiecesOfLower(w[1..]);
    ToUpperCons(w);
  }

  function UpperWords(words: seq<string>): (r: seq<string>)
    ensures |r| == |words| && forall i :: 0 <= i < |words| ==> r[i] == ToUpper(words[i])
  {
    seq(|words|, i requires 0 <= i < |words| => ToUpper(words[i]))
  }

  lemma {:induction false} JoinSnoc(parts: seq<string>, last: string, sep: string)
    requires parts != []
    ensures Join(parts + [last], sep) == Join(parts, sep) + sep + last
  {
    if |parts| == 1 {
      assert (parts + [last])[1..] == [last];
    } else {
      assert (parts + [last])[1..] == parts[1..] + [last];
      JoinSnoc(parts[1..], last, sep);
    }
  }

  /**
   * The header of a camel-case name is its words upper-cased and separated by single spaces:
   * "MaxUses" gives "MAX USES" and "expiresAt" gives "EXPIRES AT".  The first word may start
   * with either case; every later word starts with an upper-case letter.
   */
  lemma {:induction false} HeaderOfCamelCase(words: seq<string>)
    requires |words| > 0 && |words[0]| > 0
    requires forall k :: 0 < k < |words[0]| ==> !IsUpperAscii(words[0][k])
    requires forall i :: 0 < i < |words| ==> CamelWord(words[i])
    ensures Header(Flatten(words)) == Join(UpperWords(words), " ")
  {
    if |words| == 1 {
      HeaderOfFirstWord(words[0]);
    } else {
      var init := words[..|words| - 1];
      var w := words[|words| - 1];
      HeaderOfCamelCase(init);
      InitLast(words);
      HeaderOfNextWord(init, w);
    }
  }

  /** The first word alone: its header is the word upper-cased. */
  lemma HeaderOfFirstWord(w: string)
    requires |w| > 0 && forall k :: 0 < k < |w| ==> !IsUpperAscii(w[k])
    ensures Header(Flatten([w])) == Join(UpperWords([w]), " ")
  {
    assert Flatten([w]) == w;
    PiecesOfLower(w[1..]);
    ToUpperCons(w);
  }

  /** A further camel-case word adds a space and the word upper-cased. */
  lemma HeaderOfNextWord(init: seq<string>, w: string)
    requires |init| > 0 && |init[0]| > 0 && CamelWord(w)
    requires Header(Flatten(init)) == Join(UpperWords(init), " ")
    ensures Header(Flatten(init + [w])) == Join(UpperWords(init + [w]), " ")
  {
    var f, uw := Flatten(init), UpperWords(init);
    FlattenSnoc(init, w);
    FlattenHead(init);
    HeaderAppend(f, w);
    PiecesOfWord(w);
    AppendAssoc(Join(uw, " "), " ", ToUpper(w));
    UpperWordsSnoc(init, w);
    JoinSnoc(uw, ToUpper(w), " ");
  }

  /** Characters appended after the first add their pieces to the header. */
  lemma HeaderAppend(f: string, w: string)
    requires f != []
    ensures Header(f + w) == Header(f) + Pieces(w)
  {
    assert (f + w)[1..] == f[1..] + w;
    PiecesAppend(f[1..], w);
  }

  lemma UpperWordsSnoc(init: seq<string>, w: string)
    ensures UpperWords(init + [w]) == UpperWords(init) + [ToUpper(w)]
  {
    assert forall i :: 0 <= i < |init| ==> (init + [w])[i] == init[i];
  }

  lemma {:induction false} FlattenHead(ss: seq<string>)
    requires |ss| > 0 && |ss[0]| > 0
    ensures |Flatten(ss)| > 0
  {
    if |ss| > 1 {
      FlattenHead(ss[..|ss| - 1]);
    }
  }

  /**
   * A header holds no ASCII lower-case letter, and a name with no upper-case letter after its
   * first character gets no space: its header is the name upper-cased.
   */
  lemma HeaderFacts(name: string)
    ensures forall k :: 0 <= k < |Header(name)| ==> !IsLowerAscii(Header(name)[k])
    ensures (forall k :: 0 < k < |name| ==> !IsUpperAscii(name[k])) ==> Header(name) == ToUpper(name)
  {
    if name != [] {
      PiecesNoLower(name[1..]);
      if forall k :: 0 < k < |name| ==> !IsUpperAscii(name[k]) {
        PiecesOfLower(name[1..]);
        ToUpperCons(name);
      }
    }
  }

  /** A field value as reflection sees it, by kind. */
  datatype Reflected =
    | Invalid
    | Pointer(target: Option<Reflected>)
    | SliceOf(items: seq<Reflected>)
    | MapOf(size: nat)
    | StructOf(isTime: bool, isZeroTime: bool, timeText: string, typeName: string)
    | BoolOf(b: bool)
    | StringOf(s: string)
    | OtherOf(text: string)

  function Min(a: int, b: int): int {
    if a < b then a else b
  }

  /** `formatValue`. */
  function FormatValue(v: Reflected): string
    decreases v
  {
    match v
    case Invalid => ""
    case Pointer(t) => if t.None? then "" else FormatValue(t.value)
    case SliceOf(items) =>
      if |items| == 0 then ""
      else
        var shown := seq(Min(|items|, 3), i requires 0 <= i < Min(|items|, 3) => FormatValue(items[i]));
        Join(shown, ", ") + (if |items| > 3 then "..." else "")
    case MapOf(n) => if n == 0 then "" else "(" + NatToString(n) + " items)"
    case StructOf(isTime, isZero, text, name) =>
      if isTime then (if isZero then "" else text)
      else if name != "" then "<" + name + ">"
      else "<struct>"
    case BoolOf(b) => if b then "true" else "false"
    case StringOf(s) => if |s| > 50 then s[..47] + "..." else s
    case OtherOf(text) => text
  }

  /** The slice case's loop over at most the first three items. */
  method FormatSlice(items: seq<Reflected>) returns (result: string)
    ensures result == FormatValue(SliceOf(items))
  {
    if |items| == 0 {
      return "";
    }
    var shown: seq<string> := [];
    var i := 0;
    while i < |items| && i < 3
      invariant i <= Min(|items|, 3)
      invariant |shown| == i && forall k :: 0 <= k < i ==> shown[k] == FormatValue(items[k])
    {
      shown := shown + [FormatValue(items[i])];
      i := i + 1;
    }
    assert shown == seq(Min(|items|, 3), k requires 0 <= k < Min(|items|, 3) => FormatValue(items[k]));
    result := Join(shown, ", ");
    if |items| > 3 {
      result := result + "...";
    }
  }

  /**
   * What a cell shows.  A string of more than 50 characters is cut to its first 47 and "...";
   * no string cell is longer than 50.  A slice shows only its first three items, followed by
   * "..." when there are more; an empty slice or map shows nothing and a non-empty map its
   * size; a boolean "true" or "false"; a pointer what it points to.
   */
  lemma FormatValueFacts(v: Reflected)
    ensures v.StringOf? ==> |FormatValue(v)| <= 50
    ensures v.StringOf? && |v.s| <= 50 ==> FormatValue(v) == v.s
    ensures v.StringOf? && |v.s| > 50 ==>
      FormatValue(v)[..47] == v.s[..47] && HasSuffix(FormatValue(v), "...") && |FormatValue(v)| == 50
    ensures v.SliceOf? && |v.items| > 3 ==> FormatValue(v) == FormatValue(SliceOf(v.items[..3])) + "..."
    ensures v.SliceOf? && 0 < |v.items| <= 3 ==>
      FormatValue(v) == Join(seq(|v.items|, i requires 0 <= i < |v.items| => FormatValue(v.items[i])), ", ")
    ensures v.SliceOf? ==> (FormatValue(v) == "" <==> v.items == [] || (|v.items| == 1 && FormatValue(v.items[0]) == ""))
    ensures v.MapOf? ==> (FormatValue(v) == "" <==> v.size == 0)
    ensures v.MapOf? && v.size > 0 ==> FormatValue(v) == "(" + NatToString(v.size) + " items)"
    ensures v.BoolOf? ==> (FormatValue(v) == "true" <==> v.b) && (FormatValue(v) == "false" <==> !v.b)
    ensures v.Pointer? && v.target.Some? ==> FormatValue(v) == FormatValue(v.target.value)
  {
    match v
    case StringOf(s) =>
      if |s| > 50 {
        assert FormatValue(v)[|FormatValue(v)| - 3..] == "...";
      }
    case SliceOf(items) =>
      if |items| > 3 {
        var first := items[..3];
        assert forall i :: 0 <= i < 3 ==> first[i] == items[i];
        assert seq(Min(|first|, 3), i requires 0 <= i < Min(|first|, 3) => FormatValue(first[i]))
          == seq(Min(|items|, 3), i requires 0 <= i < Min(|items|, 3) => FormatValue(items[i]));
        JoinLength(seq(3, i requires 0 <= i < 3 => FormatValue(items[i])), ", ");
      } else if |items| > 0 {
        var shown := seq(|items|, i requires 0 <= i < |items| => FormatValue(items[i]));
        assert seq(Min(|items|, 3), i requires 0 <= i < Min(|items|, 3) => FormatValue(items[i])) == shown;
        if |items| > 1 {
          JoinLength(shown, ", ");
        }
      }
    case _ =>
  }

  /** A join of two or more parts holds the separator, so it is never empty when the separator is not. */
  lemma JoinLength(parts: seq<string>, sep: string)
    requires |parts| >= 2
    ensures |Join(parts, sep)| >= |sep|
  {
    assert Join(parts, sep) == parts[0] + sep + Join(parts[1..], sep);
  }
}
