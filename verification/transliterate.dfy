/** The transliteration wrapper and the two script predicates.

    The script-mapping library (Sanscript) is not part of this model: it is a
    function-typed parameter that, given one request, either returns a string
    or throws. The wrapper's own logic is the blank-input guard, the choice
    of schemes and options from the direction, and the fallback to the input
    when the library throws. */
module Transliterate {
  import opened Js
  import opened Schema

  /** The two romanisation schemes the wrapper names. */
  datatype Scheme = Itrans | Devanagari

  /** The options argument: omitted, or `{ syncope: true }`. */
  datatype MapOptions = NoOptions | Syncope

  /** One call `Sanscript.t(input, from, to, options)`. */
  datatype MapRequest = MapRequest(input: string, from: Scheme, to: Scheme, options: MapOptions)

  /** The mapping library, as an oracle. */
  type Sanscript = MapRequest -> Completion<string>

  /** The library call the wrapper makes for a non-blank text. */
  function Request(text: string, d: Direction): (q: MapRequest)
    ensures q.input == text
    ensures d == EnToHi <==> q.to == Devanagari
    ensures d == EnToHi ==> q == MapRequest(text, Itrans, Devanagari, Syncope)
    ensures d == HiToEn ==> q == MapRequest(text, Devanagari, Itrans, NoOptions)
  {
    match d
    case EnToHi => MapRequest(text, Itrans, Devanagari, Syncope)
    case HiToEn => MapRequest(text, Devanagari, Itrans, NoOptions)
  }

  /** transliterateText: "" for blank input; otherwise the library's result,
      or the input itself when the library throws. Never throws. */
  function TransliterateText(text: string, d: Direction, sanscript: Sanscript): (r: string)
    ensures IsBlank(text) ==> r == ""
    ensures !IsBlank(text) && sanscript(Request(text, d)).Throw? ==> r == text
    ensures !IsBlank(text) && sanscript(Request(text, d)).Normal? ==> r == sanscript(Request(text, d)).value
  {
    if IsBlank(text) then ""
    else
      match sanscript(Request(text, d))
      case Normal(out) => out
      case Throw(_) => text
  }

  /** Blank input never reaches the library: the result is "" whatever the
      library would do. */
  lemma BlankIgnoresLibrary(text: string, d: Direction, s1: Sanscript, s2: Sanscript)
    requires AllWhiteSpace(text)
    ensures TransliterateText(text, d, s1) == "" == TransliterateText(text, d, s2)
  {
  }

  /** For non-blank input the result depends on the library only through
      the one request the direction selects. */
  lemma OnlyRequestMatters(text: string, d: Direction, s1: Sanscript, s2: Sanscript)
    requires s1(Request(text, d)) == s2(Request(text, d))
    ensures TransliterateText(text, d, s1) == TransliterateText(text, d, s2)
  {
  }

  /** The wrapper is total and never propagates a failure: its result is "",
      the input unchanged, or a string the library returned. */
  lemma ResultOrigin(text: string, d: Direction, sanscript: Sanscript)
    ensures var r := TransliterateText(text, d, sanscript);
      || (r == "" && AllWhiteSpace(text))
      || r == text
      || (sanscript(Request(text, d)).Normal? && r == sanscript(Request(text, d)).value)
  {
  }

  /** With a library that always throws, the wrapper trims nothing and maps
      nothing: blank input gives "", anything else comes back unchanged. */
  lemma FailingLibraryIsIdentity(text: string, d: Direction, sanscript: Sanscript)
    requires forall q :: sanscript(q).Throw?
    ensures TransliterateText(text, d, sanscript) == if AllWhiteSpace(text) then "" else text
  {
  }

  // ----- Script predicates -------------------------------------------------

  /** One range of a regular-expression character class, by code point. */
  datatype CharRange = CharRange(lo: int, hi: int)

  predicate InClass(cls: seq<CharRange>, c: char)
  {
    exists k :: 0 <= k < |cls| && cls[k].lo <= c as int <= cls[k].hi
  }

  /** `/[...]/.test(s)` for a regular expression that is one character
      class: scan for the first character in the class. */
  function ClassTest(cls: seq<CharRange>, s: string): (r: bool)
    ensures r <==> exists i :: 0 <= i < |s| && InClass(cls, s[i])
  {
    if |s| == 0 then false
    else if InClass(cls, s[0]) then true
    else
      var r := ClassTest(cls, s[1..]);
      assert forall i :: 1 <= i < |s| ==> s[i] == s[1..][i - 1];
      r
  }

  /** `/[\u0900-\u097F]/` */
  const DevanagariClass: seq<CharRange> := [CharRange(0x0900, 0x097F)]
  /** `/[a-zA-Z]/` */
  const LatinClass: seq<CharRange> := [CharRange('a' as int, 'z' as int), CharRange('A' as int, 'Z' as int)]

  /** A code point of the Devanagari block, U+0900 to U+097F. */
  predicate IsDevanagariChar(c: char)
  {
    0x0900 <= c as int <= 0x097F
  }

  /** An ASCII letter. */
  predicate IsAsciiLetter(c: char)
  {
    ('a' <= c <= 'z') || ('A' <= c <= 'Z')
  }

  /** isDevanagariText: some character lies in the Devanagari block. */
  function IsDevanagariText(s: string): (r: bool)
    ensures r <==> exists i :: 0 <= i < |s| && IsDevanagariChar(s[i])
  {
    var r := ClassTest(DevanagariClass, s);
    assert forall c :: InClass(DevanagariClass, c) <==> IsDevanagariChar(c) by {
      forall c ensures InClass(DevanagariClass, c) <==> IsDevanagariChar(c) {
        if IsDevanagariChar(c) { assert DevanagariClass[0].lo <= c as int <= DevanagariClass[0].hi; }
      }
    }
    r
  }

  /** isLatinText: some character is an ASCII letter. */
  function IsLatinText(s: string): (r: bool)
    ensures r <==> exists i :: 0 <= i < |s| && IsAsciiLetter(s[i])
  {
    var r := ClassTest(LatinClass, s);
    assert forall c :: InClass(LatinClass, c) <==> IsAsciiLetter(c) by {
      forall c ensures InClass(LatinClass, c) <==> IsAsciiLetter(c) {
        if 'a' <= c <= 'z' { assert LatinClass[0].lo <= c as int <= LatinClass[0].hi; }
        if 'A' <= c <= 'Z' { assert LatinClass[1].lo <= c as int <= LatinClass[1].hi; }
      }
    }
    r
  }

  /** Both predicates are false on the empty string. */
  lemma EmptyHasNoScript()
    ensures !IsDevanagariText("") && !IsLatinText("")
  {
  }

  /** A string of digits, or of Devanagari characters only, has no Latin letter. */
  lemma NotLatin(s: string)
    requires forall i :: 0 <= i < |s| ==> ('0' <= s[i] <= '9') || IsDevanagariChar(s[i])
    ensures !IsLatinText(s)
  {
  }

  /** "Some character satisfies P" distributes over concatenation. */
  lemma {:induction false} ExistsOverConcat(cls: seq<CharRange>, a: string, b: string)
    ensures ClassTest(cls, a + b) == (ClassTest(cls, a) || ClassTest(cls, b))
  {
    var ab := a + b;
    if ClassTest(cls, a) {
      var i :| 0 <= i < |a| && InClass(cls, a[i]);
      assert ab[i] == a[i];
    }
    if ClassTest(cls, b) {
      var i :| 0 <= i < |b| && InClass(cls, b[i]);
      assert ab[|a| + i] == b[i];
    }
    if ClassTest(cls, ab) {
      var i :| 0 <= i < |ab| && InClass(cls, ab[i]);
      if i < |a| { assert ab[i] == a[i]; } else { assert ab[i] == b[i - |a|]; }
    }
  }

  lemma DevanagariOverConcat(a: string, b: string)
    ensures IsDevanagariText(a + b) == (IsDevanagariText(a) || IsDevanagariText(b))
  {
    ExistsOverConcat(DevanagariClass, a, b);
  }

  lemma LatinOverConcat(a: string, b: string)
    ensures IsLatinText(a + b) == (IsLatinText(a) || IsLatinText(b))
  {
    ExistsOverConcat(LatinClass, a, b);
  }
}
