/** The small piece of JavaScript semantics the client code leans on:
    completion records (a call either returns normally or throws) and the
    whitespace set used by String.prototype.trim (the WhiteSpace and
    LineTerminator productions of the ECMAScript language specification).

    Strings are sequences of Unicode scalar values; every character the
    client code inspects lies in the Basic Multilingual Plane, so this agrees
    with JavaScript's UTF-16 code units wherever it matters. */
module Js {

  /** The value a thrown exception carries. */
  datatype JsError = JsError(message: string)

  /** A value that may be absent (`null` or `undefined`). */
  datatype Option<+T> = None | Some(value: T)

  /** How a call completes: it returns a value or it throws. */
  datatype Completion<+T> = Normal(value: T) | Throw(error: JsError)

  /** ECMAScript WhiteSpace (TAB, VT, FF, ZWNBSP and the Zs category) or
      LineTerminator (LF, CR, LS, PS). */
  predicate IsWhiteSpace(c: char)
  {
    var n := c as int;
    || n == 0x0009 || n == 0x000B || n == 0x000C || n == 0xFEFF
    || n == 0x0020 || n == 0x00A0 || n == 0x1680
    || (0x2000 <= n <= 0x200A) || n == 0x202F || n == 0x205F || n == 0x3000
    || n == 0x000A || n == 0x000D || n == 0x2028 || n == 0x2029
  }

  predicate AllWhiteSpace(s: string)
  {
    forall i :: 0 <= i < |s| ==> IsWhiteSpace(s[i])
  }

  /** Neither end of `r` is whitespace. */
  predicate Trimmed(r: string)
  {
    r == [] || (!IsWhiteSpace(r[0]) && !IsWhiteSpace(r[|r| - 1]))
  }

  /** `r` sits inside `s` with only whitespace before and after it. */
  ghost predicate StripsTo(s: string, r: string)
  {
    exists i :: 0 <= i <= |s| - |r| && s[i..i + |r|] == r
      && AllWhiteSpace(s[..i]) && AllWhiteSpace(s[i + |r|..])
  }

  /** Length of the longest all-whitespace prefix of `s`. */
  function LeadingWhiteSpace(s: string): (k: nat)
    ensures k <= |s|
    ensures AllWhiteSpace(s[..k])
    ensures k < |s| ==> !IsWhiteSpace(s[k])
  {
    if |s| == 0 || !IsWhiteSpace(s[0]) then 0
    else
      var k' := LeadingWhiteSpace(s[1..]);
      assert s[..k' + 1] == [s[0]] + s[1..][..k'];
      k' + 1
  }

  /** Length of the longest all-whitespace suffix of `s`. */
  function TrailingWhiteSpace(s: string): (k: nat)
    ensures k <= |s|
    ensures AllWhiteSpace(s[|s| - k..])
    ensures k < |s| ==> !IsWhiteSpace(s[|s| - k - 1])
  {
    if |s| == 0 || !IsWhiteSpace(s[|s| - 1]) then 0
    else
      var t := s[..|s| - 1];
      var k' := TrailingWhiteSpace(t);
      assert s[|s| - (k' + 1)..] == t[|t| - k'..] + [s[|s| - 1]];
      assert k' < |t| ==> s[|s| - k' - 2] == t[|t| - k' - 1];
      k' + 1
  }

  /** String.prototype.trim: drop leading and trailing whitespace. */
  function Trim(s: string): (r: string)
    ensures |r| <= |s|
    ensures StripsTo(s, r)
    ensures Trimmed(r)
    ensures r == [] <==> AllWhiteSpace(s)
  {
    var a := LeadingWhiteSpace(s);
    var t := s[a..];
    var b := TrailingWhiteSpace(t);
    var r := t[..|t| - b];
    assert s[a..a + |r|] == r;
    assert s[a + |r|..] == t[|t| - b..];
    assert r == [] ==> AllWhiteSpace(s) by {
      if r == [] {
        assert s == s[..a] + t[|t| - b..];
      }
    }
    assert r != [] ==> !IsWhiteSpace(r[0]) && !IsWhiteSpace(r[|r| - 1]) by {
      if r != [] {
        assert r[0] == s[a];
        assert r[|r| - 1] == t[|t| - b - 1];
      }
    }
    r
  }

  /** JavaScript truthiness of a possibly-null string: `null` and "" are falsy. */
  predicate Truthy(s: Option<string>)
  {
    s.Some? && s.value != []
  }

  /** JavaScript's `!text.trim()`: the trimmed string is the falsy "". */
  predicate IsBlank(s: string)
  {
    Trim(s) == []
  }

  /** A string is blank exactly when every character is whitespace. */
  lemma BlankIffAllWhiteSpace(s: string)
    ensures IsBlank(s) <==> AllWhiteSpace(s)
  {
  }

  /** Trimming twice is trimming once. */
  lemma TrimIdempotent(s: string)
    ensures Trim(Trim(s)) == Trim(s)
  {
  }

  /** The whitespace prefix ends exactly at the first non-whitespace character. */
  lemma LeadingStopsAt(s: string, i: nat)
    requires i < |s| && AllWhiteSpace(s[..i]) && !IsWhiteSpace(s[i])
    ensures LeadingWhiteSpace(s) == i
  {
  }

  /** The whitespace suffix starts right after the last non-whitespace character. */
  lemma TrailingStopsAt(s: string, e: nat)
    requires 0 < e <= |s| && AllWhiteSpace(s[e..]) && !IsWhiteSpace(s[e - 1])
    ensures TrailingWhiteSpace(s) == |s| - e
  {
  }

  /** Trim is determined by its two promises: any whitespace-free core of
      `s` that is surrounded only by whitespace is the trimmed string. */
  lemma {:induction false} TrimUnique(s: string, r: string)
    requires StripsTo(s, r) && Trimmed(r)
    ensures r == Trim(s)
  {
    var i :| 0 <= i <= |s| - |r| && s[i..i + |r|] == r
      && AllWhiteSpace(s[..i]) && AllWhiteSpace(s[i + |r|..]);
    if r == [] {
      assert s == s[..i] + s[i..];
      assert AllWhiteSpace(s);
    } else {
      CoreIsTrim(s, r, i);
    }
  }

  lemma CoreIsTrim(s: string, r: string, i: nat)
    requires r != [] && Trimmed(r)
    requires i + |r| <= |s| && s[i..i + |r|] == r
    requires AllWhiteSpace(s[..i]) && AllWhiteSpace(s[i + |r|..])
    ensures r == Trim(s)
  {
    assert s[i] == r[0];
    LeadingStopsAt(s, i);
    var t := s[i..];
    assert t[|r|..] == s[i + |r|..];
    assert t[|r| - 1] == r[|r| - 1];
    TrailingStopsAt(t, |r|);
    assert t[..|r|] == r;
  }
}
