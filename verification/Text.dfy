/** The string operations the rules are written in: trimming, ASCII case, search and decimal printing. */
module Text {
  predicate IsWhitespace(c: char) {
    || '\t' <= c <= '\r' || c == ' ' || c == '\U{85}' || c == '\U{A0}' || c == '\U{1680}'
    || '\U{2000}' <= c <= '\U{200A}' || c == '\U{2028}' || c == '\U{2029}' || c == '\U{202F}'
    || c == '\U{205F}' || c == '\U{3000}'
  }

  function TrimStart(s: string): string {
    if s != "" && IsWhitespace(s[0]) then TrimStart(s[1..]) else s
  }

  function TrimEnd(s: string): string {
    if s != "" && IsWhitespace(s[|s| - 1]) then TrimEnd(s[..|s| - 1]) else s
  }

  function Trim(s: string): string { TrimEnd(TrimStart(s)) }

  function UpperChar(c: char): char {
    if 'a' <= c <= 'z' then (c as int - 32) as char else c
  }

  function LowerChar(c: char): char {
    if 'A' <= c <= 'Z' then (c as int + 32) as char else c
  }

  function ToAsciiUpper(s: string): (r: string)
    ensures |r| == |s|
  {
    seq(|s|, i requires 0 <= i < |s| => UpperChar(s[i]))
  }

  function ToAsciiLower(s: string): (r: string)
    ensures |r| == |s|
  {
    seq(|s|, i requires 0 <= i < |s| => LowerChar(s[i]))
  }

  predicate Contains(s: string, part: string) {
    part <= s || (s != "" && Contains(s[1..], part))
  }

  function Digit(d: nat): char
    requires d < 10
  {
    (d + '0' as int) as char
  }

  function NatText(n: nat): (r: string)
    ensures r != "" && forall c :: c in r ==> '0' <= c <= '9'
  {
    if n < 10 then [Digit(n)] else NatText(n / 10) + [Digit(n % 10)]
  }

  function IntText(n: int): string {
    if n < 0 then "-" + NatText(-n) else NatText(n)
  }

  lemma {:induction false} NatTextInjective(m: nat, n: nat)
    requires NatText(m) == NatText(n)
    ensures m == n
    decreases m + n
  {
    var s, t := NatText(m), NatText(n);
    assert s[|s| - 1] == Digit(m % 10) && t[|t| - 1] == Digit(n % 10);
    if m >= 10 && n >= 10 {
      assert s[..|s| - 1] == NatText(m / 10) && t[..|t| - 1] == NatText(n / 10);
      NatTextInjective(m / 10, n / 10);
    }
  }

  lemma IntTextInjective(m: int, n: int)
    requires IntText(m) == IntText(n)
    ensures m == n
  {
    if m < 0 && n < 0 {
      assert IntText(m)[1..] == NatText(-m) && IntText(n)[1..] == NatText(-n);
      NatTextInjective(-m, -n);
    } else if m >= 0 && n >= 0 {
      NatTextInjective(m, n);
    } else {
      var positive := if m < 0 then n else m;
      assert NatText(positive)[0] in NatText(positive);
    }
  }

  lemma IntTextHasNoColon(n: int)
    ensures ':' !in IntText(n)
  {
  }

  /** Upper-case letters and underscores: the alphabet of status names. */
  predicate IsName(s: string) {
    s != "" && forall c :: c in s ==> 'A' <= c <= 'Z' || c == '_'
  }

  lemma NameIsNormal(s: string)
    requires IsName(s)
    ensures ToAsciiUpper(Trim(s)) == s
  {
    assert s[0] in s && s[|s| - 1] in s;
    assert forall i :: 0 <= i < |s| ==> s[i] in s;
  }

  lemma {:induction false} TrimStartKeepsText(s: string, i: nat)
    requires i < |s| && !IsWhitespace(s[i])
    ensures TrimStart(s) != "" && exists j :: 0 <= j < |TrimStart(s)| && !IsWhitespace(TrimStart(s)[j])
    decreases |s|
  {
    if IsWhitespace(s[0]) {
      TrimStartKeepsText(s[1..], i - 1);
    } else {
      assert TrimStart(s)[0] == s[0];
    }
  }

  lemma {:induction false} TrimEndKeepsText(s: string, i: nat)
    requires i < |s| && !IsWhitespace(s[i])
    ensures TrimEnd(s) != ""
    decreases |s|
  {
    if IsWhitespace(s[|s| - 1]) {
      TrimEndKeepsText(s[..|s| - 1], i);
    }
  }

  /** Trimming empties only blank text. */
  lemma TrimKeepsText(s: string, i: nat)
    requires i < |s| && !IsWhitespace(s[i])
    ensures Trim(s) != ""
  {
    TrimStartKeepsText(s, i);
    var j :| 0 <= j < |TrimStart(s)| && !IsWhitespace(TrimStart(s)[j]);
    TrimEndKeepsText(TrimStart(s), j);
  }

  // ---------------------------------------------------------------------------------------------
  // Normal forms

  predicate Trimmed(s: string) { s == "" || (!IsWhitespace(s[0]) && !IsWhitespace(s[|s| - 1])) }

  lemma {:induction false} TrimEndIsTrimmed(s: string)
    requires s == "" || !IsWhitespace(s[0])
    ensures Trimmed(TrimEnd(s))
    decreases |s|
  {
    if s != "" && IsWhitespace(s[|s| - 1]) {
      TrimEndIsTrimmed(s[..|s| - 1]);
    }
  }

  lemma {:induction false} TrimStartStartsWithText(s: string)
    ensures TrimStart(s) == "" || !IsWhitespace(TrimStart(s)[0])
    decreases |s|
  {
    if s != "" && IsWhitespace(s[0]) {
      TrimStartStartsWithText(s[1..]);
    }
  }

  lemma TrimIsTrimmed(s: string)
    ensures Trimmed(Trim(s))
  {
    TrimStartStartsWithText(s);
    TrimEndIsTrimmed(TrimStart(s));
  }

  lemma TrimmedIsFixed(s: string)
    requires Trimmed(s)
    ensures Trim(s) == s
  {
  }

  /** Trimming and lower-casing twice is doing it once. */
  lemma LowerNormalForm(s: string)
    ensures var n := ToAsciiLower(Trim(s)); ToAsciiLower(Trim(n)) == n
  {
    hide Trim;
    TrimIsTrimmed(s);
    TrimmedIsFixed(ToAsciiLower(Trim(s)));
  }

  lemma UpperNormalForm(s: string)
    ensures var n := ToAsciiUpper(Trim(s)); ToAsciiUpper(Trim(n)) == n
  {
    hide Trim;
    TrimIsTrimmed(s);
    TrimmedIsFixed(ToAsciiUpper(Trim(s)));
  }

  lemma {:induction false} TrimStartKeepsChar(s: string, c: char)
    requires c in s && !IsWhitespace(c)
    ensures c in TrimStart(s)
    decreases |s|
  {
    if IsWhitespace(s[0]) {
      TrimStartKeepsChar(s[1..], c);
    }
  }

  lemma {:induction false} TrimEndKeepsChar(s: string, c: char)
    requires c in s && !IsWhitespace(c)
    ensures c in TrimEnd(s)
    decreases |s|
  {
    if IsWhitespace(s[|s| - 1]) {
      TrimEndKeepsChar(s[..|s| - 1], c);
    }
  }

  /** A character that is neither blank nor a letter survives trimming and lower-casing. */
  lemma LowerTrimKeepsChar(s: string, c: char)
    requires c in s && !IsWhitespace(c) && LowerChar(c) == c
    ensures c in ToAsciiLower(Trim(s))
  {
    TrimStartKeepsChar(s, c);
    TrimEndKeepsChar(TrimStart(s), c);
    var i :| 0 <= i < |Trim(s)| && Trim(s)[i] == c;
    assert ToAsciiLower(Trim(s))[i] == c;
  }

  // ---------------------------------------------------------------------------------------------
  // What trimming and capitals are

  /** The characters Unicode counts as white space. */
  const BLANKS: string :=
    "\t\n\U{B}\U{C}\r \U{85}\U{A0}\U{1680}\U{2000}\U{2001}\U{2002}\U{2003}\U{2004}\U{2005}\U{2006}\U{2007}\U{2008}\U{2009}\U{200A}\U{2028}\U{2029}\U{202F}\U{205F}\U{3000}"

  lemma BlanksAreWhitespace(c: char)
    ensures IsWhitespace(c) <==> c in BLANKS
  {
  }

  /** Text between two places, with only blanks outside. */
  ghost predicate Slice(part: string, s: string, from: nat) {
    && from + |part| <= |s| && s[from..from + |part|] == part
    && (forall i :: 0 <= i < |s| && !(from <= i < from + |part|) ==> s[i] in BLANKS)
  }

  lemma {:induction false} TrimStartIsSlice(s: string)
    ensures |TrimStart(s)| <= |s| && s[|s| - |TrimStart(s)|..] == TrimStart(s)
    ensures forall i :: 0 <= i < |s| - |TrimStart(s)| ==> IsWhitespace(s[i])
    decreases |s|
  {
    if s != "" && IsWhitespace(s[0]) {
      TrimStartIsSlice(s[1..]);
      assert forall i :: 1 <= i < |s| ==> s[i] == s[1..][i - 1];
    }
  }

  lemma {:induction false} TrimEndIsSlice(s: string)
    ensures |TrimEnd(s)| <= |s| && s[..|TrimEnd(s)|] == TrimEnd(s)
    ensures forall i :: |TrimEnd(s)| <= i < |s| ==> IsWhitespace(s[i])
    decreases |s|
  {
    if s != "" && IsWhitespace(s[|s| - 1]) {
      TrimEndIsSlice(s[..|s| - 1]);
      assert forall i :: 0 <= i < |s| - 1 ==> s[i] == s[..|s| - 1][i];
    }
  }

  /** Trimming drops the blanks at both ends and nothing else. */
  lemma TrimIsSlice(s: string) returns (from: nat)
    ensures Slice(Trim(s), s, from)
    ensures Trim(s) != "" ==> Trim(s)[0] !in BLANKS && Trim(s)[|Trim(s)| - 1] !in BLANKS
  {
    hide IsWhitespace, BLANKS, TrimStart, TrimEnd;
    TrimStartIsSlice(s);
    TrimEndIsSlice(TrimStart(s));
    TrimIsTrimmed(s);
    from := |s| - |TrimStart(s)|;
    forall i | 0 <= i < |s|
      ensures IsWhitespace(s[i]) <==> s[i] in BLANKS
    {
      BlanksAreWhitespace(s[i]);
    }
    var inner := TrimStart(s);
    assert forall i :: from <= i < |s| ==> s[i] == inner[i - from];
    if Trim(s) != "" {
      BlanksAreWhitespace(Trim(s)[0]);
      BlanksAreWhitespace(Trim(s)[|Trim(s)| - 1]);
    }
  }

  // ---------------------------------------------------------------------------------------------
  // Decimals and search

  /** The number that a string of decimal digits stands for. */
  function Value(digits: string): int {
    if digits == "" then 0 else 10 * Value(digits[..|digits| - 1]) + (digits[|digits| - 1] as int - '0' as int)
  }

  lemma {:induction false} NatTextReadsBack(n: nat)
    ensures Value(NatText(n)) == n
  {
    var s := NatText(n);
    if n < 10 {
      assert s[..0] == "";
    } else {
      assert s[..|s| - 1] == NatText(n / 10);
      NatTextReadsBack(n / 10);
    }
  }

  /** A printed number reads back as itself, a negative one behind its sign. */
  lemma IntTextReadsBack(n: int)
    ensures n >= 0 ==> Value(IntText(n)) == n
    ensures n < 0 ==> IntText(n)[..1] == "-" && Value(IntText(n)[1..]) == -n
  {
    NatTextReadsBack(if n < 0 then -n else n);
  }

  ghost predicate OccursAt(part: string, s: string, i: nat) {
    i + |part| <= |s| && s[i..i + |part|] == part
  }

  lemma NotAtTheStart(part: string, s: string)
    ensures OccursAt(part, s, 0) <==> part <= s
  {
  }

  lemma {:induction false} ContainsIffOccurs(s: string, part: string)
    ensures Contains(s, part) <==> exists i: nat :: OccursAt(part, s, i)
    decreases |s|
  {
    if part <= s {
      assert OccursAt(part, s, 0);
    } else if s != "" {
      ContainsIffOccurs(s[1..], part);
      if Contains(s[1..], part) {
        var i: nat :| OccursAt(part, s[1..], i);
        assert s[i + 1..i + 1 + |part|] == s[1..][i..i + |part|];
        assert OccursAt(part, s, i + 1);
      }
      forall i: nat | OccursAt(part, s, i)
        ensures exists j: nat :: OccursAt(part, s[1..], j)
      {
        NotAtTheStart(part, s);
        assert s[1..][i - 1..i - 1 + |part|] == s[i..i + |part|];
        assert OccursAt(part, s[1..], i - 1);
      }
    }
  }

  /** The same letter, or the capital of a small one. */
  predicate SameLetter(small: char, c: char) {
    if 'a' <= small <= 'z' then c == small || c as int - 'A' as int == small as int - 'a' as int else c == small
  }

  lemma LowerIsSameLetter(c: char, small: char)
    requires !('A' <= small <= 'Z')
    ensures LowerChar(c) == small <==> SameLetter(small, c)
  {
  }

  /** Upper- and lower-casing change ASCII letters only, and undo each other on them. */
  lemma CaseIsAscii(c: char)
    ensures UpperChar(c) == (if 'a' <= c <= 'z' then (c as int - 'a' as int + 'A' as int) as char else c)
    ensures LowerChar(c) == (if 'A' <= c <= 'Z' then (c as int - 'A' as int + 'a' as int) as char else c)
    ensures 'a' <= c <= 'z' ==> LowerChar(UpperChar(c)) == c
    ensures 'A' <= c <= 'Z' ==> UpperChar(LowerChar(c)) == c
  {
  }
}
