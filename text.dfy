/** String helpers standing in for the JavaScript string built-ins the portal
    calls: `toLowerCase`, `includes`, `trim`, `padStart`, `split`, number
    formatting with `toString` and the decimal part of `parseInt`. */
module Text {
  import opened Types

  /** Case folding of one character: the ASCII capitals A-Z and the Latin-1
      capitals À-Þ (all but the sign ×) become their small letters, which lie
      32 code points higher. */
  function LowerChar(c: char): char {
    if 'A' <= c <= 'Z' || ('À' <= c <= 'Þ' && c != '×') then (c as int + 32) as char else c
  }

  /** `s.toLowerCase()`, folding ASCII and Latin-1 capitals. */
  function Lower(s: string): (r: string)
    ensures |r| == |s|
  {
    seq(|s|, i requires 0 <= i < |s| => LowerChar(s[i]))
  }

  lemma LowerConcat(a: string, b: string)
    ensures Lower(a + b) == Lower(a) + Lower(b)
  {
    assert forall i :: 0 <= i < |a + b| ==> Lower(a + b)[i] == (Lower(a) + Lower(b))[i];
  }

  predicate StartsWith(s: string, p: string) {
    |p| <= |s| && s[..|p|] == p
  }

  /** `t` occurs in `s` starting at index `i`. */
  predicate OccursAt(s: string, t: string, i: int) {
    0 <= i && i + |t| <= |s| && s[i..i + |t|] == t
  }

  /** `s.includes(t)`: scans `s` from the left for an occurrence of `t`. */
  predicate Contains(s: string, t: string)
    decreases |s|
  {
    StartsWith(s, t) || (|s| > 0 && Contains(s[1..], t))
  }

  /** The scanning definition agrees with "some index where `t` occurs". */
  lemma {:induction false} ContainsIff(s: string, t: string)
    ensures Contains(s, t) <==> exists i :: OccursAt(s, t, i)
    decreases |s|
  {
    if StartsWith(s, t) {
      assert OccursAt(s, t, 0);
    } else if |s| > 0 {
      ContainsIff(s[1..], t);
      if Contains(s[1..], t) {
        var j :| OccursAt(s[1..], t, j);
        assert s[j + 1..j + 1 + |t|] == s[1..][j..j + |t|];
        assert OccursAt(s, t, j + 1);
      } else {
        forall i | OccursAt(s, t, i) && i > 0 ensures OccursAt(s[1..], t, i - 1) {
          assert s[1..][i - 1..i - 1 + |t|] == s[i..i + |t|];
        }
        assert OccursAt(s, t, 0) ==> StartsWith(s, t);
      }
    }
  }

  /** An occurrence in the right part of a concatenation is an occurrence in the whole. */
  lemma ContainsSuffix(a: string, b: string, t: string)
    requires Contains(b, t)
    ensures Contains(a + b, t)
  {
    ContainsIff(b, t);
    var i :| OccursAt(b, t, i);
    assert (a + b)[|a| + i..|a| + i + |t|] == b[i..i + |t|];
    assert OccursAt(a + b, t, |a| + i);
    ContainsIff(a + b, t);
  }

  /** An occurrence in the left part of a concatenation is an occurrence in the whole. */
  lemma ContainsPrefix(a: string, b: string, t: string)
    requires Contains(a, t)
    ensures Contains(a + b, t)
  {
    ContainsIff(a, t);
    var i :| OccursAt(a, t, i);
    assert (a + b)[i..i + |t|] == a[i..i + |t|];
    assert OccursAt(a + b, t, i);
    ContainsIff(a + b, t);
  }

  /** A word whose folded form is the keyword, written anywhere in a text,
      is found by a search for the keyword in the folded text. */
  lemma FoldedKeywordAnywhere(a: string, shown: string, keyword: string, b: string)
    requires Lower(shown) == keyword
    ensures Contains(Lower(a + shown + b), keyword)
  {
    LowerConcat(a + shown, b);
    LowerConcat(a, shown);
    ContainsIff(keyword, keyword);
    assert OccursAt(keyword, keyword, 0);
    ContainsSuffix(Lower(a), keyword, keyword);
    ContainsPrefix(Lower(a) + keyword, Lower(b), keyword);
  }

  /** A lower-case keyword written anywhere in a text survives case folding. */
  lemma KeywordAnywhere(a: string, keyword: string, b: string)
    requires Lower(keyword) == keyword
    ensures Contains(Lower(a + keyword + b), keyword)
  {
    FoldedKeywordAnywhere(a, keyword, keyword, b);
  }

  /** The characters `String.prototype.trim` removes: the ECMAScript
      WhiteSpace (TAB, VT, FF, SP, NBSP, ZWNBSP and the Zs space separators)
      and LineTerminator (LF, CR, LS, PS) characters. */
  predicate IsSpace(c: char) {
    c == '\t' || c == '\U{000B}' || c == '\U{000C}' || c == ' ' || c == '\U{00A0}' || c == '\U{FEFF}'
    || c == '\n' || c == '\r' || c == '\U{2028}' || c == '\U{2029}'
    || c == '\U{1680}' || ('\U{2000}' <= c <= '\U{200A}') || c == '\U{202F}' || c == '\U{205F}' || c == '\U{3000}'
  }

  function TrimStart(s: string): string {
    if |s| > 0 && IsSpace(s[0]) then TrimStart(s[1..]) else s
  }

  function TrimEnd(s: string): string {
    if |s| > 0 && IsSpace(s[|s| - 1]) then TrimEnd(s[..|s| - 1]) else s
  }

  /** `s.trim()`. */
  function Trim(s: string): string {
    TrimEnd(TrimStart(s))
  }

  predicate AllSpace(s: string) {
    forall i :: 0 <= i < |s| ==> IsSpace(s[i])
  }

  lemma {:induction false} TrimStartEmpty(s: string)
    ensures TrimStart(s) == [] <==> AllSpace(s)
  {
    if |s| > 0 && IsSpace(s[0]) {
      TrimStartEmpty(s[1..]);
      assert AllSpace(s[1..]) ==> AllSpace(s) by {
        if AllSpace(s[1..]) {
          forall i | 0 <= i < |s| ensures IsSpace(s[i]) {
            if i > 0 { assert s[i] == s[1..][i - 1]; }
          }
        }
      }
    }
  }

  /** A string trims to the empty string exactly when it holds only whitespace. */
  lemma TrimEmptyIff(s: string)
    ensures Trim(s) == [] <==> AllSpace(s)
  {
    TrimStartEmpty(s);
    TrimEndOfTrimmedStart(s);
  }

  /** Once leading whitespace is gone, trimming the end cannot empty a non-empty string. */
  lemma TrimEndOfTrimmedStart(s: string)
    ensures TrimEnd(TrimStart(s)) == [] <==> TrimStart(s) == []
  {
    var t := TrimStart(s);
    TrimStartHead(s);
    TrimEndKeepsNonSpaceHead(t);
  }

  lemma {:induction false} TrimStartHead(s: string)
    ensures TrimStart(s) != [] ==> !IsSpace(TrimStart(s)[0])
  {
    if |s| > 0 && IsSpace(s[0]) { TrimStartHead(s[1..]); }
  }

  lemma {:induction false} TrimEndKeepsNonSpaceHead(t: string)
    requires t != [] ==> !IsSpace(t[0])
    ensures TrimEnd(t) == [] <==> t == []
  {
    if |t| > 0 && IsSpace(t[|t| - 1]) {
      assert |t| > 1;
      TrimEndKeepsNonSpaceHead(t[..|t| - 1]);
    }
  }

  // ---------------------------------------------------------------------
  // Decimal numbers as strings

  predicate IsDigit(c: char) {
    '0' <= c <= '9'
  }

  predicate AllDigits(s: string) {
    forall i :: 0 <= i < |s| ==> IsDigit(s[i])
  }

  function DigitChar(d: nat): (c: char)
    requires d < 10
    ensures IsDigit(c) && c as int - '0' as int == d
  {
    ('0' as int + d) as char
  }

  function DigitValue(c: char): nat
    requires IsDigit(c)
  {
    c as int - '0' as int
  }

  /** Decimal digits of a natural number, most significant first, without
      leading zeros: `n.toString()` for an integral `n >= 0`. */
  function NatToString(n: nat): (r: string)
    ensures |r| >= 1 && AllDigits(r)
    ensures |r| > 1 ==> r[0] != '0'
    decreases n
  {
    if n < 10 then [DigitChar(n)] else NatToString(n / 10) + [DigitChar(n % 10)]
  }

  /** `n.toString()` for an integral `n`. */
  function IntToString(n: int): string {
    if n < 0 then "-" + NatToString(-n) else NatToString(n)
  }

  /** The value of a string of decimal digits. */
  function DigitsValue(s: string): nat
    requires AllDigits(s)
  {
    if s == [] then 0 else DigitsValue(s[..|s| - 1]) * 10 + DigitValue(s[|s| - 1])
  }

  /** Reading back the digits of a number gives the number. */
  lemma {:induction false} NatToStringValue(n: nat)
    ensures DigitsValue(NatToString(n)) == n
    decreases n
  {
    if n >= 10 {
      NatToStringValue(n / 10);
      var r := NatToString(n);
      assert r[..|r| - 1] == NatToString(n / 10);
    }
  }

  /** A zero in front does not change the value of a digit string. */
  lemma {:induction false} LeadingZeroValue(s: string)
    requires AllDigits(s)
    ensures AllDigits("0" + s) && DigitsValue("0" + s) == DigitsValue(s)
    decreases |s|
  {
    if s != [] {
      var z := "0" + s;
      assert z[..|z| - 1] == "0" + s[..|s| - 1];
      LeadingZeroValue(s[..|s| - 1]);
    }
  }

  /** The longest prefix of `s` made of decimal digits. */
  function LeadingDigits(s: string): (r: string)
    ensures AllDigits(r) && |r| <= |s| && r == s[..|r|]
    ensures |r| < |s| ==> !IsDigit(s[|r|])
  {
    if s != [] && IsDigit(s[0]) then [s[0]] + LeadingDigits(s[1..]) else []
  }

  /** `parseInt(s)` in base ten: leading whitespace skipped, an optional sign,
      then the longest run of digits; `None` stands for `NaN` (no digits). */
  function ParseInt(s: string): (r: Option<int>)
    ensures r.None? <==> LeadingDigits(UnsignedPart(TrimStart(s))) == []
  {
    var t := TrimStart(s);
    var digits := LeadingDigits(UnsignedPart(t));
    if digits == [] then None
    else
      var magnitude: int := DigitsValue(digits);
      Some(if |t| > 0 && t[0] == '-' then -magnitude else magnitude)
  }

  /** What follows an optional leading sign. */
  function UnsignedPart(t: string): string {
    if |t| > 0 && (t[0] == '-' || t[0] == '+') then t[1..] else t
  }

  /** A digit string followed by a non-digit is the longest digit prefix. */
  lemma {:induction false} LeadingDigitsOfDigits(s: string, rest: string)
    requires AllDigits(s) && (rest == [] || !IsDigit(rest[0]))
    ensures LeadingDigits(s + rest) == s
  {
    if s != [] {
      assert (s + rest)[1..] == s[1..] + rest;
      LeadingDigitsOfDigits(s[1..], rest);
    }
  }

  /** `parseInt` reads back what `toString` writes, and stops at the first
      character after the number that is not a digit. */
  lemma ParseIntOfPrefix(n: int, rest: string)
    requires rest == [] || !IsDigit(rest[0])
    ensures ParseInt(IntToString(n) + rest) == Some(n)
  {
    var d := NatToString(if n < 0 then -n else n);
    NatToStringValue(if n < 0 then -n else n);
    LeadingDigitsOfDigits(d, rest);
    SignedTextParts(n, rest);
  }

  /** A printed integer starts with no space, and after its optional minus
      sign come its digits. */
  lemma SignedTextParts(n: int, rest: string)
    ensures var t := IntToString(n) + rest;
      && TrimStart(t) == t
      && UnsignedPart(t) == NatToString(if n < 0 then -n else n) + rest
      && (|t| > 0 && t[0] == '-' <==> n < 0)
  {
    var d := NatToString(if n < 0 then -n else n);
    var t := IntToString(n) + rest;
    assert !IsSpace(t[0]);
    if n < 0 {
      assert t == "-" + (d + rest);
    } else {
      assert t == d + rest;
      assert IsDigit(t[0]);
    }
  }

  /** `parseInt` reads back what `toString` writes. */
  lemma ParseIntToString(n: int)
    ensures ParseInt(IntToString(n)) == Some(n)
  {
    ParseIntOfPrefix(n, "");
    assert IntToString(n) + "" == IntToString(n);
  }

  /** `s.padStart(width, fill)` with a one-character fill. */
  function PadStart(s: string, width: nat, fill: char): (r: string)
    ensures |r| == if |s| >= width then |s| else width
    ensures r[|r| - |s|..] == s
    ensures forall i :: 0 <= i < |r| - |s| ==> r[i] == fill
  {
    if |s| >= width then s else seq(width - |s|, _ => fill) + s
  }

  // ---------------------------------------------------------------------
  // Splitting

  /** `s.split(sep)` for a one-character separator. */
  function Split(s: string, sep: char): (r: seq<string>)
    ensures |r| >= 1
    decreases |s|
  {
    if s == [] then [""]
    else if s[0] == sep then [""] + Split(s[1..], sep)
    else var rest := Split(s[1..], sep); [[s[0]] + rest[0]] + rest[1..]
  }

  /** A piece without the separator splits to itself. */
  lemma {:induction false} SplitNoSep(a: string, sep: char)
    requires sep !in a
    ensures Split(a, sep) == [a]
    decreases |a|
  {
    if a != [] {
      assert sep !in a[1..];
      SplitNoSep(a[1..], sep);
      assert [a[0]] + a[1..] == a;
    }
  }

  /** Splitting `a + [sep] + b`, where `a` holds no separator, gives `a` first. */
  lemma {:induction false} SplitCons(a: string, sep: char, b: string)
    requires sep !in a
    ensures Split(a + [sep] + b, sep) == [a] + Split(b, sep)
    decreases |a|
  {
    var s := a + [sep] + b;
    if a == [] {
      assert s[1..] == b;
    } else {
      assert s[1..] == a[1..] + [sep] + b;
      assert sep !in a[1..];
      SplitCons(a[1..], sep, b);
      assert [a[0]] + a[1..] == a;
    }
  }
}
