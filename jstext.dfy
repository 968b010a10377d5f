/** The JavaScript string operations the feed relies on: `startsWith`,
    `trim`, the decimal rendering of a whole Number in `Date.now() + '-'`,
    and `replace(/\n/g, '<br>')`. A Dafny `char` stands for one character
    of the JavaScript string. */
module JsText {

  /** `s.startsWith(prefix)`. */
  predicate StartsWith(s: string, prefix: string)
  {
    |prefix| <= |s| && s[..|prefix|] == prefix
  }

  // ---------------------------------------------------------------------
  // String.prototype.trim

  /** The white space and line terminators that ECMA-262 lets `trim` remove. */
  predicate IsJsWhitespace(c: char)
  {
    c == '\t' || c == '\n' || c == '\U{000B}' || c == '\U{000C}' || c == '\r' ||
    c == ' ' || c == '\U{00A0}' || c == '\U{1680}' ||
    ('\U{2000}' <= c <= '\U{200A}') ||
    c == '\U{2028}' || c == '\U{2029}' || c == '\U{202F}' || c == '\U{205F}' ||
    c == '\U{3000}' || c == '\U{FEFF}'
  }

  predicate AllWhitespace(s: string)
  {
    forall i :: 0 <= i < |s| ==> IsJsWhitespace(s[i])
  }

  /** Drops leading white space: what is left is a suffix of `s` that starts
      with a non-blank character, and all that was dropped is blank. */
  function TrimStart(s: string): (r: string)
    ensures |r| <= |s| && r == s[|s| - |r|..]
    ensures AllWhitespace(s[..|s| - |r|])
    ensures r != [] ==> !IsJsWhitespace(r[0])
  {
    if s != [] && IsJsWhitespace(s[0]) then
      var r := TrimStart(s[1..]);
      assert s[1..][..|s| - 1 - |r|] == s[1..|s| - |r|];
      r
    else s
  }

  /** Drops trailing white space: what is left is a prefix of `s` that ends
      with a non-blank character, and all that was dropped is blank. */
  function TrimEnd(s: string): (r: string)
    ensures |r| <= |s| && r == s[..|r|]
    ensures AllWhitespace(s[|r|..])
    ensures r != [] ==> !IsJsWhitespace(r[|r| - 1])
  {
    if s != [] && IsJsWhitespace(s[|s| - 1]) then
      var s' := s[..|s| - 1];
      var r := TrimEnd(s');
      assert forall i :: |r| <= i < |s'| ==> s'[|r|..][i - |r|] == s[i];
      r
    else s
  }

  /** `s.trim()`: neither starts nor ends with white space, and is empty
      exactly when `s` is all white space (`TrimIsSlice` says which slice of
      `s` it is). */
  function Trim(s: string): (r: string)
    ensures |r| <= |s|
    ensures r == [] <==> AllWhitespace(s)
    ensures r != [] ==> !IsJsWhitespace(r[0]) && !IsJsWhitespace(r[|r| - 1])
  {
    var t := TrimStart(s);
    var r := TrimEnd(t);
    assert r != [] ==> r[0] == t[0];
    assert t == [] ==> s[..|s| - |t|] == s;
    r
  }

  /** What `trim` keeps is the slice of `s` between a blank prefix and a
      blank suffix. */
  lemma TrimIsSlice(s: string)
    ensures exists i, j :: 0 <= i <= j <= |s| && Trim(s) == s[i..j] && AllWhitespace(s[..i]) && AllWhitespace(s[j..])
  {
    var t := TrimStart(s);
    var r := TrimEnd(t);
    var i := |s| - |t|;
    var j := i + |r|;
    assert t[|r|..] == s[j..];
    assert r == s[i..j];
    assert Trim(s) == r;
    assert 0 <= i <= j <= |s| && Trim(s) == s[i..j] && AllWhitespace(s[..i]) && AllWhitespace(s[j..]);
  }

  // ---------------------------------------------------------------------
  // Decimal rendering of a whole Number (as in `Date.now() + '-'`)

  predicate IsDecimal(s: string)
  {
    forall i :: 0 <= i < |s| ==> '0' <= s[i] <= '9'
  }

  function DigitChar(d: nat): (c: char)
    requires d < 10
    ensures '0' <= c <= '9'
  {
    ('0' as int + d) as char
  }

  function DigitValue(c: char): (d: nat)
    requires '0' <= c <= '9'
    ensures d < 10
  {
    c as int - '0' as int
  }

  /** The decimal digits of `n`, most significant first, with no leading zero. */
  function NatToDecimal(n: nat): (s: string)
    ensures s != [] && IsDecimal(s)
    ensures |s| > 1 ==> s[0] != '0'
  {
    if n < 10 then [DigitChar(n)]
    else
      var hi := NatToDecimal(n / 10);
      assert (hi + [DigitChar(n % 10)])[0] == hi[0];
      hi + [DigitChar(n % 10)]
  }

  /** The value of a string of decimal digits. */
  function DecimalToNat(s: string): nat
    requires IsDecimal(s)
  {
    if s == [] then 0 else DecimalToNat(s[..|s| - 1]) * 10 + DigitValue(s[|s| - 1])
  }

  lemma {:induction false} DecimalRoundTrip(n: nat)
    ensures DecimalToNat(NatToDecimal(n)) == n
  {
    var s := NatToDecimal(n);
    if n >= 10 {
      DecimalRoundTrip(n / 10);
      assert s[..|s| - 1] == NatToDecimal(n / 10);
    }
  }

  // ---------------------------------------------------------------------
  // text.replace(/\n/g, '<br>')

  const LineBreakTag: string := "<br>"

  function CountNewlines(s: string): nat
  {
    if s == [] then 0 else (if s[0] == '\n' then 1 else 0) + CountNewlines(s[1..])
  }

  /** Every `\n` of `s` replaced by `<br>`: no line feed is left, a text
      without line feeds comes back unchanged, and each replacement adds
      three characters. */
  function ReplaceNewlines(s: string): (r: string)
    ensures '\n' !in r
    ensures '\n' !in s ==> r == s
    ensures |r| == |s| + 3 * CountNewlines(s)
  {
    if s == [] then []
    else
      var rest := ReplaceNewlines(s[1..]);
      assert '\n' !in s ==> '\n' !in s[1..] by {
        if '\n' in s[1..] {
          var i :| 0 <= i < |s[1..]| && s[1..][i] == '\n';
          assert s[i + 1] == '\n';
        }
      }
      assert '\n' !in s ==> s == [s[0]] + s[1..];
      (if s[0] == '\n' then LineBreakTag else [s[0]]) + rest
  }

  /** A line feed becomes `<br>`; every other character stays as it is. */
  lemma ReplaceNewlinesOfChar(c: char)
    ensures ReplaceNewlines([c]) == if c == '\n' then LineBreakTag else [c]
  {
    assert [c][1..] == [];
  }

  /** The replacement works line by line: it distributes over concatenation. */
  lemma {:induction false} ReplaceNewlinesConcat(a: string, b: string)
    ensures ReplaceNewlines(a + b) == ReplaceNewlines(a) + ReplaceNewlines(b)
    decreases |a|
  {
    var ab := a + b;
    if a == [] {
      assert ab == b;
    } else {
      assert ab[0] == a[0] && ab[1..] == a[1..] + b;
      ReplaceNewlinesConcat(a[1..], b);
    }
  }
}
