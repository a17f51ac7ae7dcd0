/** The two pieces of JavaScript string behaviour the handlers rely on:
    `String.prototype.trim` (used only for its emptiness) and the decimal
    rendering of a count inside a template literal. */
module JsText {

  /** WhiteSpace and LineTerminator code points as ECMAScript defines them:
      tab, vertical tab, form feed, space, no-break space, byte order mark,
      the space separators of Unicode category Zs, and LF, CR, LS, PS. */
  predicate IsWhite(c: char) {
    c == '\t' || c == '\U{B}' || c == '\U{C}' || c == ' ' || c == '\U{A0}' || c == '\U{FEFF}'
    || c == '\U{1680}' || ('\U{2000}' <= c <= '\U{200A}') || c == '\U{202F}' || c == '\U{205F}'
    || c == '\U{3000}'
    || c == '\n' || c == '\r' || c == '\U{2028}' || c == '\U{2029}'
  }

  /** Every character of `s` is white space. */
  predicate Blank(s: string) {
    forall i :: 0 <= i < |s| ==> IsWhite(s[i])
  }

  /** `s` without its leading white space. */
  function TrimStart(s: string): string {
    if s != [] && IsWhite(s[0]) then TrimStart(s[1..]) else s
  }

  /** `s` without its trailing white space. */
  function TrimEnd(s: string): string {
    if s != [] && IsWhite(s[|s| - 1]) then TrimEnd(s[..|s| - 1]) else s
  }

  /** `String.prototype.trim`. */
  function Trim(s: string): string {
    TrimEnd(TrimStart(s))
  }

  /** What `TrimStart` leaves is a suffix of `s`, whatever it cut off is
      blank, and what is left does not start with white space. */
  lemma {:induction false} TrimStartShape(s: string)
    ensures |TrimStart(s)| <= |s| && TrimStart(s) == s[|s| - |TrimStart(s)|..]
    ensures Blank(s[..|s| - |TrimStart(s)|])
    ensures TrimStart(s) == [] || !IsWhite(TrimStart(s)[0])
  {
    if s != [] && IsWhite(s[0]) {
      var t := s[1..];
      var r := TrimStart(t);
      TrimStartShape(t);
      var m := |t| - |r|;
      assert t[m..] == s[m + 1..];
      var cut := s[..m + 1];
      assert Blank(t[..m]);
      forall i | 0 <= i < |cut| ensures IsWhite(cut[i]) {
        if i > 0 {
          assert cut[i] == t[..m][i - 1];
        }
      }
    }
  }

  /** What `TrimEnd` leaves is a prefix of `s`, whatever it cut off is
      blank, and what is left does not end with white space. */
  lemma {:induction false} TrimEndShape(s: string)
    ensures |TrimEnd(s)| <= |s| && TrimEnd(s) == s[..|TrimEnd(s)|]
    ensures Blank(s[|TrimEnd(s)|..])
    ensures TrimEnd(s) == [] || !IsWhite(TrimEnd(s)[|TrimEnd(s)| - 1])
  {
    if s != [] && IsWhite(s[|s| - 1]) {
      var p := s[..|s| - 1];
      var r := TrimEnd(p);
      TrimEndShape(p);
      assert p[..|r|] == s[..|r|];
      var cut := s[|r|..];
      forall i | 0 <= i < |cut| ensures IsWhite(cut[i]) {
        if i < |cut| - 1 {
          assert cut[i] == p[|r|..][i];
        }
      }
    }
  }

  /** A blank string trims from the front to nothing. */
  lemma {:induction false} TrimStartBlank(s: string)
    requires Blank(s)
    ensures TrimStart(s) == []
  {
    if s != [] {
      assert Blank(s[1..]) by {
        forall i | 0 <= i < |s| - 1 ensures IsWhite(s[1..][i]) { assert s[1..][i] == s[i + 1]; }
      }
      TrimStartBlank(s[1..]);
    }
  }

  /** A handler's `if (s.trim())` fails exactly on blank strings. */
  lemma TrimEmptyIffBlank(s: string)
    ensures Trim(s) == [] <==> Blank(s)
  {
    var t := TrimStart(s);
    TrimStartShape(s);
    TrimEndShape(t);
    var k := |s| - |t|;
    if Trim(s) == [] {
      assert t[|TrimEnd(t)|..] == t;
      assert s == s[..k] + t;
      assert Blank(t);
      assert Blank(s[..k] + t);
    }
    if Blank(s) {
      TrimStartBlank(s);
    }
  }

  /** A space-only string is blank, a string with a letter is not. */
  lemma BlankExamples()
    ensures Blank("   ") && Blank("")
    ensures !Blank(" a ")
  {
    assert !IsWhite(" a "[1]);
  }

  predicate IsDigit(c: char) {
    '0' <= c <= '9'
  }

  function DigitChar(d: nat): (c: char)
    requires d < 10
    ensures IsDigit(c) && c as int - '0' as int == d
  {
    ('0' as int + d) as char
  }

  /** The decimal rendering of a natural number in a template literal:
      digits only, and no leading zero except for zero itself. */
  function NatToString(n: nat): (r: string)
    ensures 1 <= |r|
    ensures forall i :: 0 <= i < |r| ==> IsDigit(r[i])
    ensures r[0] == '0' ==> n == 0
  {
    if n < 10 then [DigitChar(n)] else NatToString(n / 10) + [DigitChar(n % 10)]
  }

  /** The number a string of decimal digits denotes. */
  function DecimalValue(s: string): nat
    requires forall i :: 0 <= i < |s| ==> IsDigit(s[i])
  {
    if s == [] then 0
    else
      assert IsDigit(s[|s| - 1]);
      10 * DecimalValue(s[..|s| - 1]) + (s[|s| - 1] as int - '0' as int)
  }

  /** Reading the rendered digits back gives the number that was rendered. */
  lemma {:induction false} DecimalRoundTrip(n: nat)
    ensures DecimalValue(NatToString(n)) == n
  {
    var r := NatToString(n);
    if n >= 10 {
      DecimalRoundTrip(n / 10);
      assert r[..|r| - 1] == NatToString(n / 10);
    }
  }
}
