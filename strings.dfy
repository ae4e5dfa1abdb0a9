/** The per-value string operations the data tools apply to whole columns:
    Python's `str.zfill`, the `="v"` wrapping that keeps leading zeros in a
    spreadsheet, `str.lower` and the decimal text of an integer (`str(n)`). */
module Strings {

  import opened Wrappers

  function Max(a: int, b: int): int {
    if a >= b then a else b
  }

  /** A leading '+' or '-', which `str.zfill` keeps in front of the padding. */
  predicate HasSign(s: string) {
    |s| > 0 && (s[0] == '+' || s[0] == '-')
  }

  function Zeros(n: nat): (r: string)
    ensures |r| == n && forall i :: 0 <= i < n ==> r[i] == '0'
  {
    seq(n, _ => '0')
  }

  /** `s.zfill(width)`: pads `s` on the left with '0' up to `width`
      characters; a leading sign stays first, with the zeros after it; a value
      already `width` long or longer is returned as it is. */
  function ZFill(s: string, width: int): (r: string)
    ensures |r| == Max(|s|, width)
    ensures |s| >= width ==> r == s
    ensures HasSign(s) ==> r[0] == s[0] && r[|r| - |s| + 1..] == s[1..]
    ensures !HasSign(s) ==> r[|r| - |s|..] == s
    ensures forall i :: (if HasSign(s) then 1 else 0) <= i < |r| - |s| + (if HasSign(s) then 1 else 0) ==> r[i] == '0'
  {
    if |s| >= width then s
    else if HasSign(s) then [s[0]] + Zeros(width - |s|) + s[1..]
    else Zeros(width - |s|) + s
  }

  /** Padding to one width and then to another is padding once to the larger
      of the two; in particular `zfill` is idempotent. */
  lemma ZFillCompose(s: string, w1: int, w2: int)
    ensures ZFill(ZFill(s, w1), w2) == ZFill(s, Max(w1, w2))
  {
    var t := ZFill(s, w1);
    if |s| < w1 < w2 {
      var n := |s|;
      if HasSign(s) {
        assert t == [s[0]] + Zeros(w1 - n) + s[1..];
        assert HasSign(t) && t[0] == s[0];
        assert t[1..] == Zeros(w1 - n) + s[1..];
        calc {
          ZFill(t, w2);
          [s[0]] + Zeros(w2 - w1) + t[1..];
          [s[0]] + (Zeros(w2 - w1) + Zeros(w1 - n)) + s[1..];
          { assert Zeros(w2 - w1) + Zeros(w1 - n) == Zeros(w2 - n); }
          ZFill(s, w2);
        }
      } else {
        assert t == Zeros(w1 - n) + s;
        assert t[0] == '0' && !HasSign(t);
        calc {
          ZFill(t, w2);
          Zeros(w2 - w1) + t;
          (Zeros(w2 - w1) + Zeros(w1 - n)) + s;
          { assert Zeros(w2 - w1) + Zeros(w1 - n) == Zeros(w2 - n); }
          ZFill(s, w2);
        }
      }
    }
  }

  /** The text `="v"`: a spreadsheet formula whose value is the text `v`. */
  function TextFormula(v: string): (r: string)
    ensures |r| == |v| + 3
    ensures r[..2] == "=\"" && r[|r| - 1] == '"' && r[2..|r| - 1] == v
  {
    "=\"" + v + "\""
  }

  /** Reads back the text inside `="..."`, if `r` has that shape. */
  function FormulaText(r: string): (v: Option<string>)
    ensures v.Some? ==> |v.value| + 3 == |r|
  {
    if |r| >= 3 && r[..2] == "=\"" && r[|r| - 1] == '"' then Some(r[2..|r| - 1]) else None
  }

  /** The wrapping loses nothing: reading back gives the value that was
      wrapped, and whatever reads back as `v` is the wrapping of `v`. */
  lemma TextFormulaRoundTrip(v: string, r: string)
    ensures FormulaText(TextFormula(v)) == Some(v)
    ensures FormulaText(r) == Some(v) ==> TextFormula(v) == r
  {
    var w := TextFormula(v);
    assert w[..2] == "=\"" && w[2..|w| - 1] == v;
    if FormulaText(r) == Some(v) {
      assert r == r[..2] + r[2..|r| - 1] + [r[|r| - 1]];
    }
  }

  predicate IsUpper(c: char) {
    'A' <= c <= 'Z'
  }

  function LowerChar(c: char): (d: char)
    ensures !IsUpper(d)
    ensures IsUpper(c) ==> d as int == c as int + 32
    ensures !IsUpper(c) ==> d == c
  {
    if IsUpper(c) then (c as int + 32) as char else c
  }

  /** `s.lower()` over the ASCII letters. */
  function Lower(s: string): (r: string)
    ensures |r| == |s|
    ensures forall i :: 0 <= i < |s| ==> !IsUpper(r[i]) && (r[i] == s[i] || IsUpper(s[i]))
    ensures forall i :: 0 <= i < |s| && IsUpper(s[i]) ==> r[i] as int == s[i] as int + 32
  {
    seq(|s|, i requires 0 <= i < |s| => LowerChar(s[i]))
  }

  lemma LowerIdempotent(s: string)
    ensures Lower(Lower(s)) == Lower(s)
  {
  }

  predicate IsDigit(c: char) {
    '0' <= c <= '9'
  }

  function DigitChar(k: nat): (c: char)
    requires k < 10
    ensures IsDigit(c) && c as int - '0' as int == k
  {
    ('0' as int + k) as char
  }

  /** `str(n)` for n >= 0: decimal digits, no leading zero. */
  function NatText(n: nat): (r: string)
    ensures |r| >= 1 && forall i :: 0 <= i < |r| ==> IsDigit(r[i])
    ensures r[0] == '0' <==> n == 0
    decreases n
  {
    if n < 10 then [DigitChar(n)] else NatText(n / 10) + [DigitChar(n % 10)]
  }

  /** The number a string of decimal digits denotes. */
  function DigitsValue(s: string): nat
    requires forall i :: 0 <= i < |s| ==> IsDigit(s[i])
  {
    if s == [] then 0
    else
      var last := s[|s| - 1];
      assert IsDigit(last);
      DigitsValue(s[..|s| - 1]) * 10 + (last as int - '0' as int)
  }

  /** `str(n)` denotes `n`. */
  lemma {:induction false} NatTextValue(n: nat)
    ensures DigitsValue(NatText(n)) == n
    decreases n
  {
    if n >= 10 {
      NatTextValue(n / 10);
      var r := NatText(n);
      assert r[..|r| - 1] == NatText(n / 10);
    }
  }

  /** `str(n)` for any integer: a '-' in front of the digits exactly when n is
      negative. */
  function IntText(n: int): (r: string)
    ensures HasSign(r) <==> n < 0
    ensures n < 0 ==> r[0] == '-' && r[1..] == NatText(-n)
    ensures n >= 0 ==> r == NatText(n)
  {
    if n < 0 then "-" + NatText(-n) else NatText(n)
  }

  /** Zero-filling the text of a negative number keeps the minus sign first:
      `str(-5).zfill(3)` is "-05". */
  lemma ZFillNegative(n: int, width: int)
    requires n < 0 && width > |IntText(n)|
    ensures ZFill(IntText(n), width) == "-" + Zeros(width - |IntText(n)|) + NatText(-n)
  {
  }
}
