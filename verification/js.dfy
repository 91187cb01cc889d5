/** The slice of JavaScript's built-in semantics the dashboard's logic relies on:
    truthiness of JSON scalars, String.prototype.trim / split / includes / toLowerCase,
    Array.prototype.join / slice, parseFloat, and String() of an integer. */
module Js {

  datatype Option<+T> = None | Some(value: T)

  // ---------------------------------------------------------------------------
  // Characters and trimming
  // ---------------------------------------------------------------------------

  /** The characters String.prototype.trim removes: ECMAScript WhiteSpace and LineTerminator. */
  predicate IsSpace(c: char) {
    || c == '\t' || c == '\n' || c == '\U{000B}' || c == '\U{000C}' || c == '\r' || c == ' '
    || c == '\U{00A0}' || c == '\U{1680}' || ('\U{2000}' <= c <= '\U{200A}')
    || c == '\U{2028}' || c == '\U{2029}' || c == '\U{202F}' || c == '\U{205F}'
    || c == '\U{3000}' || c == '\U{FEFF}'
  }

  predicate NoSpace(s: string) {
    forall i :: 0 <= i < |s| ==> !IsSpace(s[i])
  }

  /** A string with nothing for trim to remove. */
  predicate IsTrimmed(s: string) {
    |s| == 0 || (!IsSpace(s[0]) && !IsSpace(s[|s| - 1]))
  }

  /** Number of white-space characters at the front of `s`. */
  function Lead(s: string): (k: nat)
    ensures k <= |s|
    ensures forall i :: 0 <= i < k ==> IsSpace(s[i])
    ensures k < |s| ==> !IsSpace(s[k])
  {
    if |s| > 0 && IsSpace(s[0]) then 1 + Lead(s[1..]) else 0
  }

  function TrimStart(s: string): (r: string)
    ensures r == s[Lead(s)..]
    ensures |r| > 0 ==> !IsSpace(r[0])
  {
    s[Lead(s)..]
  }

  function TrimEnd(s: string): (r: string)
    ensures |r| <= |s| && r == s[..|r|]
    ensures |r| > 0 ==> !IsSpace(r[|r| - 1])
    ensures forall i :: |r| <= i < |s| ==> IsSpace(s[i])
  {
    if |s| > 0 && IsSpace(s[|s| - 1]) then TrimEnd(s[..|s| - 1]) else s
  }

  /** String.prototype.trim: what remains after removing the white space at both ends;
      only white space is removed. */
  function Trim(s: string): (r: string)
    ensures IsTrimmed(r)
    ensures Lead(s) + |r| <= |s| && r == s[Lead(s)..Lead(s) + |r|]
    ensures forall i :: 0 <= i < Lead(s) ==> IsSpace(s[i])
    ensures forall i :: Lead(s) + |r| <= i < |s| ==> IsSpace(s[i])
  {
    var k := Lead(s);
    var a := s[k..];
    var r := TrimEnd(a);
    assert forall i :: k + |r| <= i < |s| ==> s[i] == a[i - k];
    r
  }

  lemma TrimOfTrimmed(s: string)
    requires IsTrimmed(s)
    ensures Trim(s) == s
  {
  }

  lemma {:induction false} TrimOfSpaceFree(s: string)
    requires NoSpace(s)
    ensures Trim(s) == s
  {
    if |s| > 0 {
      assert !IsSpace(s[0]) && !IsSpace(s[|s| - 1]);
    }
    TrimOfTrimmed(s);
  }

  lemma TrimIdempotent(s: string)
    ensures Trim(Trim(s)) == Trim(s)
  {
    TrimOfTrimmed(Trim(s));
  }

  /** `s.trim() !== ''`: the string holds some non-space character. */
  lemma TrimEmptyIffAllSpace(s: string)
    ensures Trim(s) == "" <==> forall i :: 0 <= i < |s| ==> IsSpace(s[i])
  {
    var r := Trim(s);
    if r != "" {
      assert s[Lead(s)] == r[0];
    }
  }

  // ---------------------------------------------------------------------------
  // Searching and splitting
  // ---------------------------------------------------------------------------

  /** String.prototype.indexOf for one character: -1 when absent. */
  function IndexOf(s: string, c: char): (r: int)
    ensures -1 <= r < |s|
    ensures r == -1 <==> c !in s
    ensures r >= 0 ==> s[r] == c && c !in s[..r]
  {
    if |s| == 0 then -1
    else if s[0] == c then 0
    else
      var k := IndexOf(s[1..], c);
      if k == -1 then -1
      else
        assert s[..k + 1] == [s[0]] + s[1..][..k];
        k + 1
  }

  /** `s.split(c)[0]`: everything before the first `c`, or all of `s`. */
  function SplitHead(s: string, c: char): (r: string)
    ensures |r| <= |s| && r == s[..|r|]
    ensures c !in r
    ensures c in s ==> |r| < |s| && s[|r|] == c
    ensures c !in s ==> r == s
  {
    if c in s then s[..IndexOf(s, c)] else s
  }

  /** The head is determined by the first position of the separator. */
  lemma SplitHeadAt(s: string, c: char, k: nat)
    requires k < |s| && s[k] == c && c !in s[..k]
    ensures SplitHead(s, c) == s[..k]
  {
    var r := SplitHead(s, c);
    assert s[..k][..|r|] == r || |r| > k;
  }

  predicate StartsWith(s: string, p: string) {
    |p| <= |s| && s[..|p|] == p
  }

  /** String.prototype.includes. */
  predicate Includes(s: string, sub: string)
    decreases |s|
  {
    StartsWith(s, sub) || (|s| > 0 && Includes(s[1..], sub))
  }

  /** `sub` occurs in `s` at position `i`. */
  predicate OccursAt(s: string, sub: string, i: int) {
    0 <= i <= |s| - |sub| && s[i..i + |sub|] == sub
  }

  lemma {:induction false} IncludesIff(s: string, sub: string)
    ensures Includes(s, sub) <==> exists i :: OccursAt(s, sub, i)
    decreases |s|
  {
    if StartsWith(s, sub) {
      assert s[0..0 + |sub|] == s[..|sub|];
      assert OccursAt(s, sub, 0);
    } else {
      if |s| > 0 {
        IncludesIff(s[1..], sub);
        if Includes(s[1..], sub) {
          var i :| OccursAt(s[1..], sub, i);
          assert s[i + 1..i + 1 + |sub|] == s[1..][i..i + |sub|];
          assert OccursAt(s, sub, i + 1);
        }
      }
      if !Includes(s, sub) {
        forall i | 0 <= i <= |s| - |sub|
          ensures !OccursAt(s, sub, i)
        {
          if i == 0 {
            assert s[..|sub|] == s[0..0 + |sub|];
          } else {
            assert s[i..i + |sub|] == s[1..][i - 1..i - 1 + |sub|];
            assert !OccursAt(s[1..], sub, i - 1);
          }
        }
      }
    }
  }

  // ---------------------------------------------------------------------------
  // Joining
  // ---------------------------------------------------------------------------

  /** Array.prototype.join. */
  function Join(parts: seq<string>, sep: string): string {
    if |parts| == 0 then ""
    else if |parts| == 1 then parts[0]
    else parts[0] + sep + Join(parts[1..], sep)
  }

  /** `.filter((x) => x)` over strings: drops the empty ones, keeps order. */
  function NonEmpty(parts: seq<string>): (r: seq<string>)
    ensures |r| <= |parts|
    ensures forall p :: p in r <==> p in parts && p != ""
  {
    if |parts| == 0 then []
    else if parts[0] == "" then NonEmpty(parts[1..])
    else [parts[0]] + NonEmpty(parts[1..])
  }

  /** The filter keeps order: it distributes over concatenation. */
  lemma {:induction false} NonEmptyAppend(a: seq<string>, b: seq<string>)
    ensures NonEmpty(a + b) == NonEmpty(a) + NonEmpty(b)
  {
    if |a| == 0 {
      assert a + b == b;
    } else {
      assert (a + b)[0] == a[0] && (a + b)[1..] == a[1..] + b;
      NonEmptyAppend(a[1..], b);
    }
  }

  lemma {:induction false} JoinEmptyIff(parts: seq<string>, sep: string)
    requires forall p :: p in parts ==> p != ""
    ensures Join(parts, sep) == "" <==> |parts| == 0
  {
    if |parts| > 1 {
      assert parts[0] in parts;
      assert |Join(parts, sep)| >= |parts[0]|;
    } else if |parts| == 1 {
      assert parts[0] in parts;
    }
  }

  /** Joining the non-empty strings gives "" exactly when every string was empty. */
  lemma JoinNonEmptyIsEmptyIff(parts: seq<string>, sep: string)
    ensures Join(NonEmpty(parts), sep) == "" <==> forall p :: p in parts ==> p == ""
  {
    JoinEmptyIff(NonEmpty(parts), sep);
    if |NonEmpty(parts)| > 0 {
      assert NonEmpty(parts)[0] in NonEmpty(parts);
    }
  }

  // ---------------------------------------------------------------------------
  // Case folding
  // ---------------------------------------------------------------------------

  function LowerChar(c: char): char {
    if 'A' <= c <= 'Z' then ((c as int) + 32) as char else c
  }

  /** String.prototype.toLowerCase, restricted to the ASCII letters. */
  function ToLower(s: string): (r: string)
    ensures |r| == |s|
    ensures forall i :: 0 <= i < |s| ==> r[i] == LowerChar(s[i])
    ensures forall i :: 0 <= i < |r| ==> !('A' <= r[i] <= 'Z')
  {
    if |s| == 0 then "" else [LowerChar(s[0])] + ToLower(s[1..])
  }

  lemma ToLowerIdempotent(s: string)
    ensures ToLower(ToLower(s)) == ToLower(s)
  {
  }

  /** Lower-casing changes no white space, so it commutes with trim. */
  lemma TrimToLower(s: string)
    ensures Trim(ToLower(s)) == ToLower(Trim(s))
  {
    var k := Lead(s);
    LeadToLower(s);
    assert ToLower(s)[k..] == ToLower(s[k..]);
    TrimEndToLower(s[k..]);
  }

  lemma {:induction false} LeadToLower(s: string)
    ensures Lead(ToLower(s)) == Lead(s)
  {
    if |s| > 0 {
      assert ToLower(s)[1..] == ToLower(s[1..]);
      LowerKeepsSpace(s[0]);
      LeadToLower(s[1..]);
    }
  }

  lemma {:induction false} TrimEndToLower(s: string)
    ensures TrimEnd(ToLower(s)) == ToLower(TrimEnd(s))
  {
    if |s| > 0 {
      var f := s[..|s| - 1];
      var c := s[|s| - 1];
      var t := ToLower(s);
      assert t[..|t| - 1] == ToLower(f);
      assert t[|t| - 1] == LowerChar(c);
      LowerKeepsSpace(c);
      if IsSpace(c) {
        assert TrimEnd(t) == TrimEnd(ToLower(f));
        assert TrimEnd(s) == TrimEnd(f);
        TrimEndToLower(f);
      } else {
        assert TrimEnd(t) == t;
        assert TrimEnd(s) == s;
      }
    }
  }

  lemma LowerKeepsSpace(c: char)
    ensures IsSpace(LowerChar(c)) <==> IsSpace(c)
  {
    if 'A' <= c <= 'Z' {
      assert 'a' <= LowerChar(c) <= 'z';
    }
  }

  // ---------------------------------------------------------------------------
  // Array.prototype.slice
  // ---------------------------------------------------------------------------

  /** How slice turns an argument into a position: negative counts from the end, then clamp. */
  function RelIndex(k: int, len: nat): (r: nat)
    ensures r <= len
    ensures 0 <= k <= len ==> r == k
    ensures k > len ==> r == len
  {
    if k < 0 then (if len + k < 0 then 0 else len + k)
    else if k > len then len
    else k
  }

  function Slice<T>(s: seq<T>, start: int, end: int): (r: seq<T>)
    ensures |r| <= |s|
    ensures 0 <= start <= end <= |s| ==> r == s[start..end]
    ensures 0 <= end <= start ==> r == []
    ensures 0 <= start <= |s| <= end ==> r == s[start..]
    ensures |s| <= start ==> r == []
  {
    var a := RelIndex(start, |s|);
    var b := RelIndex(end, |s|);
    if a < b then s[a..b] else []
  }

  // ---------------------------------------------------------------------------
  // Numbers
  // ---------------------------------------------------------------------------

  predicate IsDigit(c: char) {
    '0' <= c <= '9'
  }

  predicate AllDigits(s: string) {
    forall i :: 0 <= i < |s| ==> IsDigit(s[i])
  }

  predicate IsNumericChar(c: char) {
    IsDigit(c) || c == '.' || c == '-'
  }

  /** `s.replace(/[^0-9.-]/g, '')`: keeps exactly the digits, dots and minus signs, in order. */
  function Clean(s: string): (r: string)
    ensures |r| <= |s|
    ensures forall i :: 0 <= i < |r| ==> IsNumericChar(r[i])
    ensures (forall i :: 0 <= i < |s| ==> IsNumericChar(s[i])) ==> r == s
    ensures (forall i :: 0 <= i < |s| ==> !IsNumericChar(s[i])) ==> r == ""
    ensures (forall i :: 0 <= i < |s| ==> !IsDigit(s[i])) ==> (forall i :: 0 <= i < |r| ==> !IsDigit(r[i]))
  {
    if |s| == 0 then ""
    else if IsNumericChar(s[0]) then [s[0]] + Clean(s[1..])
    else Clean(s[1..])
  }

  lemma {:induction false} CleanAppend(a: string, b: string)
    ensures Clean(a + b) == Clean(a) + Clean(b)
  {
    if |a| > 0 {
      assert (a + b)[1..] == a[1..] + b;
      CleanAppend(a[1..], b);
    } else {
      assert a + b == b;
    }
  }

  lemma CleanIdempotent(s: string)
    ensures Clean(Clean(s)) == Clean(s)
  {
  }

  function DigitValue(c: char): nat
    requires IsDigit(c)
  {
    (c as int) - ('0' as int)
  }

  function DigitChar(d: nat): (c: char)
    requires d < 10
    ensures IsDigit(c) && DigitValue(c) == d
  {
    (('0' as int) + d) as char
  }

  /** The number a run of decimal digits denotes. */
  function DigitsValue(ds: string): nat
    requires AllDigits(ds)
  {
    if |ds| == 0 then 0 else DigitsValue(ds[..|ds| - 1]) * 10 + DigitValue(ds[|ds| - 1])
  }

  function Pow10(n: nat): (r: nat)
    ensures r >= 1
  {
    if n == 0 then 1 else 10 * Pow10(n - 1)
  }

  /** Length of the run of digits at the front of `s`. */
  function LeadingDigits(s: string): (n: nat)
    ensures n <= |s|
    ensures AllDigits(s[..n])
    ensures n < |s| ==> !IsDigit(s[n])
  {
    if |s| == 0 || !IsDigit(s[0]) then 0
    else
      var k := LeadingDigits(s[1..]);
      assert s[..k + 1] == [s[0]] + s[1..][..k];
      k + 1
  }

  /** parseFloat of an unsigned decimal: digits, then optionally '.' and digits; NaN is None. */
  function ParseUnsigned(s: string): Option<real> {
    var n := LeadingDigits(s);
    var whole := s[..n];
    var frac := FracDigits(s[n..]);
    if |whole| == 0 && |frac| == 0 then None
    else Some(DigitsValue(whole) as real + Fraction(frac))
  }

  /** The digits after a leading '.', or "" when the text does not start with '.'. */
  function FracDigits(rest: string): (f: string)
    ensures AllDigits(f)
    ensures |rest| == 0 ==> f == ""
  {
    if |rest| > 0 && rest[0] == '.' then rest[1..][..LeadingDigits(rest[1..])] else ""
  }

  /** The value of the digits after the point. */
  function Fraction(frac: string): real
    requires AllDigits(frac)
  {
    if |frac| == 0 then 0.0 else (DigitsValue(frac) as real) / (Pow10(|frac|) as real)
  }

  /** parseFloat: skips leading white space, reads an optional sign and the longest decimal prefix.
      Exponents and "Infinity" are not modelled. */
  function ParseFloat(s: string): Option<real> {
    var t := TrimStart(s);
    if |t| > 0 && t[0] == '-' then
      match ParseUnsigned(t[1..])
      case Some(v) => Some(-v)
      case None => None
    else if |t| > 0 && t[0] == '+' then ParseUnsigned(t[1..])
    else ParseUnsigned(t)
  }

  lemma {:induction false} LeadingDigitsOfDigits(s: string)
    requires AllDigits(s)
    ensures LeadingDigits(s) == |s|
  {
    if |s| > 0 {
      LeadingDigitsOfDigits(s[1..]);
    }
  }

  /** A string of digits parses back to the number it spells. */
  lemma ParseDigits(ds: string)
    requires |ds| > 0 && AllDigits(ds)
    ensures ParseFloat(ds) == Some(DigitsValue(ds) as real)
  {
    assert IsDigit(ds[0]) && !IsSpace(ds[0]) && ds[0] != '-' && ds[0] != '+';
    assert Lead(ds) == 0;
    assert TrimStart(ds) == ds;
    ParseUnsignedDigits(ds);
  }

  lemma ParseUnsignedDigits(ds: string)
    requires |ds| > 0 && AllDigits(ds)
    ensures ParseUnsigned(ds) == Some(DigitsValue(ds) as real)
  {
    LeadingDigitsOfDigits(ds);
    var n := LeadingDigits(ds);
    assert ds[..n] == ds;
    assert FracDigits(ds[n..]) == "";
  }

  lemma ParseUnsignedNoDigit(t: string)
    requires forall i :: 0 <= i < |t| ==> !IsDigit(t[i])
    ensures ParseUnsigned(t) == None
  {
    assert LeadingDigits(t) == 0;
    var rest := t[0..];
    if |rest| > 0 && rest[0] == '.' {
      assert LeadingDigits(rest[1..]) == 0;
    }
  }

  /** A string without a digit is NaN to parseFloat. */
  lemma ParseNoDigit(s: string)
    requires forall i :: 0 <= i < |s| ==> !IsDigit(s[i])
    ensures ParseFloat(s) == None
  {
    var t := TrimStart(s);
    assert forall i :: 0 <= i < |t| ==> t[i] == s[Lead(s) + i];
    if |t| > 0 {
      ParseUnsignedNoDigit(t[1..]);
    }
    ParseUnsignedNoDigit(t);
  }

  /** `x || 0` on parseFloat's result: NaN and 0 both become 0. */
  function OrZero(v: Option<real>): (r: real)
    ensures v.None? ==> r == 0.0
  {
    if v.Some? then v.value else 0.0
  }

  /** String(n) for a natural number. */
  function NatToString(n: nat): (r: string)
    ensures |r| > 0 && AllDigits(r)
    ensures DigitsValue(r) == n
  {
    if n < 10 then
      var r := [DigitChar(n)];
      assert r[..0] == "";
      r
    else
      var p := NatToString(n / 10);
      var r := p + [DigitChar(n % 10)];
      assert r[..|r| - 1] == p;
      r
  }

  /** String(i) for an integer. */
  function IntToString(i: int): (r: string)
    ensures |r| > 0
    ensures i >= 0 ==> AllDigits(r) && DigitsValue(r) == i
    ensures i < 0 ==> r[0] == '-'
  {
    if i < 0 then "-" + NatToString(-i) else NatToString(i)
  }

  /** `String(a) === String(b)` compares integers exactly. */
  lemma IntToStringInjective(a: int, b: int)
    requires IntToString(a) == IntToString(b)
    ensures a == b
  {
    if a < 0 && b < 0 {
      assert NatToString(-a) == IntToString(a)[1..];
    }
  }

  // ---------------------------------------------------------------------------
  // JSON scalars
  // ---------------------------------------------------------------------------

  /** A JSON scalar field holding a number: absent (null/undefined), a number, or a string. */
  datatype Value = Absent | Num(n: real) | Str(s: string)

  predicate Truthy(v: Value) {
    match v
    case Absent => false
    case Num(n) => n != 0.0
    case Str(s) => s != ""
  }

  /** `a || b`. */
  function Or(a: Value, b: Value): Value {
    if Truthy(a) then a else b
  }

  /** parseFloat(v). */
  function ParseValue(v: Value): Option<real> {
    match v
    case Absent => None
    case Num(n) => Some(n)
    case Str(s) => ParseFloat(s)
  }

  /** A JavaScript string that holds an amount: text typed or received as a string, or the
      decimal rendering `String(r)` / `r.toFixed(2)` of a number r. */
  datatype NumText = Text(s: string) | Rendered(r: real)

  predicate TextTruthy(t: NumText) {
    t.Rendered? || t.s != ""
  }

  /** `t || u` for strings. */
  function TextOr(t: NumText, u: NumText): NumText {
    if TextTruthy(t) then t else u
  }

  /** String(v). */
  function ToText(v: Value): NumText {
    match v
    case Absent => Text("undefined")
    case Num(n) => Rendered(n)
    case Str(s) => Text(s)
  }

  /** `parseFloat(t.replace(/[^0-9.-]/g, '')) || 0`. A rendered number is read back as itself. */
  function CleanedValue(t: NumText): (r: real)
    ensures t == Text("") ==> r == 0.0
    ensures t.Rendered? ==> r == t.r
  {
    match t
    case Rendered(r) => r
    case Text(s) => OrZero(ParseFloat(Clean(s)))
  }

  /** Spacing, currency signs and thousands separators do not change a cleaned amount. */
  lemma CleanedIgnoresFormatting(s: string, junk: string)
    requires forall i :: 0 <= i < |junk| ==> !IsNumericChar(junk[i])
    ensures CleanedValue(Text(junk + s)) == CleanedValue(Text(s))
  {
    CleanAppend(junk, s);
    assert Clean(junk) + Clean(s) == Clean(s);
  }
}
