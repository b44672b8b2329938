/**
 * Character and string helpers the pages rely on: ASCII case mapping, the substring test behind
 * `String#includes`, `String#trim`, decimal rendering of whole numbers (`String(n)`), `padStart`,
 * the negative-index `slice`, and the date part of an ISO timestamp.
 */
module Text {

  // ---------------------------------------------------------------------------------------------
  // Characters

  /** The characters `\s` and `String#trim` treat as white space (the ECMAScript WhiteSpace and
      LineTerminator sets). */
  predicate IsWhitespace(c: char) {
    var n := c as int;
    n == 0x09 || n == 0x0A || n == 0x0B || n == 0x0C || n == 0x0D || n == 0x20 || n == 0xA0 ||
    n == 0x1680 || (0x2000 <= n <= 0x200A) || n == 0x2028 || n == 0x2029 || n == 0x202F ||
    n == 0x205F || n == 0x3000 || n == 0xFEFF
  }

  predicate IsUpperLetter(c: char) { 'A' <= c <= 'Z' }
  predicate IsLowerLetter(c: char) { 'a' <= c <= 'z' }
  predicate IsDigit(c: char) { '0' <= c <= '9' }

  /** ASCII lower-casing of one character. */
  function LowerChar(c: char): (r: char)
    ensures !IsUpperLetter(r)
    ensures IsUpperLetter(c) ==> IsLowerLetter(r)
    ensures !IsUpperLetter(c) ==> r == c
  {
    if IsUpperLetter(c) then (c as int + 32) as char else c
  }

  /** ASCII upper-casing of one character. */
  function UpperChar(c: char): (r: char)
    ensures !IsLowerLetter(r)
    ensures IsLowerLetter(c) ==> IsUpperLetter(r)
    ensures !IsLowerLetter(c) ==> r == c
  {
    if IsLowerLetter(c) then (c as int - 32) as char else c
  }

  /** `toLowerCase`, restricted to ASCII letters. */
  function ToLower(s: string): (r: string)
    ensures |r| == |s|
    ensures forall i :: 0 <= i < |s| ==> r[i] == LowerChar(s[i])
  {
    seq(|s|, i requires 0 <= i < |s| => LowerChar(s[i]))
  }

  /** `toUpperCase`, restricted to ASCII letters. */
  function ToUpper(s: string): (r: string)
    ensures |r| == |s|
    ensures forall i :: 0 <= i < |s| ==> r[i] == UpperChar(s[i])
  {
    seq(|s|, i requires 0 <= i < |s| => UpperChar(s[i]))
  }

  lemma ToLowerIdempotent(s: string)
    ensures ToLower(ToLower(s)) == ToLower(s)
  {
  }

  // ---------------------------------------------------------------------------------------------
  // Substrings

  predicate IsPrefix(p: string, s: string) {
    |p| <= |s| && s[..|p|] == p
  }

  /** `hay.includes(needle)`: `needle` occurs somewhere in `hay`. */
  predicate Contains(hay: string, needle: string)
    decreases |hay|
  {
    IsPrefix(needle, hay) || (|hay| > 0 && Contains(hay[1..], needle))
  }

  /** `needle` occurs in `hay` starting at position `i`. */
  predicate OccursAt(hay: string, needle: string, i: nat) {
    i + |needle| <= |hay| && hay[i..i + |needle|] == needle
  }

  /** The position-based reading of `Contains`, in both directions. */
  lemma {:induction false} ContainsIff(hay: string, needle: string)
    ensures Contains(hay, needle) <==> exists i: nat :: OccursAt(hay, needle, i)
    decreases |hay|
  {
    if IsPrefix(needle, hay) {
      assert OccursAt(hay, needle, 0);
    } else if |hay| == 0 {
      forall i: nat ensures !OccursAt(hay, needle, i) {
      }
    } else {
      ContainsIff(hay[1..], needle);
      if Contains(hay[1..], needle) {
        var j: nat :| OccursAt(hay[1..], needle, j);
        assert hay[j + 1..j + 1 + |needle|] == hay[1..][j..j + |needle|];
        assert OccursAt(hay, needle, j + 1);
      } else {
        forall i: nat ensures !OccursAt(hay, needle, i) {
          if OccursAt(hay, needle, i) && i > 0 {
            assert hay[1..][i - 1..i - 1 + |needle|] == hay[i..i + |needle|];
            assert OccursAt(hay[1..], needle, i - 1);
          }
        }
      }
    }
  }

  /** The empty search term is contained in every string, so an empty search box filters nothing. */
  lemma ContainsEmpty(hay: string)
    ensures Contains(hay, "")
  {
    assert IsPrefix("", hay);
  }

  /** `field.toLowerCase().includes(term.toLowerCase())`: the case-insensitive search of the list pages. */
  predicate MatchesIgnoringCase(field: string, term: string) {
    Contains(ToLower(field), ToLower(term))
  }

  lemma MatchesEmptyTerm(field: string)
    ensures MatchesIgnoringCase(field, "")
  {
    ContainsEmpty(ToLower(field));
  }

  /** Position `i` of `field` spells `term` when case is ignored. */
  predicate AgreesIgnoringCaseAt(field: string, term: string, i: nat) {
    i + |term| <= |field| && forall k :: 0 <= k < |term| ==> LowerChar(field[i + k]) == LowerChar(term[k])
  }

  /** A case-insensitive match places the term, letter case aside, somewhere inside the field. */
  lemma MatchesIgnoringCaseAt(field: string, term: string)
    requires MatchesIgnoringCase(field, term)
    ensures exists i: nat :: AgreesIgnoringCaseAt(field, term, i)
  {
    var lf, lt := ToLower(field), ToLower(term);
    ContainsIff(lf, lt);
    var i: nat :| OccursAt(lf, lt, i);
    forall k | 0 <= k < |term|
      ensures LowerChar(field[i + k]) == LowerChar(term[k])
    {
      assert lf[i..i + |lt|][k] == lf[i + k];
    }
    assert AgreesIgnoringCaseAt(field, term, i);
  }

  // ---------------------------------------------------------------------------------------------
  // Trimming

  /** No white space at either end. */
  predicate IsTrimmed(s: string) {
    |s| == 0 || (!IsWhitespace(s[0]) && !IsWhitespace(s[|s| - 1]))
  }

  function TrimStart(s: string): (r: string)
    ensures |r| <= |s| && r == s[|s| - |r|..]
    ensures |r| == 0 || !IsWhitespace(r[0])
    ensures forall i :: 0 <= i < |s| - |r| ==> IsWhitespace(s[i])
  {
    if |s| > 0 && IsWhitespace(s[0]) then TrimStart(s[1..]) else s
  }

  function TrimEnd(s: string): (r: string)
    ensures |r| <= |s| && r == s[..|r|]
    ensures |r| == 0 || !IsWhitespace(r[|r| - 1])
    ensures forall i :: |r| <= i < |s| ==> IsWhitespace(s[i])
  {
    if |s| > 0 && IsWhitespace(s[|s| - 1]) then TrimEnd(s[..|s| - 1]) else s
  }

  /** `r` is the slice of `s` from `i` on, with only white space before it and after it. */
  predicate CutFrom(s: string, r: string, i: int) {
    && 0 <= i <= |s| - |r| && r == s[i..i + |r|]
    && (forall k :: 0 <= k < i ==> IsWhitespace(s[k]))
    && (forall k :: i + |r| <= k < |s| ==> IsWhitespace(s[k]))
  }

  /** `String#trim`: the string with its leading and trailing white space removed. */
  function Trim(s: string): (r: string)
    ensures IsTrimmed(r)
    ensures |r| <= |s|
    ensures r == "" <==> forall i :: 0 <= i < |s| ==> IsWhitespace(s[i])
    ensures exists i :: CutFrom(s, r, i)
  {
    TrimFacts(s);
    TrimIsCut(s);
    TrimEnd(TrimStart(s))
  }

  lemma TrimFacts(s: string)
    ensures var a := TrimStart(s); var b := TrimEnd(a);
            b == "" <==> forall i :: 0 <= i < |s| ==> IsWhitespace(s[i])
  {
    var a := TrimStart(s);
    var b := TrimEnd(a);
    if b != "" {
      assert !IsWhitespace(a[0]);
    }
  }

  lemma TrimIsCut(s: string)
    ensures CutFrom(s, TrimEnd(TrimStart(s)), |s| - |TrimStart(s)|)
  {
    var a := TrimStart(s);
    var b := TrimEnd(a);
    assert |a| <= |s| && a == s[|s| - |a|..];
    assert |b| <= |a| && b == a[..|b|];
    TrimCut(s, a, b);
  }

  lemma TrimCut(s: string, a: string, b: string)
    requires |a| <= |s| && a == s[|s| - |a|..] && forall k :: 0 <= k < |s| - |a| ==> IsWhitespace(s[k])
    requires |b| <= |a| && b == a[..|b|] && forall k :: |b| <= k < |a| ==> IsWhitespace(a[k])
    ensures CutFrom(s, b, |s| - |a|)
  {
    var i := |s| - |a|;
    assert b == s[i..i + |b|];
    forall k | i + |b| <= k < |s| ensures IsWhitespace(s[k]) {
      assert s[k] == a[k - i];
    }
  }

  /** Trimming an already trimmed string changes nothing. */
  lemma TrimOfTrimmed(s: string)
    requires IsTrimmed(s)
    ensures Trim(s) == s
  {
  }

  // ---------------------------------------------------------------------------------------------
  // Decimal numerals

  function DigitChar(d: nat): (c: char)
    requires d < 10
    ensures IsDigit(c)
  {
    ('0' as int + d) as char
  }

  function DigitValue(c: char): (d: nat)
    requires IsDigit(c)
    ensures d < 10
  {
    c as int - '0' as int
  }

  predicate AllDigits(s: string) {
    forall i :: 0 <= i < |s| ==> IsDigit(s[i])
  }

  /** `String(n)` for a whole number: its decimal numeral without leading zeros. */
  function NatToDecimal(n: nat): (r: string)
    ensures |r| > 0 && AllDigits(r)
    ensures |r| > 1 ==> r[0] != '0'
  {
    if n < 10 then [DigitChar(n)] else NatToDecimal(n / 10) + [DigitChar(n % 10)]
  }

  /** The number a digit string denotes (leading zeros allowed). */
  function DecimalValue(s: string): nat
    requires AllDigits(s)
  {
    if |s| == 0 then 0 else DecimalValue(s[..|s| - 1]) * 10 + DigitValue(s[|s| - 1])
  }

  /** Reading back a rendered number gives the number. */
  lemma {:induction false} DecimalRoundTrip(n: nat)
    ensures DecimalValue(NatToDecimal(n)) == n
  {
    if n >= 10 {
      var s := NatToDecimal(n);
      assert s[..|s| - 1] == NatToDecimal(n / 10);
      DecimalRoundTrip(n / 10);
    }
  }

  /** Two numbers with the same numeral are equal. */
  lemma DecimalInjective(m: nat, n: nat)
    requires NatToDecimal(m) == NatToDecimal(n)
    ensures m == n
  {
    DecimalRoundTrip(m);
    DecimalRoundTrip(n);
  }

  function Pow10(k: nat): (r: nat)
    ensures r >= 1
  {
    if k == 0 then 1 else 10 * Pow10(k - 1)
  }

  lemma {:induction false} DecimalValueBound(s: string)
    requires AllDigits(s)
    ensures DecimalValue(s) < Pow10(|s|)
  {
    if |s| > 0 {
      DecimalValueBound(s[..|s| - 1]);
    }
  }

  /** Leading zeros do not change the value of a numeral. */
  lemma {:induction false} DecimalValueLeadingZeros(z: nat, s: string)
    requires AllDigits(s)
    ensures AllDigits(Zeros(z) + s)
    ensures DecimalValue(Zeros(z) + s) == DecimalValue(s)
    decreases |s|
  {
    var t := Zeros(z) + s;
    assert forall i :: 0 <= i < |t| ==> IsDigit(t[i]) by {
      forall i | 0 <= i < |t| ensures IsDigit(t[i]) {
        if i < z { assert t[i] == '0'; } else { assert t[i] == s[i - z]; }
      }
    }
    if |s| == 0 {
      assert t == Zeros(z);
      ZerosValue(z);
    } else {
      assert t[..|t| - 1] == Zeros(z) + s[..|s| - 1];
      DecimalValueLeadingZeros(z, s[..|s| - 1]);
    }
  }

  function Zeros(z: nat): (r: string)
    ensures |r| == z && forall i :: 0 <= i < z ==> r[i] == '0'
  {
    seq(z, _ => '0')
  }

  lemma {:induction false} ZerosValue(z: nat)
    ensures AllDigits(Zeros(z)) && DecimalValue(Zeros(z)) == 0
  {
    if z > 0 {
      assert Zeros(z)[..z - 1] == Zeros(z - 1);
      ZerosValue(z - 1);
    }
  }

  /** `s.padStart(width, '0')`: left-pad with zeros to at least `width` characters. */
  function PadStartZeros(s: string, width: nat): (r: string)
    ensures |r| == if |s| >= width then |s| else width
    ensures r == Zeros(|r| - |s|) + s
  {
    if |s| >= width then (assert s == Zeros(0) + s; s) else Zeros(width - |s|) + s
  }

  /** `s.slice(-k)` for a positive `k`: the last `k` characters, or all of `s` when it is shorter. */
  function TakeLast(s: string, k: nat): (r: string)
    requires k > 0
    ensures |r| == if |s| <= k then |s| else k
    ensures r == s[|s| - |r|..]
  {
    if |s| <= k then s else s[|s| - k..]
  }

  lemma {:induction false} MulAtLeast(k: int, n: int)
    requires k >= 1 && n > 0
    ensures k * n >= n
    decreases k
  {
    if k > 1 {
      MulAtLeast(k - 1, n);
      assert k * n == (k - 1) * n + n;
    }
  }

  /** Division with remainder has one answer. */
  lemma DivModUnique(x: int, n: int, q: int, r: int)
    requires n > 0 && x == q * n + r && 0 <= r < n
    ensures x % n == r && x / n == q
  {
    var q', r' := x / n, x % n;
    assert x == q' * n + r';
    assert q * n - q' * n == (q - q') * n;
    assert (q - q') * n == r' - r;
    if q - q' >= 1 {
      MulAtLeast(q - q', n);
    } else if q' - q >= 1 {
      MulAtLeast(q' - q, n);
    }
  }

  lemma ModStep(a: nat, d: nat, m: nat)
    requires d < 10 && m > 0
    ensures (a * 10 + d) % (10 * m) == (a % m) * 10 + d
  {
    var q, r := a / m, a % m;
    assert a * 10 + d == q * (10 * m) + (r * 10 + d) by {
      assert a == q * m + r;
      assert a * 10 == q * (10 * m) + r * 10;
    }
    DivModUnique(a * 10 + d, 10 * m, q, r * 10 + d);
  }

  /** The last `k` digits of a numeral denote the number modulo 10^k. */
  lemma {:induction false} TakeLastValue(s: string, k: nat)
    requires AllDigits(s) && k > 0
    ensures AllDigits(TakeLast(s, k))
    ensures DecimalValue(TakeLast(s, k)) == DecimalValue(s) % Pow10(k)
    decreases |s|
  {
    if |s| <= k {
      TakeLastAll(s, k);
    } else if k == 1 {
      TakeLastOne(s);
    } else {
      var p := s[..|s| - 1];
      assert AllDigits(p) by {
        assert forall i :: 0 <= i < |p| ==> p[i] == s[i];
      }
      TakeLastValue(p, k - 1);
      TakeLastValueStep(s, k);
    }
  }

  lemma TakeLastAll(s: string, k: nat)
    requires AllDigits(s) && 0 < k && |s| <= k
    ensures TakeLast(s, k) == s
    ensures DecimalValue(s) == DecimalValue(s) % Pow10(k)
  {
    DecimalValueBound(s);
    Pow10Monotone(|s|, k);
    DivModUnique(DecimalValue(s), Pow10(k), 0, DecimalValue(s));
  }

  lemma TakeLastOne(s: string)
    requires AllDigits(s) && |s| > 1
    ensures AllDigits(TakeLast(s, 1))
    ensures DecimalValue(TakeLast(s, 1)) == DecimalValue(s) % Pow10(1)
  {
    var p, d := s[..|s| - 1], DigitValue(s[|s| - 1]);
    assert TakeLast(s, 1) == [s[|s| - 1]];
    assert [s[|s| - 1]][..0] == [];
    assert DecimalValue(TakeLast(s, 1)) == d;
    ModStep(DecimalValue(p), d, 1);
    assert DecimalValue(s) == DecimalValue(p) * 10 + d;
  }

  /** One digit more: the value of the last `k` digits from the last `k - 1` digits before it. */
  lemma TakeLastValueStep(s: string, k: nat)
    requires AllDigits(s) && 1 < k < |s|
    requires AllDigits(TakeLast(s[..|s| - 1], k - 1))
    requires DecimalValue(TakeLast(s[..|s| - 1], k - 1)) == DecimalValue(s[..|s| - 1]) % Pow10(k - 1)
    ensures AllDigits(TakeLast(s, k))
    ensures DecimalValue(TakeLast(s, k)) == DecimalValue(s) % Pow10(k)
  {
    var p := s[..|s| - 1];
    var d := DigitValue(s[|s| - 1]);
    assert AllDigits(TakeLast(s, k)) by {
      var t := TakeLast(s, k);
      assert forall i :: 0 <= i < |t| ==> t[i] == s[|s| - k + i];
    }
    LastDigitStep(s, k);
    ModStep(DecimalValue(p), d, Pow10(k - 1));
    calc {
      DecimalValue(TakeLast(s, k));
      DecimalValue(TakeLast(p, k - 1)) * 10 + d;
      (DecimalValue(p) % Pow10(k - 1)) * 10 + d;
      (DecimalValue(p) * 10 + d) % (10 * Pow10(k - 1));
      { assert DecimalValue(s) == DecimalValue(p) * 10 + d; }
      DecimalValue(s) % Pow10(k);
    }
  }

  lemma LastDigitStep(s: string, k: nat)
    requires AllDigits(s) && 1 < k < |s|
    ensures var p := s[..|s| - 1];
            DecimalValue(TakeLast(s, k)) == DecimalValue(TakeLast(p, k - 1)) * 10 + DigitValue(s[|s| - 1])
  {
    var t := TakeLast(s, k);
    assert t[..|t| - 1] == TakeLast(s[..|s| - 1], k - 1);
  }

  lemma {:induction false} Pow10Monotone(j: nat, k: nat)
    requires j <= k
    ensures Pow10(j) <= Pow10(k)
    decreases k
  {
    if j < k {
      Pow10Monotone(j, k - 1);
    }
  }

  // ---------------------------------------------------------------------------------------------
  // Small string transforms

  /** `s.charAt(0).toUpperCase() + s.slice(1)`. */
  function Capitalize(s: string): (r: string)
    ensures |r| == |s|
    ensures |s| > 0 ==> r[0] == UpperChar(s[0]) && r[1..] == s[1..]
  {
    if |s| == 0 then "" else [UpperChar(s[0])] + s[1..]
  }

  /** A word without capitals, once capitalised, lower-cases back to itself. */
  lemma CapitalizeLowersBack(s: string)
    requires forall i :: 0 <= i < |s| ==> !IsUpperLetter(s[i])
    ensures ToLower(Capitalize(s)) == s
  {
  }

  /** `s.split(sep)[0]`: everything before the first `sep`, or all of `s` when there is none. */
  function BeforeFirst(s: string, sep: char): (r: string)
    ensures IsPrefix(r, s)
    ensures sep !in r
    ensures |r| < |s| ==> s[|r|] == sep
  {
    if |s| == 0 then "" else if s[0] == sep then "" else [s[0]] + BeforeFirst(s[1..], sep)
  }
}
