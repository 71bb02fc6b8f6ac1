/**
 * The JavaScript string primitives the core relies on: `trim`, `toUpperCase`,
 * `Number.prototype.toString` on non-negative integers and `slice(-k)`.
 */
module Text {

  /** The white-space and line-terminator code points `String.prototype.trim` removes (ASCII and BMP subset). */
  predicate IsWhitespace(c: char)
  {
    c == ' ' || c == '\t' || c == '\n' || c == '\r' || c == '\U{000B}' || c == '\U{000C}'
    || c == '\U{00A0}' || c == '\U{2028}' || c == '\U{2029}' || c == '\U{FEFF}'
  }

  /** `s` with its leading white space removed. */
  function TrimStart(s: string): (r: string)
    ensures |r| <= |s| && r == s[|s| - |r|..]
    ensures forall k :: 0 <= k < |s| - |r| ==> IsWhitespace(s[k])
    ensures r != [] ==> !IsWhitespace(r[0])
  {
    if s != [] && IsWhitespace(s[0]) then TrimStart(s[1..]) else s
  }

  /** `s` with its trailing white space removed. */
  function TrimEnd(s: string): (r: string)
    ensures |r| <= |s| && r == s[..|r|]
    ensures forall k :: |r| <= k < |s| ==> IsWhitespace(s[k])
    ensures r != [] ==> !IsWhitespace(r[|r| - 1])
  {
    if s != [] && IsWhitespace(s[|s| - 1]) then TrimEnd(s[..|s| - 1]) else s
  }

  /** String.prototype.trim. */
  function Trim(s: string): string
  {
    TrimEnd(TrimStart(s))
  }

  /** Every character of `t` is white space. */
  predicate AllWhitespace(t: string)
  {
    forall k :: 0 <= k < |t| ==> IsWhitespace(t[k])
  }

  /**
   * The trimmed string is a slice of the input that neither begins nor ends with white space,
   * and everything cut off before and after it is white space.
   */
  lemma TrimIsTrimmedSlice(s: string)
    ensures exists i, j :: 0 <= i <= j <= |s| && Trim(s) == s[i..j] && AllWhitespace(s[..i]) && AllWhitespace(s[j..])
    ensures Trim(s) != [] ==> !IsWhitespace(Trim(s)[0]) && !IsWhitespace(Trim(s)[|Trim(s)| - 1])
  {
    var t := TrimStart(s);
    var i := |s| - |t|;
    var r := TrimEnd(t);
    assert Trim(s) == r;
    assert t == s[i..] && r == t[..|r|];
    assert r == s[i..i + |r|];
    assert AllWhitespace(s[..i]);
    var tail := s[i + |r|..];
    forall k | 0 <= k < |tail|
      ensures IsWhitespace(tail[k])
    {
      assert tail[k] == t[|r| + k];
    }
    if r != [] {
      assert r[0] == t[0];
      assert !IsWhitespace(r[|r| - 1]);
    }
  }

  /** Trimming twice is trimming once. */
  lemma TrimIdempotent(s: string)
    ensures Trim(Trim(s)) == Trim(s)
  {
    var r := Trim(s);
    assert TrimStart(r) == r;
    assert TrimEnd(r) == r;
  }

  /** The ASCII case mapping of `toUpperCase`. */
  function UpperChar(c: char): char
  {
    if 'a' <= c <= 'z' then (c as int - 32) as char else c
  }

  /** String.prototype.toUpperCase on the ASCII letters. */
  function ToUpper(s: string): (r: string)
    ensures |r| == |s|
    ensures forall i :: 0 <= i < |s| && !('a' <= s[i] <= 'z') ==> r[i] == s[i]
    ensures forall i :: 0 <= i < |s| && 'a' <= s[i] <= 'z' ==> r[i] == (s[i] as int - 32) as char
    ensures forall i :: 0 <= i < |r| ==> !('a' <= r[i] <= 'z')
  {
    seq(|s|, i requires 0 <= i < |s| => UpperChar(s[i]))
  }

  /** The number of UTF-16 code units a code point takes: two above the Basic Multilingual Plane, else one. */
  function Utf16Units(c: char): nat
  {
    if c as int >= 0x1_0000 then 2 else 1
  }

  /** String.prototype.length: the length of `s` in UTF-16 code units. */
  function Utf16Length(s: string): (n: nat)
    ensures |s| <= n <= 2 * |s|
    ensures n == |s| <==> forall i :: 0 <= i < |s| ==> s[i] as int < 0x1_0000
  {
    if s == [] then 0 else Utf16Units(s[0]) + Utf16Length(s[1..])
  }

  /** The code units of a concatenation add up: every character counts on its own. */
  lemma {:induction false} Utf16LengthAppend(a: string, b: string)
    ensures Utf16Length(a + b) == Utf16Length(a) + Utf16Length(b)
  {
    if a != [] {
      assert (a + b)[0] == a[0] && (a + b)[1..] == a[1..] + b;
      Utf16LengthAppend(a[1..], b);
    } else {
      assert a + b == b;
    }
  }

  /** One character is one code unit in the Basic Multilingual Plane and two beyond it. */
  lemma Utf16LengthChar(c: char)
    ensures Utf16Length([c]) == Utf16Units(c)
    ensures Utf16Length([c]) == if c as int >= 0x1_0000 then 2 else 1
  {
    assert [c][1..] == [];
  }

  /** A string of characters beyond the Basic Multilingual Plane has twice as many code units as characters. */
  lemma {:induction false} Utf16LengthAstral(s: string)
    requires forall i :: 0 <= i < |s| ==> s[i] as int >= 0x1_0000
    ensures Utf16Length(s) == 2 * |s|
  {
    if s != [] {
      Utf16LengthAstral(s[1..]);
    }
  }

  /** A string that upper-casing leaves alone. */
  predicate IsUpperCase(s: string)
  {
    forall i :: 0 <= i < |s| ==> !('a' <= s[i] <= 'z')
  }

  /** Upper-casing is idempotent, and fixes exactly the upper-case strings. */
  lemma ToUpperIdempotent(s: string)
    ensures ToUpper(ToUpper(s)) == ToUpper(s)
    ensures IsUpperCase(s) <==> ToUpper(s) == s
  {
  }

  /** The decimal digit character for `d`. */
  function DigitChar(d: nat): (c: char)
    requires d < 10
    ensures '0' <= c <= '9'
  {
    ('0' as int + d) as char
  }

  /** 10 to the power `k`. */
  function Pow10(k: nat): (r: nat)
    ensures r >= 1
  {
    if k == 0 then 1 else 10 * Pow10(k - 1)
  }

  /** Number.prototype.toString() of a non-negative integer: its decimal digits, no leading zeros. */
  function Decimal(n: nat): (r: string)
    ensures |r| >= 1
    ensures forall i :: 0 <= i < |r| ==> '0' <= r[i] <= '9'
    ensures r[0] == '0' ==> n == 0
    ensures r == PaddedDigits(n, |r|) && n < Pow10(|r|)
  {
    if n < 10 then [DigitChar(n)]
    else
      var high := Decimal(n / 10);
      assert PaddedDigits(n, |high| + 1) == PaddedDigits(n / 10, |high|) + [DigitChar(n % 10)];
      assert Pow10(|high| + 1) == 10 * Pow10(|high|);
      high + [DigitChar(n % 10)]
  }

  /** The last `k` decimal digits of `n`, zero-padded to exactly `k` characters. */
  function PaddedDigits(n: nat, k: nat): (r: string)
    ensures |r| == k
  {
    if k == 0 then [] else PaddedDigits(n / 10, k - 1) + [DigitChar(n % 10)]
  }

  /** String.prototype.slice(-k) for k > 0: the last `k` characters, or the whole string if shorter. */
  function LastChars(s: string, k: nat): (r: string)
    requires k > 0
    ensures |r| == if |s| <= k then |s| else k
    ensures r == s[|s| - |r|..]
  {
    if |s| <= k then s else s[|s| - k..]
  }

  /** A number with at least `k` digits has its last `k` characters equal to its padded last `k` digits. */
  lemma DecimalSuffix(n: nat, k: nat)
    requires 1 <= k && n >= Pow10(k - 1)
    ensures |Decimal(n)| >= k
    ensures LastChars(Decimal(n), k) == PaddedDigits(n, k)
  {
    var m := |Decimal(n)|;
    Pow10Order(k - 1, m);
    PaddedSuffix(n, m, k);
  }

  /** Powers of ten grow with the exponent. */
  lemma {:induction false} Pow10Order(a: nat, b: nat)
    ensures a >= b ==> Pow10(a) >= Pow10(b)
  {
    if a > b {
      Pow10Order(a - 1, b);
    }
  }

  /** The last `k` of the `m` padded low digits are the `k` padded low digits. */
  lemma {:induction false} PaddedSuffix(n: nat, m: nat, k: nat)
    requires k <= m
    ensures PaddedDigits(n, m)[m - k..] == PaddedDigits(n, k)
  {
    if 0 < k < m {
      var c := DigitChar(n % 10);
      var high := PaddedDigits(n / 10, m - 1);
      PaddedSuffix(n / 10, m - 1, k - 1);
      assert PaddedDigits(n, m) == high + [c];
      assert (high + [c])[m - k..] == high[m - k..] + [c];
    }
  }

  /** Euclidean division splits at the last decimal digit. */
  lemma ModTen(a: nat, p: nat)
    requires p > 0
    ensures a % (10 * p) == 10 * ((a / 10) % p) + a % 10
  {
    var q, r0 := a / 10, a % 10;
    var q2, r1 := q / p, q % p;
    assert a == 10 * q + r0;
    assert q == p * q2 + r1;
    assert a == (10 * p) * q2 + (10 * r1 + r0);
    assert 0 <= 10 * r1 + r0 < 10 * p;
    DivModUnique(a, 10 * p, q2, 10 * r1 + r0);
  }

  lemma DivModUnique(a: int, d: int, q: int, r: int)
    requires d > 0 && 0 <= r < d && a == d * q + r
    ensures a % d == r && a / d == q
  {
    var q', r' := a / d, a % d;
    assert a == d * q' + r';
    MulBound(d, q - q');
    assert d * (q - q') == d * q - d * q';
  }

  lemma MulBound(d: int, x: int)
    requires d > 0
    ensures x >= 1 ==> d * x >= d
    ensures x <= -1 ==> d * x <= -d
  {
    if x >= 1 {
      assert d * x == d * (x - 1) + d;
    } else if x <= -1 {
      assert d * x == d * (x + 1) - d;
    }
  }

  /** The padded last `k` digits of two numbers agree exactly when the numbers agree modulo 10^k. */
  lemma {:induction false} PaddedDigitsMod(a: nat, b: nat, k: nat)
    ensures PaddedDigits(a, k) == PaddedDigits(b, k) <==> a % Pow10(k) == b % Pow10(k)
  {
    if k > 0 {
      PaddedDigitsMod(a / 10, b / 10, k - 1);
      ModTen(a, Pow10(k - 1));
      ModTen(b, Pow10(k - 1));
      var pa, pb := PaddedDigits(a / 10, k - 1), PaddedDigits(b / 10, k - 1);
      assert PaddedDigits(a, k) == pa + [DigitChar(a % 10)];
      assert PaddedDigits(b, k) == pb + [DigitChar(b % 10)];
      if PaddedDigits(a, k) == PaddedDigits(b, k) {
        assert pa == PaddedDigits(a, k)[..k - 1];
        assert pb == PaddedDigits(b, k)[..k - 1];
        assert DigitChar(a % 10) == PaddedDigits(a, k)[k - 1];
      }
      if a % Pow10(k) == b % Pow10(k) {
        assert a % 10 == b % 10;
        assert (a / 10) % Pow10(k - 1) == (b / 10) % Pow10(k - 1);
      }
    }
  }
}
