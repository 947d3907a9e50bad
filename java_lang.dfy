/**
 * The few pieces of the Java platform that the modelled code leans on:
 * null (as Option), exceptions (as Result), the 16- and 32-bit integer types,
 * Integer.compare / Short.compare, and the decimal conversions
 * Integer.toString / Integer.parseInt.
 */
module JavaLang {

  /** A Java reference that may be null: None is null. */
  datatype Option<+T> = None | Some(value: T)

  /** The exceptions that the modelled code raises or lets escape. */
  datatype Throwable =
    | NullPointerException
    | IndexOutOfBoundsException
    | ArrayIndexOutOfBoundsException
    | IllegalArgumentException
    | IllegalStateException
    | NoSuchElementException
    | ArithmeticException
    | NotImplementedException
    | UnsupportedOperationException
    | Foreign(message: string)  // raised by code outside the model (a parser, a serializer)

  /** A call that returns a value or throws. */
  datatype Result<+T> = Ok(value: T) | Err(error: Throwable)

  /** java.util.UUID: its two 64-bit halves. */
  datatype Uuid = Uuid(mostSigBits: bv64, leastSigBits: bv64)

  /** The all-zero UUID, which the code base uses as a "no UUID" sentinel (UuidUtils.IDENTITY). */
  const IDENTITY: Uuid := Uuid(0, 0)

  const INT_MIN: int := -0x8000_0000
  const INT_MAX: int := 0x7fff_ffff

  /** Java `int`. */
  newtype i32 = x: int | -0x8000_0000 <= x < 0x8000_0000

  /** Java `short`. */
  newtype i16 = x: int | -0x8000 <= x < 0x8000

  /** Two's-complement narrowing to 32 bits, which is what Java `int` arithmetic does on overflow. */
  function Wrap32(n: int): (r: i32)
    ensures (r as int - n) % 0x1_0000_0000 == 0
    ensures INT_MIN <= n <= INT_MAX ==> r as int == n
  {
    ((n + 0x8000_0000) % 0x1_0000_0000 - 0x8000_0000) as i32
  }

  /** Integer.compare: -1, 0 or 1. */
  function IntegerCompare(x: int, y: int): (r: int)
    ensures r < 0 <==> x < y
    ensures r == 0 <==> x == y
    ensures -1 <= r <= 1
  {
    if x < y then -1 else if x == y then 0 else 1
  }

  /** Short.compare: the difference of the two values, not just its sign. */
  function ShortCompare(x: i16, y: i16): (r: int)
    ensures r < 0 <==> x < y
    ensures r == 0 <==> x == y
    ensures -0xffff <= r <= 0xffff
  {
    x as int - y as int
  }

  /** Java's `/` on int: division truncated toward zero. */
  function JavaDiv(x: int, m: int): int
    requires m > 0
  {
    if x >= 0 then x / m else -((-x) / m)
  }

  /** Java's `%` on int: the remainder of truncated division, so it takes the dividend's sign. */
  function JavaRem(x: int, m: int): (r: int)
    requires m > 0
    ensures x == m * JavaDiv(x, m) + r
    ensures x >= 0 ==> 0 <= r < m
    ensures x < 0 ==> -m < r <= 0
  {
    if x >= 0 then x % m else -((-x) % m)
  }

  /** Euclidean division is determined by the defining equation and the range of the remainder. */
  lemma DivModUnique(x: int, m: int, q: int, r: int)
    requires m > 0 && 0 <= r < m && x == m * q + r
    ensures x % m == r && x / m == q
  {
    var k := q - x / m;
    assert m * k == x % m - r by {
      assert m * k == m * q - m * (x / m);
    }
    MulAwayFromZero(m, k);
  }

  lemma MulAwayFromZero(m: int, k: int)
    requires m > 0
    ensures k >= 1 ==> m * k >= m
    ensures k <= -1 ==> m * k <= -m
  {
    if k >= 1 {
      assert m * k == m * (k - 1) + m;
    } else if k <= -1 {
      assert m * k == m * (k + 1) - m;
    }
  }

  /**
   * Guava IntMath.mod(x, m): ArithmeticException unless m > 0; otherwise
   * x % m, shifted up by m when negative.
   */
  function IntMathMod(x: i32, m: int): (r: Result<int>)
    ensures r.Err? <==> m <= 0
    ensures r.Err? ==> r.error == ArithmeticException
  {
    if m <= 0 then Err(ArithmeticException)
    else
      var result := JavaRem(x as int, m);
      Ok(if result >= 0 then result else result + m)
  }

  /** IntMath.mod lands in [0, m), even for a negative x, and is the floored modulus x mod m. */
  lemma IntMathModInRange(x: i32, m: int)
    requires m > 0
    ensures 0 <= IntMathMod(x, m).value < m
    ensures IntMathMod(x, m).value == x as int % m
  {
    var q := JavaDiv(x as int, m);
    var rem := JavaRem(x as int, m);
    if rem >= 0 {
      DivModUnique(x as int, m, q, rem);
    } else {
      assert x as int == m * (q - 1) + (rem + m);
      DivModUnique(x as int, m, q - 1, rem + m);
    }
  }

  /** Sign of an int: -1, 0 or 1. */
  function Sign(n: int): int
  {
    if n < 0 then -1 else if n == 0 then 0 else 1
  }

  // ------------------------------------------------------------
  // Decimal strings
  // ------------------------------------------------------------

  /**
   * Character.digit(c, 10): the value of a Unicode decimal digit (general
   * category Nd), -1 for any other char. Java chars are UTF-16 code units, so
   * only the digit ranges of the Basic Multilingual Plane can be met; a
   * surrogate is never a digit.
   */
  function CharacterDigit(c: char): (d: int)
    ensures -1 <= d <= 9
    ensures '0' <= c <= '9' ==> d == c as int - 48
    ensures c < '0' ==> d == -1
  {
    var n := c as int;
    if 0x0030 <= n <= 0x0039 then n - 0x0030        // ASCII
    else if 0x0660 <= n <= 0x0669 then n - 0x0660   // Arabic-Indic
    else if 0x06F0 <= n <= 0x06F9 then n - 0x06F0   // Extended Arabic-Indic
    else if 0x07C0 <= n <= 0x07C9 then n - 0x07C0   // NKo
    else if 0x0966 <= n <= 0x096F then n - 0x0966   // Devanagari
    else if 0x09E6 <= n <= 0x09EF then n - 0x09E6   // Bengali
    else if 0x0A66 <= n <= 0x0A6F then n - 0x0A66   // Gurmukhi
    else if 0x0AE6 <= n <= 0x0AEF then n - 0x0AE6   // Gujarati
    else if 0x0B66 <= n <= 0x0B6F then n - 0x0B66   // Oriya
    else if 0x0BE6 <= n <= 0x0BEF then n - 0x0BE6   // Tamil
    else if 0x0C66 <= n <= 0x0C6F then n - 0x0C66   // Telugu
    else if 0x0CE6 <= n <= 0x0CEF then n - 0x0CE6   // Kannada
    else if 0x0D66 <= n <= 0x0D6F then n - 0x0D66   // Malayalam
    else if 0x0DE6 <= n <= 0x0DEF then n - 0x0DE6   // Sinhala Lith
    else if 0x0E50 <= n <= 0x0E59 then n - 0x0E50   // Thai
    else if 0x0ED0 <= n <= 0x0ED9 then n - 0x0ED0   // Lao
    else if 0x0F20 <= n <= 0x0F29 then n - 0x0F20   // Tibetan
    else if 0x1040 <= n <= 0x1049 then n - 0x1040   // Myanmar
    else if 0x1090 <= n <= 0x1099 then n - 0x1090   // Myanmar Shan
    else if 0x17E0 <= n <= 0x17E9 then n - 0x17E0   // Khmer
    else if 0x1810 <= n <= 0x1819 then n - 0x1810   // Mongolian
    else if 0x1946 <= n <= 0x194F then n - 0x1946   // Limbu
    else if 0x19D0 <= n <= 0x19D9 then n - 0x19D0   // New Tai Lue
    else if 0x1A80 <= n <= 0x1A89 then n - 0x1A80   // Tai Tham Hora
    else if 0x1A90 <= n <= 0x1A99 then n - 0x1A90   // Tai Tham Tham
    else if 0x1B50 <= n <= 0x1B59 then n - 0x1B50   // Balinese
    else if 0x1BB0 <= n <= 0x1BB9 then n - 0x1BB0   // Sundanese
    else if 0x1C40 <= n <= 0x1C49 then n - 0x1C40   // Lepcha
    else if 0x1C50 <= n <= 0x1C59 then n - 0x1C50   // Ol Chiki
    else if 0xA620 <= n <= 0xA629 then n - 0xA620   // Vai
    else if 0xA8D0 <= n <= 0xA8D9 then n - 0xA8D0   // Saurashtra
    else if 0xA900 <= n <= 0xA909 then n - 0xA900   // Kayah Li
    else if 0xA9D0 <= n <= 0xA9D9 then n - 0xA9D0   // Javanese
    else if 0xA9F0 <= n <= 0xA9F9 then n - 0xA9F0   // Myanmar Tai Laing
    else if 0xAA50 <= n <= 0xAA59 then n - 0xAA50   // Cham
    else if 0xABF0 <= n <= 0xABF9 then n - 0xABF0   // Meetei Mayek
    else if 0xFF10 <= n <= 0xFF19 then n - 0xFF10   // Fullwidth
    else -1
  }

  predicate IsDigit(c: char)
  {
    CharacterDigit(c) >= 0
  }

  predicate AllDigits(s: string)
  {
    forall i | 0 <= i < |s| :: IsDigit(s[i])
  }

  function DigitChar(d: nat): (c: char)
    requires d < 10
    ensures IsDigit(c) && CharacterDigit(c) == d
  {
    (48 + d) as char
  }

  function DigitValue(c: char): (d: nat)
    requires IsDigit(c)
    ensures d < 10
  {
    CharacterDigit(c)
  }

  /** The decimal digits of n, most significant first, without leading zeros. */
  function NatToDecimal(n: nat): (s: string)
    ensures |s| > 0 && AllDigits(s) && '0' <= s[0] <= '9'
    decreases n
  {
    if n < 10 then [DigitChar(n)] else NatToDecimal(n / 10) + [DigitChar(n % 10)]
  }

  /** The value of a string of decimal digits. */
  function DecimalValue(s: string): nat
    requires AllDigits(s)
  {
    if s == [] then 0 else DecimalValue(s[..|s| - 1]) * 10 + DigitValue(s[|s| - 1])
  }

  /** Integer.toString(i). */
  function IntegerToString(i: i32): (s: string)
    ensures |s| > 0
    ensures i >= 0 ==> AllDigits(s)
  {
    if i < 0 then "-" + NatToDecimal(-(i as int)) else NatToDecimal(i as nat)
  }

  /**
   * Integer.parseInt(s) (radix 10): an optional '+' or '-', then at least one
   * digit in the sense of Character.digit (any Unicode decimal digit), and a
   * value that fits in an int. None is the NumberFormatException.
   */
  function ParseInt(s: string): (r: Option<i32>)
    ensures r.Some? ==> |s| > 0
  {
    if |s| == 0 then None
    else
      var signed := s[0] == '-' || s[0] == '+';
      var digits := if signed then s[1..] else s;
      if |digits| == 0 || !AllDigits(digits) then None
      else
        var v: int := DecimalValue(digits);
        var n: int := if s[0] == '-' then -v else v;
        if INT_MIN <= n <= INT_MAX then Some(n as i32) else None
  }

  lemma {:induction false} DecimalRoundTrip(n: nat)
    ensures DecimalValue(NatToDecimal(n)) == n
    decreases n
  {
    if n >= 10 {
      var s := NatToDecimal(n);
      assert s[..|s| - 1] == NatToDecimal(n / 10);
      DecimalRoundTrip(n / 10);
    }
  }

  /** parseInt of unsigned digits starting with an ASCII digit is their value, when it fits. */
  lemma ParseIntUnsigned(d: string)
    requires |d| > 0 && AllDigits(d) && '0' <= d[0] <= '9' && DecimalValue(d) <= INT_MAX
    ensures ParseInt(d) == Some(DecimalValue(d) as i32)
  {
  }

  /** parseInt of '-' and digits is minus their value, when it fits. */
  lemma ParseIntNegative(d: string)
    requires |d| > 0 && AllDigits(d) && DecimalValue(d) <= INT_MAX + 1
    ensures ParseInt("-" + d) == Some((-(DecimalValue(d) as int)) as i32)
  {
    assert ("-" + d)[1..] == d;
  }

  /** Integer.parseInt undoes Integer.toString, for every int. */
  lemma ParseIntOfToString(i: i32)
    ensures ParseInt(IntegerToString(i)) == Some(i)
  {
    if i < 0 {
      DecimalRoundTrip(-(i as int));
      ParseIntNegative(NatToDecimal(-(i as int)));
    } else {
      DecimalRoundTrip(i as nat);
      ParseIntUnsigned(NatToDecimal(i as nat));
    }
  }

  /** Distinct ints have distinct decimal forms. */
  lemma IntegerToStringInjective(i: i32, j: i32)
    requires IntegerToString(i) == IntegerToString(j)
    ensures i == j
  {
    ParseIntOfToString(i);
    ParseIntOfToString(j);
  }

  /** parseInt reads every Unicode decimal digit, not only ASCII: fullwidth and Arabic-Indic "3" both parse as 3, and mixed scripts are accepted. */
  lemma ParseIntUnicodeDigits()
    ensures ParseInt("\U{FF13}") == Some(3)
    ensures ParseInt("-\U{0663}") == Some(-3)
    ensures ParseInt("1\U{0968}") == Some(12)
    ensures ParseInt("\U{1D7D1}") == None
  {
    assert "1\U{0968}"[..1] == "1";
  }
}
