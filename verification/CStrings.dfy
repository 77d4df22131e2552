/** The C string primitives that the lock code relies on: strcmp, strrchr and
    the zero-padded numerals that printf writes into a node name. */
module CStrings {

  datatype Option<+T> = None | Some(value: T)

  /** The sign of strcmp, which is all that C specifies of its result. */
  function StrCmp(a: string, b: string): int {
    if a == [] then (if b == [] then 0 else -1)
    else if b == [] then 1
    else if a[0] < b[0] then -1
    else if a[0] > b[0] then 1
    else StrCmp(a[1..], b[1..])
  }

  /** The first n characters, as a bounded copy keeps them. */
  function Cut(s: string, n: nat): string {
    if |s| <= n then s else s[..n]
  }

  function Sign(x: int): int {
    if x < 0 then -1 else if x > 0 then 1 else 0
  }

  lemma {:induction false} CmpZero(a: string, b: string)
    ensures StrCmp(a, b) == 0 <==> a == b
  {
    if a != [] && b != [] {
      CmpZero(a[1..], b[1..]);
      assert a == [a[0]] + a[1..] && b == [b[0]] + b[1..];
    }
  }

  lemma {:induction false} CmpSwap(a: string, b: string)
    ensures StrCmp(a, b) == -StrCmp(b, a)
  {
    if a != [] && b != [] {
      CmpSwap(a[1..], b[1..]);
    }
  }

  lemma {:induction false} CmpTransitive(a: string, b: string, c: string)
    requires StrCmp(a, b) <= 0 && StrCmp(b, c) <= 0
    ensures StrCmp(a, c) <= 0
  {
    if a != [] && b != [] && c != [] && a[0] == b[0] == c[0] {
      CmpTransitive(a[1..], b[1..], c[1..]);
    }
  }

  /** Blocks of equal length compare left to right. */
  lemma {:induction false} CmpBlocks(a: string, x: string, b: string, y: string)
    requires |a| == |b|
    ensures StrCmp(a + x, b + y) == if a == b then StrCmp(x, y) else StrCmp(a, b)
  {
    if a == [] {
      assert a + x == x && b + y == y;
    } else {
      assert (a + x)[1..] == a[1..] + x && (b + y)[1..] == b[1..] + y;
      assert a == [a[0]] + a[1..] && b == [b[0]] + b[1..];
      CmpBlocks(a[1..], x, b[1..], y);
    }
  }

  /** strrchr: the index of the last occurrence, None for the NULL answer. */
  function StrRChr(s: string, c: char): Option<nat> {
    if s == [] then None
    else if s[|s| - 1] == c then Some(|s| - 1)
    else StrRChr(s[..|s| - 1], c)
  }

  lemma {:induction false} StrRChrFinds(s: string, c: char, t: string)
    requires c !in t
    ensures StrRChr(s + [c] + t, c) == Some(|s|)
  {
    var all := s + [c] + t;
    if t != [] {
      assert t[|t| - 1] != c;
      assert all[..|all| - 1] == s + [c] + t[..|t| - 1];
      StrRChrFinds(s, c, t[..|t| - 1]);
    }
  }

  function Pow(base: nat, e: nat): nat {
    if e == 0 then 1 else base * Pow(base, e - 1)
  }

  function DigitChar(d: nat): char
    requires d < 16
  {
    if d < 10 then '0' + (d as char) else 'a' + ((d - 10) as char)
  }

  /** What %0<width>d and %0<width>x print, for numbers that fit the width. */
  function Numeral(n: nat, width: nat, base: nat): (s: string)
    requires base == 10 || base == 16
    ensures |s| == width
    ensures '-' !in s && '/' !in s
  {
    if width == 0 then [] else Numeral(n / base, width - 1, base) + [DigitChar(n % base)]
  }

  /** What a digit stands for, lower-case as printf writes it. */
  function DigitValue(c: char): Option<nat> {
    if '0' <= c <= '9' then Some((c - '0') as nat)
    else if 'a' <= c <= 'f' then Some((c - 'a') as nat + 10)
    else None
  }

  /** The number that a numeral reads as, None if it is not one. */
  function Read(s: string, base: nat): Option<nat> {
    if s == [] then Some(0)
    else
      match (Read(s[..|s| - 1], base), DigitValue(s[|s| - 1]))
      case (Some(high), Some(low)) => if low < base then Some(base * high + low) else None
      case _ => None
  }

  lemma QuotientFits(n: nat, bound: nat, base: nat)
    requires (base == 10 || base == 16) && n < base * bound
    ensures n / base < bound && n == base * (n / base) + n % base && n % base < base
  {
    if base == 10 {
      SplitDecimal(n, n, bound);
    } else {
      SplitHex(n, n, bound);
    }
  }

  lemma ReadOnce(p: string, high: nat, d: nat, base: nat)
    requires Read(p, base) == Some(high) && d < base && d < 16
    ensures Read(p + [DigitChar(d)], base) == Some(base * high + d)
  {
    var all := p + [DigitChar(d)];
    assert all[..|all| - 1] == p && DigitValue(DigitChar(d)) == Some(d);
  }

  /** Reading undoes printing. */
  lemma {:induction false} NumeralReads(n: nat, width: nat, base: nat)
    requires (base == 10 || base == 16) && n < Pow(base, width)
    ensures Read(Numeral(n, width, base), base) == Some(n)
  {
    if width > 0 {
      QuotientFits(n, Pow(base, width - 1), base);
      NumeralReads(n / base, width - 1, base);
      ReadOnce(Numeral(n / base, width - 1, base), n / base, n % base, base);
    }
  }

  lemma DigitOrder(d: nat, e: nat)
    requires d < 16 && e < 16
    ensures StrCmp([DigitChar(d)], [DigitChar(e)]) == Sign(d - e)
  {
  }

  lemma SplitDecimal(n: nat, m: nat, bound: nat)
    requires n < 10 * bound && m < 10 * bound
    ensures n / 10 < bound && m / 10 < bound
    ensures Sign(n - m) == if n / 10 == m / 10 then Sign(n % 10 - m % 10) else Sign(n / 10 - m / 10)
  {
    assert n == 10 * (n / 10) + n % 10 && m == 10 * (m / 10) + m % 10;
  }

  lemma SplitHex(n: nat, m: nat, bound: nat)
    requires n < 16 * bound && m < 16 * bound
    ensures n / 16 < bound && m / 16 < bound
    ensures Sign(n - m) == if n / 16 == m / 16 then Sign(n % 16 - m % 16) else Sign(n / 16 - m / 16)
  {
    assert n == 16 * (n / 16) + n % 16 && m == 16 * (m / 16) + m % 16;
  }

  lemma LastDigit(p: string, d: nat, q: string, e: nat, high: int)
    requires |p| == |q| && d < 16 && e < 16
    requires StrCmp(p, q) == Sign(high)
    ensures StrCmp(p + [DigitChar(d)], q + [DigitChar(e)]) ==
            if high == 0 then Sign(d - e) else Sign(high)
  {
    CmpZero(p, q);
    CmpBlocks(p, [DigitChar(d)], q, [DigitChar(e)]);
    DigitOrder(d, e);
  }

  /** strcmp of numerals, given how it comes out without the last digits. */
  lemma NumeralStep(n: nat, m: nat, width: nat, base: nat)
    requires (base == 10 || base == 16) && width > 0
    requires StrCmp(Numeral(n / base, width - 1, base), Numeral(m / base, width - 1, base)) == Sign(n / base - m / base)
    ensures StrCmp(Numeral(n, width, base), Numeral(m, width, base)) ==
            if n / base == m / base then Sign(n % base - m % base) else Sign(n / base - m / base)
  {
    LastDigit(Numeral(n / base, width - 1, base), n % base,
              Numeral(m / base, width - 1, base), m % base, n / base - m / base);
  }

  lemma {:induction false} DecimalOrder(n: nat, m: nat, width: nat)
    requires n < Pow(10, width) && m < Pow(10, width)
    ensures StrCmp(Numeral(n, width, 10), Numeral(m, width, 10)) == Sign(n - m)
  {
    if width > 0 {
      SplitDecimal(n, m, Pow(10, width - 1));
      DecimalOrder(n / 10, m / 10, width - 1);
      NumeralStep(n, m, width, 10);
    }
  }

  lemma {:induction false} HexOrder(n: nat, m: nat, width: nat)
    requires n < Pow(16, width) && m < Pow(16, width)
    ensures StrCmp(Numeral(n, width, 16), Numeral(m, width, 16)) == Sign(n - m)
  {
    if width > 0 {
      SplitHex(n, m, Pow(16, width - 1));
      HexOrder(n / 16, m / 16, width - 1);
      NumeralStep(n, m, width, 16);
    }
  }

  /** On numbers that fit, strcmp of padded numerals is comparison of numbers. */
  lemma NumeralOrder(n: nat, m: nat, width: nat, base: nat)
    requires base == 10 || base == 16
    requires n < Pow(base, width) && m < Pow(base, width)
    ensures StrCmp(Numeral(n, width, base), Numeral(m, width, base)) == Sign(n - m)
  {
    if base == 10 {
      DecimalOrder(n, m, width);
    } else {
      HexOrder(n, m, width);
    }
  }
}
