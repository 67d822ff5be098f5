/** Fixed-width binary-digit strings, as the VonNeumann tools build them with
    Python's `format(n, "0<w>b")` and read them back with `int(s, 2)`. */
module Bits {

  function Pow2(n: nat): (r: nat)
    ensures r >= 1
  {
    if n == 0 then 1 else 2 * Pow2(n - 1)
  }

  /** An unsigned 32-bit value (numpy.uint32). */
  type Word = n: nat | n < 0x1_0000_0000

  lemma Pow2Of32()
    ensures Pow2(32) == 0x1_0000_0000
  {
    assert Pow2(8) == 0x100;
    Pow2Add(8, 8);
    Pow2Add(16, 16);
  }

  lemma {:induction false} Pow2Add(a: nat, b: nat)
    ensures Pow2(a + b) == Pow2(a) * Pow2(b)
  {
    if b > 0 {
      Pow2Add(a, b - 1);
      assert Pow2(a + b) == 2 * Pow2(a + b - 1);
      MulDouble(Pow2(a), Pow2(b - 1));
    }
  }

  predicate IsBinary(s: seq<char>) {
    forall i :: 0 <= i < |s| ==> s[i] == '0' || s[i] == '1'
  }

  function Digit(b: nat): char
    requires b < 2
  {
    if b == 0 then '0' else '1'
  }

  function DigitValue(c: char): nat {
    if c == '1' then 1 else 0
  }

  /** format(n, "0<width>b") for n < 2^width: exactly `width` digits, most significant first.
      (For larger n it keeps the low `width` bits; no caller of the model passes such an n.) */
  function ToBits(n: nat, width: nat): (s: seq<char>)
    ensures |s| == width && IsBinary(s)
  {
    if width == 0 then [] else ToBits(n / 2, width - 1) + [Digit(n % 2)]
  }

  /** int(s, 2) on a string of binary digits. */
  function FromBits(s: seq<char>): (r: nat)
    requires IsBinary(s)
    ensures r < Pow2(|s|)
  {
    if |s| == 0 then 0 else 2 * FromBits(s[..|s| - 1]) + DigitValue(s[|s| - 1])
  }

  /** "0" * n */
  function Zeros(n: nat): (s: seq<char>)
    ensures |s| == n && IsBinary(s) && (forall i :: 0 <= i < n ==> s[i] == '0')
  {
    seq(n, _ => '0')
  }

  lemma BinaryConcat(a: seq<char>, b: seq<char>)
    requires IsBinary(a) && IsBinary(b)
    ensures IsBinary(a + b)
  {
  }

  lemma BinarySlice(s: seq<char>, i: nat, j: nat)
    requires IsBinary(s) && i <= j <= |s|
    ensures IsBinary(s[i..j])
  {
  }

  lemma HalveMod(n: nat, p: nat)
    requires p >= 1
    ensures 2 * ((n / 2) % p) + n % 2 == n % (2 * p)
  {
    var q, r := n / 2, n % 2;
    var k, m := q / p, q % p;
    assert q == p * k + m;
    assert n == 2 * q + r;
    assert n == (2 * p) * k + (2 * m + r);
    assert 0 <= 2 * m + r < 2 * p;
    DivModUnique(n, 2 * p, k, 2 * m + r);
  }

  /** Euclidean division is determined by its two defining properties. */
  lemma DivModUnique(n: int, d: int, q: int, r: int)
    requires d > 0 && 0 <= r < d && n == d * q + r
    ensures n / d == q && n % d == r
  {
    var q', r' := n / d, n % d;
    assert n == d * q' + r' && 0 <= r' < d;
    if q' > q {
      MulMonotone(d, q + 1, q');
      MulSucc(d, q);
    } else if q' < q {
      MulMonotone(d, q' + 1, q);
      MulSucc(d, q');
    }
  }

  lemma MulSucc(d: int, q: int)
    ensures d * (q + 1) == d * q + d
  {
  }

  lemma MulMonotone(d: int, a: int, b: int)
    requires d >= 0 && a <= b
    ensures d * a <= d * b
  {
    var k := b - a;
    assert d * b == d * a + d * k;
    MulNonNegative(d, k);
  }

  lemma {:induction false} MulNonNegative(x: int, y: int)
    requires x >= 0 && y >= 0
    ensures x * y >= 0
  {
    if y > 0 {
      MulNonNegative(x, y - 1);
      MulSucc(x, y - 1);
    }
  }

  lemma MulCommutes(x: int, y: int)
    ensures x * y == y * x
  {
  }

  lemma MulDouble(x: int, p: int)
    ensures x * (2 * p) == 2 * (x * p)
  {
  }

  /** Reading back what format wrote gives the number modulo 2^width. */
  lemma {:induction false} FromToBits(n: nat, width: nat)
    ensures FromBits(ToBits(n, width)) == n % Pow2(width)
  {
    if width == 0 {
    } else {
      var s := ToBits(n, width);
      assert s[..|s| - 1] == ToBits(n / 2, width - 1);
      FromToBits(n / 2, width - 1);
      assert FromBits(s) == 2 * ((n / 2) % Pow2(width - 1)) + n % 2;
      HalveMod(n, Pow2(width - 1));
    }
  }

  lemma FromToBitsExact(n: nat, width: nat)
    requires n < Pow2(width)
    ensures FromBits(ToBits(n, width)) == n
  {
    FromToBits(n, width);
  }

  /** Formatting what int(s, 2) read gives the digits back. */
  lemma {:induction false} ToFromBits(s: seq<char>)
    requires IsBinary(s)
    ensures ToBits(FromBits(s), |s|) == s
  {
    if |s| > 0 {
      var init, d := s[..|s| - 1], DigitValue(s[|s| - 1]);
      var n := FromBits(s);
      assert n == 2 * FromBits(init) + d;
      DivModUnique(n, 2, FromBits(init), d);
      ToFromBits(init);
      assert Digit(d) == s[|s| - 1];
      assert s == init + [s[|s| - 1]];
    }
  }

  /** Concatenating digit strings shifts the left part up by the width of the right part. */
  lemma {:induction false} FromBitsAppend(a: seq<char>, b: seq<char>)
    requires IsBinary(a) && IsBinary(b)
    ensures IsBinary(a + b)
    ensures FromBits(a + b) == FromBits(a) * Pow2(|b|) + FromBits(b)
  {
    BinaryConcat(a, b);
    if |b| == 0 {
      assert a + b == a;
    } else {
      var b', c := b[..|b| - 1], b[|b| - 1];
      var ab := a + b;
      assert ab[..|ab| - 1] == a + b';
      assert ab[|ab| - 1] == c;
      FromBitsAppend(a, b');
      MulDouble(FromBits(a), Pow2(|b'|));
      assert Pow2(|b|) == 2 * Pow2(|b'|);
      assert FromBits(a) * Pow2(|b|) == FromBits(a) * (2 * Pow2(|b'|));
      assert FromBits(ab) == 2 * FromBits(a + b') + DigitValue(c);
      assert FromBits(b) == 2 * FromBits(b') + DigitValue(c);
    }
  }

  lemma FromBitsZeros(n: nat)
    ensures FromBits(Zeros(n)) == 0
  {
    if n > 0 {
      assert Zeros(n)[..n - 1] == Zeros(n - 1);
      FromBitsZeros(n - 1);
    }
  }

  /** The leading `k` digits of a string are its value divided by 2^(rest). */
  lemma {:induction false} HighPart(a: seq<char>, b: seq<char>)
    requires IsBinary(a) && IsBinary(b)
    ensures IsBinary(a + b)
    ensures FromBits(a + b) / Pow2(|b|) == FromBits(a)
    ensures FromBits(a + b) % Pow2(|b|) == FromBits(b)
  {
    FromBitsAppend(a, b);
    MulCommutes(FromBits(a), Pow2(|b|));
    DivModUnique(FromBits(a + b), Pow2(|b|), FromBits(a), FromBits(b));
  }

  /** The digits from `lo` to `hi` of a binary string read as a number: the value
      shifted right past the digits after `hi` and masked to `hi - lo` bits. */
  lemma {:induction false} SliceValue(s: seq<char>, lo: nat, hi: nat)
    requires IsBinary(s) && lo <= hi <= |s|
    ensures IsBinary(s[lo..hi])
    ensures FromBits(s[lo..hi]) == (FromBits(s) / Pow2(|s| - hi)) % Pow2(hi - lo)
  {
    assert s == s[..hi] + s[hi..];
    HighPart(s[..hi], s[hi..]);
    assert s[..hi] == s[..lo] + s[lo..hi];
    HighPart(s[..lo], s[lo..hi]);
  }
}
