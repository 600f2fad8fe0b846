/** Big-endian words of the contract ABI (ethabi.py). */
module AbiWords {
  type byte = b: int | 0 <= b < 256

  function Pow256(k: nat): (r: nat)
    ensures r >= 1
  {
    if k == 0 then 1 else 256 * Pow256(k - 1)
  }

  /** The unsigned word limit 2^256 and the signed half 2^255. */
  const WORD_LIMIT: int := Pow256(32)
  const SIGN_LIMIT: int := 128 * Pow256(31)

  lemma WordLimitIsTwoTo256()
    ensures WORD_LIMIT == 0x1_0000000000000000_0000000000000000_0000000000000000_0000000000000000
    ensures WORD_LIMIT == 2 * SIGN_LIMIT
  {
    assert Pow256(4) == 0x1_00000000;
    assert Pow256(8) == 0x1_0000000000000000;
    assert Pow256(12) == 0x1_00000000_0000000000000000;
    assert Pow256(16) == 0x1_0000000000000000_0000000000000000;
    assert Pow256(20) == 0x1_00000000_0000000000000000_0000000000000000;
    assert Pow256(24) == 0x1_0000000000000000_0000000000000000_0000000000000000;
    assert Pow256(28) == 0x1_00000000_0000000000000000_0000000000000000_0000000000000000;
    assert Pow256(31) == 0x1_00000000000000_0000000000000000_0000000000000000_0000000000000000;
  }

  function FromBytes(s: seq<byte>): (n: nat)
    ensures n < Pow256(|s|)
  {
    if s == [] then 0 else FromBytes(s[..|s|-1]) * 256 + s[|s|-1]
  }

  function ToBytes(n: nat, k: nat): (s: seq<byte>)
    ensures |s| == k
  {
    if k == 0 then [] else ToBytes(n / 256, k - 1) + [n % 256]
  }

  lemma {:induction false} FromTo(n: nat, k: nat)
    requires n < Pow256(k)
    ensures FromBytes(ToBytes(n, k)) == n
  {
    if k > 0 {
      FromTo(n / 256, k - 1);
      assert ToBytes(n, k)[..k-1] == ToBytes(n / 256, k - 1);
    }
  }

  lemma LastDigit(q: nat, d: nat)
    requires d < 256
    ensures (q * 256 + d) / 256 == q && (q * 256 + d) % 256 == d
  {
  }

  lemma ToBytesSnoc(q: nat, d: byte, k: nat)
    ensures ToBytes(q * 256 + d, k + 1) == ToBytes(q, k) + [d]
  {
    LastDigit(q, d);
  }

  lemma {:induction false} ToFrom(s: seq<byte>)
    ensures ToBytes(FromBytes(s), |s|) == s
  {
    if s != [] {
      var init, last := s[..|s|-1], s[|s|-1];
      ToFrom(init);
      ToBytesSnoc(FromBytes(init), last, |init|);
      assert s == init + [last];
    }
  }

  lemma {:induction false} PowMonotone(a: nat, b: nat)
    requires a <= b
    ensures Pow256(a) <= Pow256(b)
  {
    if a < b {
      PowMonotone(a, b - 1);
    }
  }

  function Zeros(k: nat): (z: seq<byte>)
    ensures |z| == k && forall i | 0 <= i < k :: z[i] == 0
  {
    seq(k, _ => 0)
  }

  /** Left padding with zero bytes does not change the number. */
  lemma {:induction false} LeftPadKeepsValue(k: nat, s: seq<byte>)
    ensures FromBytes(Zeros(k) + s) == FromBytes(s)
  {
    var padded := Zeros(k) + s;
    if s == [] {
      assert padded == Zeros(k);
      ZerosAreZero(k);
    } else {
      LeftPadKeepsValue(k, s[..|s|-1]);
      assert padded[..|padded|-1] == Zeros(k) + s[..|s|-1];
    }
  }

  lemma {:induction false} ZerosAreZero(k: nat)
    ensures FromBytes(Zeros(k)) == 0
  {
    if k > 0 {
      ZerosAreZero(k - 1);
      assert Zeros(k)[..k-1] == Zeros(k - 1);
    }
  }

  /** A number as a 32-byte word. */
  function Word(n: nat): (w: seq<byte>)
    ensures |w| == 32
  {
    ToBytes(n, 32)
  }

  lemma WordReads(n: nat)
    requires n < WORD_LIMIT
    ensures FromBytes(Word(n)) == n
  {
    FromTo(n, 32);
  }

  lemma WordOfShortBytes(s: seq<byte>)
    requires |s| <= 32
    ensures Zeros(32 - |s|) + s == Word(FromBytes(s))
    ensures FromBytes(s) < WORD_LIMIT
  {
    LeftPadKeepsValue(32 - |s|, s);
    ToFrom(Zeros(32 - |s|) + s);
    PowMonotone(|s|, 32);
  }

  /** Zero bytes that complete the last word. */
  function Padding(n: nat): nat { (32 - n % 32) % 32 }

  function Pad32(s: seq<byte>): seq<byte> { s + Zeros(Padding(|s|)) }

  // ------------------------------------------------------------ signed integers

  function IntWord(v: int): seq<byte>
    requires -WORD_LIMIT <= v
  {
    if v >= 0 then Word(v) else Word(WORD_LIMIT + v)
  }

  function SignedValue(w: nat): int { if w >= SIGN_LIMIT then w - WORD_LIMIT else w }

  predicate IsInt256(v: int) { -SIGN_LIMIT <= v < SIGN_LIMIT }

  lemma Halves()
    ensures WORD_LIMIT == 2 * SIGN_LIMIT && SIGN_LIMIT > 0
  {
    assert Pow256(32) == 256 * Pow256(31);
  }

  /** Two's complement is a bijection between words and signed 256-bit integers. */
  lemma SignedRoundTrip(v: int)
    requires IsInt256(v)
    ensures -WORD_LIMIT <= v && SignedValue(FromBytes(IntWord(v))) == v
  {
    Halves();
    WordReads(if v >= 0 then v else WORD_LIMIT + v);
  }

  lemma UnsignedRoundTrip(n: nat)
    requires n < WORD_LIMIT
    ensures IsInt256(SignedValue(n))
    ensures IntWord(SignedValue(n)) == Word(n)
  {
    Halves();
  }

  lemma WordRoundTrip(w: seq<byte>)
    requires |w| == 32
    ensures IsInt256(SignedValue(FromBytes(w)))
    ensures IntWord(SignedValue(FromBytes(w))) == w
  {
    var n := FromBytes(w);
    UnsignedRoundTrip(n);
    ToFrom(w);
  }

  /** An address as a word: zeros before its 20 bytes. */
  function AddressWord(a: seq<byte>): (w: seq<byte>)
    ensures |a| == 20 ==> |w| == 32 && w[12..] == a
  {
    Zeros(12) + a
  }

  // ------------------------------------------------------------ sequence shapes

  lemma SnocParts<T>(s: seq<T>, x: T)
    ensures (s + [x])[..|s|] == s && (s + [x])[|s|] == x
  {
  }

  lemma WholePrefix<T>(s: seq<T>)
    ensures s[..|s|] == s
  {
  }

  lemma EmptyRight<T>(s: seq<T>)
    ensures s + [] == s
  {
  }

  lemma EmptyLeft<T>(s: seq<T>)
    ensures [] + s == s
  {
  }

  lemma Assoc<T>(a: seq<T>, b: seq<T>, c: seq<T>)
    ensures (a + b) + c == a + (b + c)
  {
  }
}
