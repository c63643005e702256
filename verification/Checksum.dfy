/** The packet checksum: native-order words are summed and the result's bytes swapped, and that is
    the big-endian Internet checksum of RFC 1071, section 1, on a little-endian host. */
module Checksum {
  type Byte = b: int | 0 <= b < 256

  /** The most words whose sum two foldings bring back into 16 bits. */
  const MAX_WORDS := 65537

  // ----- RFC 1071 -----

  /** One's complement addition of 16-bit words. */
  function OnesAdd(a: nat, b: nat): (c: nat)
    requires a < 65536 && b < 65536
    ensures c < 65536 && (c == 0 <==> a == 0 && b == 0)
    ensures a + b == c || a + b == c + 65535
  {
    if a + b < 65536 then a + b else a + b - 65535
  }

  function Word(littleEndian: bool, first: Byte, second: Byte): (w: nat)
    ensures w < 65536 && (w == 0 <==> first == 0 && second == 0)
  {
    var a: int, b: int := first, second;
    if littleEndian then a + 256 * b else 256 * a + b
  }

  /** Words in network order, added with end-around carry. */
  function OnesSum(pkt: seq<Byte>): (s: nat)
    requires |pkt| % 2 == 0
    ensures s < 65536
  {
    if pkt == [] then 0
    else OnesAdd(OnesSum(pkt[..|pkt| - 2]), Word(false, pkt[|pkt| - 2], pkt[|pkt| - 1]))
  }

  function Rfc1071(pkt: seq<Byte>): (c: nat)
    requires |pkt| % 2 == 0
    ensures c < 65536
  {
    65535 - OnesSum(pkt)
  }

  // ----- The program -----

  /** The sum of native-order words. */
  function NativeSum(littleEndian: bool, pkt: seq<Byte>): nat
    requires |pkt| % 2 == 0
  {
    if pkt == [] then 0
    else NativeSum(littleEndian, pkt[..|pkt| - 2]) + Word(littleEndian, pkt[|pkt| - 2], pkt[|pkt| - 1])
  }

  function Fold(s: nat): (f: nat)
    ensures f < 65536
  {
    var t := s / 65536 + s % 65536;
    (t + t / 65536) % 65536
  }

  function Swap(x: nat): nat {
    x % 256 * 256 + x / 256
  }

  method Sum(littleEndian: bool, pkt: seq<Byte>) returns (s: nat)
    requires |pkt| % 2 == 0
    ensures s == NativeSum(littleEndian, pkt)
  {
    s := 0;
    for k := 0 to |pkt| / 2
      invariant s == NativeSum(littleEndian, pkt[..2 * k])
    {
      assert pkt[..2 * (k + 1)][..2 * k] == pkt[..2 * k];
      s := s + Word(littleEndian, pkt[2 * k], pkt[2 * k + 1]);
    }
    assert pkt[..2 * (|pkt| / 2)] == pkt;
  }

  /** On a little-endian host the checksum is that of RFC 1071; on a big-endian one its bytes are
      swapped. The complement is negative, and shifting it rounds down, as Euclidean division does. */
  method Compute(littleEndian: bool, pkt: seq<Byte>) returns (c: int)
    requires |pkt| % 2 == 0 && |pkt| <= 2 * MAX_WORDS
    ensures c == Computed(littleEndian, pkt)
    ensures c == if littleEndian then Rfc1071(pkt) else Swap(Rfc1071(pkt))
  {
    var s := Sum(littleEndian, pkt);
    s := FoldTwice(s);
    c := Finish(s);
    FinishedIsRfc1071(littleEndian, pkt);
  }

  method FoldTwice(sum: nat) returns (s: nat)
    ensures s % 65536 == Fold(sum)
  {
    s := sum / 65536 + sum % 65536;
    s := s + s / 65536;
  }

  /** Complement, and swap the two bytes. */
  method Finish(sum: int) returns (c: int)
    requires sum >= 0
    ensures c == Swap(65535 - sum % 65536)
  {
    var s := -sum - 1;
    c := ((s / 256) % 256 + s * 256) % 65536;
    SwappedComplement(sum);
  }

  /** What the program computes on a host of either byte order. */
  function Computed(littleEndian: bool, pkt: seq<Byte>): nat
    requires |pkt| % 2 == 0
  {
    Swap(65535 - Fold(NativeSum(littleEndian, pkt)))
  }

  /** A little-endian host always computes the checksum of RFC 1071, and a big-endian one exactly
      when both bytes of it are the same. */
  lemma HostsAgree(pkt: seq<Byte>)
    requires |pkt| % 2 == 0 && |pkt| <= 2 * MAX_WORDS
    ensures Computed(true, pkt) == Rfc1071(pkt)
    ensures Computed(false, pkt) == Rfc1071(pkt) <==> Rfc1071(pkt) % 256 == Rfc1071(pkt) / 256
  {
    FinishedIsRfc1071(true, pkt);
    FinishedIsRfc1071(false, pkt);
  }

  /** A packet on whose checksum a big-endian host and a little-endian one do not agree. */
  lemma BigEndianFails()
    ensures Computed(false, [0, 1]) != Rfc1071([0, 1]) == Computed(true, [0, 1])
  {
    HostsAgree([0, 1]);
    assert [0, 1][..0] == [];
    assert OnesSum([0, 1]) == OnesAdd(OnesSum([]), Word(false, 0, 1)) == 1;
  }

  // ----- Arithmetic -----

  lemma DivideBy256(a: int, q: int, r: int)
    requires a == 256 * q + r && 0 <= r < 256
    ensures a / 256 == q && a % 256 == r
  {
  }

  lemma RestBy65536(a: int, q: int, r: int)
    requires a == 65536 * q + r && 0 <= r < 65536
    ensures a % 65536 == r
  {
  }

  /** The last line of the program swaps the bytes of the complement. */
  lemma SwappedComplement(s: int)
    requires s >= 0
    ensures ((-s - 1) / 256 % 256 + (-s - 1) * 256) % 65536 == Swap(65535 - s % 65536)
  {
    var h, m, l := s / 65536, s % 65536 / 256, s % 256;
    assert s % 65536 == 256 * m + l;
    DivideBy256(-s - 1, -256 * (h + 1) + 255 - m, 255 - l);
    DivideBy256(-256 * (h + 1) + 255 - m, -(h + 1), 255 - m);
    RestBy65536(255 - m + (-s - 1) * 256, -256 * (h + 1) + 255 - m, 256 * (255 - l) + 255 - m);
    DivideBy256(65535 - s % 65536, 255 - m, 255 - l);
  }

  lemma SwapComplement(x: nat)
    requires x < 65536
    ensures Swap(65535 - x) == 65535 - Swap(x) && Swap(Swap(x)) == x && Swap(x) < 65536 && (Swap(x) == 0 <==> x == 0)
  {
    DivideBy256(65535 - x, 255 - x / 256, 255 - x % 256);
    DivideBy256(Swap(x), x % 256, x / 256);
  }

  lemma SwapsCancel(x: nat)
    requires x < 65536
    ensures Swap(65535 - Swap(x)) == 65535 - x
  {
    SwapComplement(x);
    SwapComplement(Swap(x));
  }

  lemma FinishedIsRfc1071(littleEndian: bool, pkt: seq<Byte>)
    requires |pkt| % 2 == 0 && |pkt| <= 2 * MAX_WORDS
    ensures Computed(littleEndian, pkt) == if littleEndian then Rfc1071(pkt) else Swap(Rfc1071(pkt))
  {
    FoldIsOnesSum(littleEndian, pkt);
    SwapsCancel(OnesSum(pkt));
  }

  // ----- Everything is the same modulo 65535 -----

  lemma {:induction false} OnesSumCongruent(pkt: seq<Byte>) returns (k: nat)
    requires |pkt| % 2 == 0
    ensures NativeSum(false, pkt) == OnesSum(pkt) + 65535 * k
    ensures OnesSum(pkt) == 0 <==> NativeSum(false, pkt) == 0
  {
    k := 0;
    if pkt != [] {
      k := OnesSumCongruent(pkt[..|pkt| - 2]);
      if OnesSum(pkt[..|pkt| - 2]) + Word(false, pkt[|pkt| - 2], pkt[|pkt| - 1]) >= 65536 {
        k := k + 1;
      }
    }
  }

  lemma {:induction false} OrdersCongruent(pkt: seq<Byte>) returns (k: nat)
    requires |pkt| % 2 == 0
    ensures 256 * NativeSum(true, pkt) == NativeSum(false, pkt) + 65535 * k
    ensures NativeSum(true, pkt) == 0 <==> NativeSum(false, pkt) == 0
  {
    k := 0;
    if pkt != [] {
      k := OrdersCongruent(pkt[..|pkt| - 2]);
      k := k + pkt[|pkt| - 1];
    }
  }

  lemma {:induction false} SumIsBounded(littleEndian: bool, pkt: seq<Byte>)
    requires |pkt| % 2 == 0
    ensures NativeSum(littleEndian, pkt) <= 65535 * (|pkt| / 2)
  {
    if pkt != [] {
      SumIsBounded(littleEndian, pkt[..|pkt| - 2]);
    }
  }

  lemma FoldCongruent(s: nat) returns (k: nat)
    requires s <= 65535 * MAX_WORDS
    ensures s == Fold(s) + 65535 * k && Fold(s) < 65536 && (Fold(s) == 0 <==> s == 0)
  {
    var t := s / 65536 + s % 65536;
    k := s / 65536 + t / 65536;
    RestBy65536(t + t / 65536, t / 65536, t - 65535 * (t / 65536));
  }

  lemma SwapCongruent(x: nat)
    ensures 256 * x == Swap(x) + 65535 * (x / 256)
  {
  }

  /** Two sums in 16 bits that differ by a multiple of 65535, and are zero together, are equal. */
  lemma SameSum(x: nat, y: nat, k: int)
    requires x < 65536 && y < 65536 && x - y == 65535 * k && (x == 0 <==> y == 0)
    ensures x == y
  {
  }

  lemma FoldIsOnesSum(littleEndian: bool, pkt: seq<Byte>)
    requires |pkt| % 2 == 0 && |pkt| <= 2 * MAX_WORDS
    ensures Fold(NativeSum(littleEndian, pkt)) == if littleEndian then Swap(OnesSum(pkt)) else OnesSum(pkt)
  {
    SumIsBounded(littleEndian, pkt);
    var s := NativeSum(littleEndian, pkt);
    var f := FoldCongruent(s);
    var o := OnesSumCongruent(pkt);
    if littleEndian {
      var e := OrdersCongruent(pkt);
      SwapCongruent(Fold(s));
      SwapComplement(Fold(s));
      SameSum(Swap(Fold(s)), OnesSum(pkt), e + o - 256 * f - Fold(s) / 256);
    } else {
      SameSum(Fold(s), OnesSum(pkt), o - f);
    }
  }
}
