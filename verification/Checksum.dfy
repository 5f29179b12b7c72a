/** The Internet checksum in_cksum, and the UDP datagrams udp_write builds. */
module Checksum {
  import opened Common

  type Word16 = x: int | 0 <= x <= 0xffff

  /* ---- Memory as 16-bit words of the host ---- */

  /** Two bytes of memory loaded as a word, on a host of either byte order. */
  function Load(first: Byte, second: Byte, big: bool): Word16 {
    if big then first * 256 + second else second * 256 + first
  }

  /** The bytes a word occupies in memory. */
  function Store(w: Word16, big: bool): (b: seq<Byte>)
    ensures |b| == 2
  {
    if big then [w / 256, w % 256] else [w % 256, w / 256]
  }

  function WordCount(buf: seq<Byte>): nat {
    (|buf| + 1) / 2
  }

  /** The k-th word; an odd last byte counts as if a zero byte followed it. */
  function WordAt(buf: seq<Byte>, big: bool, k: nat): Word16
    requires k < WordCount(buf)
  {
    Load(buf[2 * k], if 2 * k + 1 < |buf| then buf[2 * k + 1] else 0, big)
  }

  /* ---- The algorithm ---- */

  /** `sum += w` in 32 bits. */
  function Add32(sum: nat, w: Word16): (r: nat)
    ensures r < 0x1_0000_0000
  {
    (sum + w) % 0x1_0000_0000
  }

  /** The 32-bit accumulator after `n` words. */
  function Accumulated(buf: seq<Byte>, big: bool, n: nat): (sum: nat)
    requires n <= WordCount(buf)
    ensures sum < 0x1_0000_0000
  {
    if n == 0 then 0
    else Add32(Accumulated(buf, big, n - 1), WordAt(buf, big, n - 1))
  }

  /** The carries folded back twice, the second time without a third look. */
  function Fold(sum: nat): Word16
    requires sum < 0x1_0000_0000
  {
    var s := sum / 0x1_0000 + sum % 0x1_0000;
    (s + s / 0x1_0000) % 0x1_0000
  }

  /** The value of in_cksum: the complement of the folded sum. */
  function Cksum(buf: seq<Byte>, big: bool): Word16 {
    0xffff - Fold(Accumulated(buf, big, WordCount(buf)))
  }

  /** in_cksum, as the loop over words and the odd byte run it. */
  method InCksum(addr: array<Byte>, len: nat, big: bool) returns (answer: Word16)
    requires len <= addr.Length
    ensures answer == Cksum(addr[..len], big)
    ensures len <= 2 * 65537 ==>
              var r := 0xffff - Residue(Weighted(addr[..len], len));
              answer == if big then r else r % 256 * 256 + r / 256
  {
    hide Add32, Load, Fold, Residue, Weighted;
    ghost var buf := addr[..len];
    var nleft, sum, w := len, 0, 0;
    while nleft > 1
      invariant 0 <= nleft <= len && 2 * w + nleft == len
      invariant 0 <= w <= WordCount(buf) && sum == Accumulated(buf, big, w)
    {
      sum := Add32(sum, Load(addr[2 * w], addr[2 * w + 1], big));
      w := w + 1;
      nleft := nleft - 2;
    }
    if nleft == 1 {
      // the byte goes to the first byte of a zeroed word
      sum := Add32(sum, Load(addr[2 * w], 0, big));
    }
    answer := FoldCarries(sum);
    if len <= 2 * 65537 {
      CksumOfBytes(buf);
    }
  }

  /** The end of in_cksum: fold the carries back twice, complement, truncate. */
  method FoldCarries(acc: nat) returns (answer: Word16)
    requires acc < 0x1_0000_0000
    ensures answer == 0xffff - Fold(acc)
  {
    var sum := acc / 0x1_0000 + acc % 0x1_0000;
    sum := sum + sum / 0x1_0000;
    answer := 0xffff - sum % 0x1_0000;
  }

  /* ---- Reference: one's-complement addition word by word ---- */

  /** 16-bit one's-complement addition: the carry comes round to the low end. */
  function OcAdd(a: Word16, b: Word16): Word16 {
    if a + b > 0xffff then a + b - 0xffff else a + b
  }

  function OcSum(buf: seq<Byte>, big: bool, n: nat): Word16
    requires n <= WordCount(buf)
  {
    if n == 0 then 0 else OcAdd(OcSum(buf, big, n - 1), WordAt(buf, big, n - 1))
  }

  /** The checksum of section 2 of RFC 1071. */
  function Rfc1071(buf: seq<Byte>, big: bool): Word16 {
    0xffff - OcSum(buf, big, WordCount(buf))
  }

  /** The plain sum of the words. */
  function Sum(buf: seq<Byte>, big: bool, n: nat): (sum: nat)
    requires n <= WordCount(buf)
    ensures sum <= n * 0xffff
  {
    if n == 0 then 0 else Sum(buf, big, n - 1) + WordAt(buf, big, n - 1)
  }

  /** The representative of `sum` modulo 65535, where only zero itself is 0. */
  function Canonical(sum: nat): Word16 {
    if sum == 0 then 0 else (sum - 1) % 0xffff + 1
  }

  lemma CanonicalAdd(sum: nat, w: Word16)
    ensures Canonical(sum + w) == OcAdd(Canonical(sum), w)
  {
    if sum > 0 && w > 0 {
      var q, r := (sum - 1) / 0xffff, (sum - 1) % 0xffff;
      assert sum - 1 == q * 0xffff + r;
      if r + w >= 0xffff {
        ModUnique(sum + w - 1, q + 1, r + w - 0xffff);
      } else {
        ModUnique(sum + w - 1, q, r + w);
      }
    }
  }

  lemma ModUnique(x: nat, q: nat, r: nat)
    requires x == q * 0xffff + r && r < 0xffff
    ensures x % 0xffff == r
  {
  }

  /** Two folds suffice for every 32-bit sum. */
  lemma FoldIsCanonical(sum: nat)
    requires sum < 0x1_0000_0000
    ensures Fold(sum) == Canonical(sum)
  {
    var h, l := sum / 0x1_0000, sum % 0x1_0000;
    assert sum == h * 0xffff + (h + l);
    if h + l > 0xffff {
      ModUnique(sum - 1, h + 1, h + l - 0xffff - 1);
    } else if sum > 0 {
      ModUnique(sum - 1, h, h + l - 1);
    }
  }

  lemma {:induction false} OcSumIsCanonical(buf: seq<Byte>, big: bool, n: nat)
    requires n <= WordCount(buf)
    ensures OcSum(buf, big, n) == Canonical(Sum(buf, big, n))
  {
    if n > 0 {
      OcSumIsCanonical(buf, big, n - 1);
      CanonicalAdd(Sum(buf, big, n - 1), WordAt(buf, big, n - 1));
    }
  }

  lemma {:induction false} NoOverflow(buf: seq<Byte>, big: bool, n: nat)
    requires n <= WordCount(buf) && n <= 65537
    ensures Accumulated(buf, big, n) == Sum(buf, big, n)
  {
    if n > 0 {
      NoOverflow(buf, big, n - 1);
    }
  }

  /** The deferred-carry algorithm computes the one's-complement checksum. */
  lemma CksumIsRfc1071(buf: seq<Byte>, big: bool)
    requires WordCount(buf) <= 65537
    ensures Cksum(buf, big) == Rfc1071(buf, big)
  {
    var n := WordCount(buf);
    NoOverflow(buf, big, n);
    OcSumIsCanonical(buf, big, n);
    FoldIsCanonical(Sum(buf, big, n));
  }

  /* ---- Exactly how long a buffer the 32-bit accumulator allows ---- */

  ghost predicate CorrectForLength(n: nat) {
    forall buf, big :: WordCount(buf) == n ==> Cksum(buf, big) == Rfc1071(buf, big)
  }

  /** 65538 words of ones, then zeros. */
  function Overflowing(n: nat): seq<Byte> {
    seq(2 * n, k => if k < 2 * 65538 then 255 else 0)
  }

  lemma {:induction false} OnesSum(n: nat, k: nat)
    requires k <= 65538 && 65538 <= n
    ensures k <= WordCount(Overflowing(n))
    ensures k <= 65537 ==> Accumulated(Overflowing(n), true, k) == k * 0xffff
    ensures k == 65538 ==> Accumulated(Overflowing(n), true, k) == 0xfffe
    ensures OcSum(Overflowing(n), true, k) == if k == 0 then 0 else 0xffff
  {
    if k > 0 {
      OnesSum(n, k - 1);
      assert WordAt(Overflowing(n), true, k - 1) == 0xffff;
    }
  }

  lemma {:induction false} ZerosAfter(n: nat, k: nat)
    requires 65538 <= k <= n
    ensures Accumulated(Overflowing(n), true, k) == 0xfffe
    ensures OcSum(Overflowing(n), true, k) == 0xffff
  {
    if k == 65538 {
      OnesSum(n, k);
    } else {
      ZerosAfter(n, k - 1);
      assert WordAt(Overflowing(n), true, k - 1) == 0;
    }
  }

  /** in_cksum is right for every buffer of `n` words exactly when n <= 65537. */
  lemma CorrectLengths(n: nat)
    ensures CorrectForLength(n) <==> n <= 65537
  {
    if n <= 65537 {
      forall buf, big | WordCount(buf) == n
        ensures Cksum(buf, big) == Rfc1071(buf, big)
      {
        CksumIsRfc1071(buf, big);
      }
    } else {
      var buf := Overflowing(n);
      assert WordCount(buf) == n;
      ZerosAfter(n, n);
      FoldIsCanonical(0xfffe);
      assert Cksum(buf, true) != Rfc1071(buf, true);
    }
  }

  /* ---- Storing the checksum in the buffer it covers ---- */

  /** `buf` with the word at index `k` overwritten. */
  function WithWord(buf: seq<Byte>, k: nat, w: Word16, big: bool): (b: seq<Byte>)
    requires 2 * k + 1 < |buf|
    ensures |b| == |buf| && b[2 * k..2 * k + 2] == Store(w, big)
    ensures forall i :: 0 <= i < |buf| && i != 2 * k && i != 2 * k + 1 ==> b[i] == buf[i]
  {
    buf[2 * k := Store(w, big)[0]][2 * k + 1 := Store(w, big)[1]]
  }

  lemma StoredWord(buf: seq<Byte>, k: nat, w: Word16, big: bool)
    requires 2 * k + 1 < |buf|
    ensures WordAt(WithWord(buf, k, w, big), big, k) == w
  {
  }

  lemma {:induction false} SumWithWord(buf: seq<Byte>, k: nat, w: Word16, big: bool, n: nat)
    requires 2 * k + 1 < |buf| && WordAt(buf, big, k) == 0 && n <= WordCount(buf)
    ensures Sum(WithWord(buf, k, w, big), big, n) == Sum(buf, big, n) + if k < n then w else 0
  {
    if n > 0 {
      SumWithWord(buf, k, w, big, n - 1);
      if n - 1 == k {
        StoredWord(buf, k, w, big);
      }
    }
  }

  /** Filling a zeroed even-offset field with the checksum of the buffer makes
      the checksum of the whole zero; so does 0xffff in place of 0. */
  lemma FieldVerifies(buf: seq<Byte>, k: nat, big: bool)
    requires 2 * k + 1 < |buf| && WordAt(buf, big, k) == 0 && WordCount(buf) <= 65537
    ensures var c := Cksum(buf, big);
            && Cksum(WithWord(buf, k, c, big), big) == 0
            && (c == 0 ==> Cksum(WithWord(buf, k, 0xffff, big), big) == 0)
  {
    hide Canonical, Sum, Accumulated, Fold;
    var n := WordCount(buf);
    CksumIsRfc1071(buf, big);
    OcSumIsCanonical(buf, big, n);
    var c := Cksum(buf, big);
    forall w: Word16 | w == c || w == 0xffff
      ensures Cksum(WithWord(buf, k, w, big), big) == 0xffff - OcAdd(OcSum(buf, big, n), w)
    {
      var b := WithWord(buf, k, w, big);
      CksumIsRfc1071(b, big);
      OcSumIsCanonical(b, big, n);
      SumWithWord(buf, k, w, big, n);
      CanonicalAdd(Sum(buf, big, n), w);
    }
  }

  /* ---- Byte order ---- */

  function Swap(w: Word16): Word16 {
    w % 256 * 256 + w / 256
  }

  lemma SwapAdd(a: Word16, b: Word16)
    ensures Swap(OcAdd(a, b)) == OcAdd(Swap(a), Swap(b))
  {
    var ah, al, bh, bl := a / 256, a % 256, b / 256, b % 256;
    assert a == ah * 256 + al && b == bh * 256 + bl;
    var carry := if al + bl > 255 then 1 else 0;
    var high := ah + bh + carry;
    var low := al + bl - 256 * carry;
    assert a + b == high * 256 + low;
    if a + b > 0xffff {
      SplitWord(a + b - 0xffff, if low == 255 then high - 255 else high - 256, if low == 255 then 0 else low + 1);
    } else {
      SplitWord(a + b, high, low);
    }
  }

  lemma SplitWord(w: nat, h: nat, l: nat)
    requires w == h * 256 + l && l < 256
    ensures w / 256 == h && w % 256 == l
  {
  }

  lemma {:induction false} OcSumSwapped(buf: seq<Byte>, n: nat)
    requires n <= WordCount(buf)
    ensures OcSum(buf, true, n) == Swap(OcSum(buf, false, n))
  {
    if n > 0 {
      OcSumSwapped(buf, n - 1);
      SwapAdd(OcSum(buf, false, n - 1), WordAt(buf, false, n - 1));
      SwapLoad(buf, n - 1);
    }
  }

  lemma SwapLoad(buf: seq<Byte>, k: nat)
    requires k < WordCount(buf)
    ensures WordAt(buf, true, k) == Swap(WordAt(buf, false, k))
  {
    var first: int, second: int := buf[2 * k], if 2 * k + 1 < |buf| then buf[2 * k + 1] else 0;
    SplitWord(WordAt(buf, false, k), second, first);
  }

  /** Hosts of opposite byte order compute byte-swapped checksums, and so store
      the same two bytes, for odd lengths too. */
  lemma ByteOrderIndependent(buf: seq<Byte>)
    requires WordCount(buf) <= 65537
    ensures Cksum(buf, true) == Swap(Cksum(buf, false))
    ensures Store(Cksum(buf, true), true) == Store(Cksum(buf, false), false)
  {
    CksumIsRfc1071(buf, true);
    CksumIsRfc1071(buf, false);
    OcSumSwapped(buf, WordCount(buf));
    var s := OcSum(buf, false, WordCount(buf));
    SplitWord(0xffff - s, 255 - s / 256, 255 - s % 256);
    SplitWord(Swap(0xffff - s), 255 - s % 256, 255 - s / 256);
  }

  /* ---- The checksum in terms of the bytes ---- */

  /** Bytes at even positions weigh 256, those at odd positions 1. */
  function Weighted(buf: seq<Byte>, n: nat): nat
    requires n <= |buf|
  {
    if n == 0 then 0 else Weighted(buf, n - 1) + (if n % 2 == 1 then 256 * (buf[n - 1] as int) else buf[n - 1])
  }

  /** `x` modulo 65535, except that only 0 itself gives 0. */
  function Residue(x: nat): (r: nat)
    ensures r <= 0xffff
  {
    if x > 0 && x % 0xffff == 0 then 0xffff else x % 0xffff
  }

  lemma {:induction false} SumIsWeighted(buf: seq<Byte>, n: nat)
    requires n <= WordCount(buf)
    ensures Sum(buf, true, n) == Weighted(buf, if 2 * n <= |buf| then 2 * n else |buf|)
  {
    if n > 0 {
      SumIsWeighted(buf, n - 1);
      var k := 2 * (n - 1);
      assert Weighted(buf, k + 1) == Weighted(buf, k) + 256 * (buf[k] as int);
      if k + 1 < |buf| {
        assert Weighted(buf, k + 2) == Weighted(buf, k + 1) + buf[k + 1];
      }
    }
  }

  lemma ResidueIsCanonical(x: nat)
    ensures Canonical(x) == Residue(x)
  {
    if x > 0 {
      var q, r := x / 0xffff, x % 0xffff;
      assert x == q * 0xffff + r;
      if r == 0 {
        ModUnique(x - 1, q - 1, 0xfffe);
      } else {
        ModUnique(x - 1, q, r - 1);
      }
    }
  }

  /** The bytes the checksum stores, most significant first, are the complement of the
      residue of the weighted sum of the bytes, an odd last one weighing 256; on a
      host of either byte order. */
  lemma CksumOfBytes(buf: seq<Byte>)
    requires |buf| <= 2 * 65537
    ensures var r := 0xffff - Residue(Weighted(buf, |buf|));
            && Cksum(buf, true) == r && Cksum(buf, false) == r % 256 * 256 + r / 256
  {
    hide Canonical, Residue, Sum, Weighted;
    var n := WordCount(buf);
    CksumIsRfc1071(buf, true);
    OcSumIsCanonical(buf, true, n);
    SumIsWeighted(buf, n);
    ResidueIsCanonical(Weighted(buf, |buf|));
    ByteOrderIndependent(buf);
    SwapBack(Cksum(buf, false));
  }

  lemma SwapBack(w: Word16)
    ensures Swap(Swap(w)) == w
  {
    SplitWord(Swap(w), w % 256, w / 256);
  }

  /** What Load and Store mean: the first byte in memory is the most significant one of
      a big-endian host and the least significant one of any other. */
  lemma StoreOfLoad(a: Byte, b: Byte, big: bool)
    ensures Store(Load(a, b, big), big) == [a, b]
    ensures Load(a, b, true) == 256 * a + b && Load(a, b, false) == a + 256 * b
  {
    SplitWord(256 * a + b, a, b);
    SplitWord(256 * b + a, b, a);
  }

  /** An odd buffer is summed as if a zero byte followed it. */
  lemma ZeroPadding(buf: seq<Byte>, big: bool)
    requires |buf| % 2 == 1 && |buf| <= 2 * 65537
    ensures Cksum(buf + [0], big) == Cksum(buf, big)
  {
    hide Residue, Cksum, Weighted;
    CksumOfBytes(buf);
    CksumOfBytes(buf + [0]);
    ZeroWeighsNothing(buf);
  }

  lemma ZeroWeighsNothing(buf: seq<Byte>)
    ensures Weighted(buf + [0], |buf| + 1) == Weighted(buf, |buf|)
  {
    SameWeight(buf, [0], |buf|);
  }

  lemma {:induction false} SameWeight(buf: seq<Byte>, more: seq<Byte>, n: nat)
    requires n <= |buf|
    ensures Weighted(buf + more, n) == Weighted(buf, n)
  {
    if n > 0 {
      SameWeight(buf, more, n - 1);
    }
  }

}
