/** udp_write: an IP/UDP datagram built in a buffer, checksum first. */
module UdpWrite {
  import opened Common
  import opened Checksum

  /** A socket address: four address bytes and two port bytes, in network order. */
  datatype Endpoint = Endpoint(addr: seq<Byte>, port: seq<Byte>)

  predicate ValidEndpoint(e: Endpoint) {
    |e.addr| == 4 && |e.port| == 2
  }

  /** htons of a value cut to 16 bits, as it lies in memory. */
  function Net16(v: nat): (b: seq<Byte>)
    ensures |b| == 2
  {
    [v / 256 % 256, v % 256]
  }

  /** The `udpiphdr` and the data when in_cksum runs: zeros, the protocol, the
      UDP length twice, the endpoints, and the checksum field `sum`. */
  function Overlay(local: Endpoint, dest: Endpoint, sum: seq<Byte>, data: seq<Byte>): (b: seq<Byte>)
    requires ValidEndpoint(local) && ValidEndpoint(dest) && |sum| == 2
    ensures |b| == 28 + |data|
  {
    [0, 0, 0, 0, 0, 0, 0, 0, 0, 17] + Net16(8 + |data|) + local.addr + dest.addr
    + Udp(local, dest, sum, data)
  }

  /** The UDP header and the data. */
  function Udp(local: Endpoint, dest: Endpoint, sum: seq<Byte>, data: seq<Byte>): (b: seq<Byte>)
    requires ValidEndpoint(local) && ValidEndpoint(dest) && |sum| == 2
    ensures |b| == 8 + |data|
  {
    local.port + dest.port + Net16(8 + |data|) + sum + data
  }

  /** The bytes stored in the checksum field. */
  function SumField(local: Endpoint, dest: Endpoint, data: seq<Byte>, zerosum: bool, big: bool): (b: seq<Byte>)
    requires ValidEndpoint(local) && ValidEndpoint(dest)
    ensures |b| == 2
  {
    if zerosum then [0, 0]
    else
      var c := Cksum(Overlay(local, dest, [0, 0], data), big);
      Store(if c == 0 then 0xffff else c, big)
  }

  /** Version, header length, service type, length, id, offset, and a TTL of 64. */
  function IpStart(total: nat, netOrder: bool, big: bool): (b: seq<Byte>)
    ensures |b| == 9
  {
    [0x45, 0] + (if netOrder then Net16(total) else Store(total % 0x1_0000, big)) + [0, 0, 0, 0, 64]
  }

  /** The datagram handed to sendto: the IP header is filled in last.  The IP
      length is in network order on Linux and OpenBSD, in host order elsewhere;
      the IP checksum field still holds the UDP length. */
  function Datagram(local: Endpoint, dest: Endpoint, data: seq<Byte>, zerosum: bool, netOrder: bool, big: bool): (b: seq<Byte>)
    requires ValidEndpoint(local) && ValidEndpoint(dest)
    ensures |b| == 28 + |data|
  {
    IpStart(28 + |data|, netOrder, big) + [17] + Net16(8 + |data|) + local.addr + dest.addr
    + Udp(local, dest, SumField(local, dest, data, zerosum, big), data)
  }

  /** The fields of the datagram, byte by byte (RFC 791, section 3.1, and RFC 768);
      the IP length is in network order or in the host's. */
  ghost predicate HasFields(p: seq<Byte>, local: Endpoint, dest: Endpoint, data: seq<Byte>, netOrder: bool, big: bool) {
    && |p| == 28 + |data|
    && p[0] == 4 * 16 + 5 && p[1] == 0
    && (if netOrder || big then 256 * (p[2] as int) + p[3] else p[2] + 256 * (p[3] as int)) == |p| % 0x1_0000
    && p[4] == p[5] == p[6] == p[7] == 0 && p[8] == 64 && p[9] == 17
    && p[12..16] == local.addr && p[16..20] == dest.addr
    && p[20..22] == local.port && p[22..24] == dest.port
    && 256 * (p[24] as int) + p[25] == (8 + |data|) % 0x1_0000
    && p[28..] == data
  }

  lemma Net16Value(v: nat)
    ensures 256 * (Net16(v)[0] as int) + Net16(v)[1] == v % 0x1_0000
  {
    var q, r := v / 0x1_0000, v % 0x1_0000;
    assert v == q * 0x1_0000 + r && r == r / 256 * 256 + r % 256;
    assert v / 256 == q * 256 + r / 256;
    assert v % 256 == r % 256;
  }

  lemma StoreValue(w: Word16, big: bool)
    ensures if big then 256 * (Store(w, big)[0] as int) + Store(w, big)[1] == w
            else Store(w, big)[0] + 256 * (Store(w, big)[1] as int) == w
  {
  }

  lemma DatagramHasFields(local: Endpoint, dest: Endpoint, data: seq<Byte>, zerosum: bool, netOrder: bool, big: bool)
    requires ValidEndpoint(local) && ValidEndpoint(dest)
    ensures HasFields(Datagram(local, dest, data, zerosum, netOrder, big), local, dest, data, netOrder, big)
  {
    hide SumField, Net16, Store, Udp, IpStart;
    var start, udp := IpStart(28 + |data|, netOrder, big), Udp(local, dest, SumField(local, dest, data, zerosum, big), data);
    var p := Datagram(local, dest, data, zerosum, netOrder, big);
    IpStartFields(28 + |data|, netOrder, big);
    UdpFields(local, dest, SumField(local, dest, data, zerosum, big), data);
    assert forall k :: 0 <= k < 9 ==> p[k] == start[k];
    assert p[20..] == udp;
    assert forall k :: 0 <= k < |udp| ==> p[20 + k] == udp[k];
    assert p[20..22] == udp[0..2] && p[22..24] == udp[2..4] && p[28..] == udp[8..];
  }

  lemma IpStartFields(total: nat, netOrder: bool, big: bool)
    ensures var s := IpStart(total, netOrder, big);
            && s[0] == 4 * 16 + 5 && s[1] == 0 && s[4] == s[5] == s[6] == s[7] == 0 && s[8] == 64
            && (if netOrder || big then 256 * (s[2] as int) + s[3] else s[2] + 256 * (s[3] as int)) == total % 0x1_0000
  {
    hide Net16, Store;
    Net16Value(total);
    StoreValue(total % 0x1_0000, big);
  }

  lemma UdpFields(local: Endpoint, dest: Endpoint, sum: seq<Byte>, data: seq<Byte>)
    requires ValidEndpoint(local) && ValidEndpoint(dest) && |sum| == 2
    ensures var u := Udp(local, dest, sum, data);
            && u[0..2] == local.port && u[2..4] == dest.port && u[8..] == data
            && 256 * (u[4] as int) + u[5] == (8 + |data|) % 0x1_0000
  {
    hide Net16;
    Net16Value(8 + |data|);
  }

  /* ---- The C routine ---- */

  /** memcpy of `v` to `buf + at`. */
  method Put(buf: array<Byte>, at: nat, v: seq<Byte>)
    requires at + |v| <= buf.Length
    modifies buf
    ensures forall k :: 0 <= k < buf.Length ==>
              buf[k] == if at <= k < at + |v| then v[k - at] else old(buf[k])
  {
    for i := 0 to |v|
      invariant forall k :: 0 <= k < buf.Length ==>
                  buf[k] == if at <= k < at + i then v[k - at] else old(buf[k])
    {
      buf[at + i] := v[i];
    }
  }

  /** The fields that precede the checksum. */
  method FillOverlay(buf: array<Byte>, userlen: nat, local: Endpoint, dest: Endpoint)
    requires ValidEndpoint(local) && ValidEndpoint(dest) && 28 + userlen <= buf.Length
    modifies buf
    ensures buf[..] == Overlay(local, dest, [0, 0], old(buf[28..28 + userlen])) + old(buf[28 + userlen..])
  {
    ghost var data, rest := buf[28..28 + userlen], buf[28 + userlen..];
    assert buf[28..] == data + rest;
    Put(buf, 0, seq(28, _ => 0));
    assert buf[28..] == data + rest;
    var uiLen := Net16(8 + userlen);
    FillIpPart(buf, uiLen, local, dest);
    assert buf[28..] == buf[20..][8..] == data + rest;
    FillUdpPart(buf, uiLen, local, dest);
    assert buf[..] == buf[..20] + buf[20..28] + buf[28..];
  }

  method FillIpPart(buf: array<Byte>, uiLen: seq<Byte>, local: Endpoint, dest: Endpoint)
    requires ValidEndpoint(local) && ValidEndpoint(dest) && 20 <= buf.Length && |uiLen| == 2
    requires forall k :: 0 <= k < 20 ==> buf[k] == 0
    modifies buf
    ensures buf[..20] == [0, 0, 0, 0, 0, 0, 0, 0, 0, 17] + uiLen + local.addr + dest.addr
    ensures buf[20..] == old(buf[20..])
  {
    Put(buf, 10, uiLen);
    Put(buf, 9, [17]);
    Put(buf, 12, local.addr);
    Put(buf, 16, dest.addr);
  }

  method FillUdpPart(buf: array<Byte>, uiLen: seq<Byte>, local: Endpoint, dest: Endpoint)
    requires ValidEndpoint(local) && ValidEndpoint(dest) && 28 <= buf.Length && |uiLen| == 2
    requires buf[26] == 0 && buf[27] == 0
    modifies buf
    ensures buf[20..28] == local.port + dest.port + uiLen + [0, 0]
    ensures buf[..20] == old(buf[..20]) && buf[28..] == old(buf[28..])
  {
    Put(buf, 20, local.port);
    Put(buf, 22, dest.port);
    Put(buf, 24, uiLen);
  }

  /** The checksum, with 0xffff standing in for zero. */
  method FillSum(buf: array<Byte>, total: nat, big: bool, ghost local: Endpoint, ghost dest: Endpoint, ghost data: seq<Byte>)
    requires ValidEndpoint(local) && ValidEndpoint(dest) && 28 + |data| == total <= buf.Length
    requires buf[..total] == Overlay(local, dest, [0, 0], data)
    modifies buf
    ensures buf[..total] == Overlay(local, dest, SumField(local, dest, data, false, big), data)
    ensures buf[total..] == old(buf[total..])
  {
    var sum := InCksum(buf, total, big);
    if sum == 0 {
      sum := 0xffff;
    }
    ghost var before := buf[..total];
    Put(buf, 26, Store(sum, big));
    WithField(local, dest, [0, 0], Store(sum, big), data);
    assert buf[..total] == before[..26] + Store(sum, big) + before[28..];
  }

  lemma WithField(local: Endpoint, dest: Endpoint, sum: seq<Byte>, other: seq<Byte>, data: seq<Byte>)
    requires ValidEndpoint(local) && ValidEndpoint(dest) && |sum| == |other| == 2
    ensures var a := Overlay(local, dest, sum, data);
            Overlay(local, dest, other, data) == a[..26] + other + a[28..]
  {
    hide Net16;
  }

  /** The rest of the IP header. */
  method FillIp(buf: array<Byte>, total: nat, netOrder: bool, big: bool)
    requires 28 <= total <= buf.Length
    modifies buf
    ensures buf[..10] == IpStart(total, netOrder, big) + old(buf[9..10])
    ensures buf[10..] == old(buf[10..])
  {
    Put(buf, 0, [0x45, 0]);
    Put(buf, 2, if netOrder then Net16(total) else Store(total % 0x1_0000, big));
    Put(buf, 4, [0, 0, 0, 0, 64]);
  }

  /** udp_write, up to the call of sendto. */
  method UdpWrite(buf: array<Byte>, userlen: nat, local: Endpoint, dest: Endpoint,
                  zerosum: bool, netOrder: bool, big: bool)
    requires ValidEndpoint(local) && ValidEndpoint(dest) && 28 + userlen <= buf.Length
    modifies buf
    ensures buf[..] == Datagram(local, dest, old(buf[28..28 + userlen]), zerosum, netOrder, big)
                       + old(buf[28 + userlen..])
    ensures HasFields(buf[..28 + userlen], local, dest, old(buf[28..28 + userlen]), netOrder, big)
  {
    hide Overlay, Datagram, SumField, IpStart, Udp, HasFields;
    ghost var data, rest := buf[28..28 + userlen], buf[28 + userlen..];
    FillOverlay(buf, userlen, local, dest);
    var total := userlen + 28;
    SplitAt(buf[..], Overlay(local, dest, [0, 0], data), rest);
    if !zerosum {
      FillSum(buf, total, big, local, dest, data);
    } else {
      NoSum(local, dest, data, big);
    }
    ghost var before := Overlay(local, dest, SumField(local, dest, data, zerosum, big), data);
    SplitAt(buf[..], before, rest);
    OverlayProtocol(local, dest, SumField(local, dest, data, zerosum, big), data);
    FillIp(buf, total, netOrder, big);
    DatagramFromOverlay(local, dest, data, zerosum, netOrder, big);
    assert buf[..] == IpStart(total, netOrder, big) + [17] + before[10..] + rest;
    DatagramHasFields(local, dest, data, zerosum, netOrder, big);
    SplitAt(buf[..], Datagram(local, dest, data, zerosum, netOrder, big), rest);
  }

  lemma SplitAt(s: seq<Byte>, a: seq<Byte>, b: seq<Byte>)
    requires s == a + b || (|s| == |a| + |b| && s[..|a|] == a && s[|a|..] == b)
    ensures |s| == |a| + |b| && s[..|a|] == a && s[|a|..] == b && s == a + b
  {
  }

  lemma NoSum(local: Endpoint, dest: Endpoint, data: seq<Byte>, big: bool)
    requires ValidEndpoint(local) && ValidEndpoint(dest)
    ensures SumField(local, dest, data, true, big) == [0, 0]
  {
  }

  lemma OverlayProtocol(local: Endpoint, dest: Endpoint, sum: seq<Byte>, data: seq<Byte>)
    requires ValidEndpoint(local) && ValidEndpoint(dest) && |sum| == 2
    ensures Overlay(local, dest, sum, data)[9] == 17
  {
    hide Net16, Udp;
  }

  lemma DatagramFromOverlay(local: Endpoint, dest: Endpoint, data: seq<Byte>, zerosum: bool, netOrder: bool, big: bool)
    requires ValidEndpoint(local) && ValidEndpoint(dest)
    ensures var a := Overlay(local, dest, SumField(local, dest, data, zerosum, big), data);
            Datagram(local, dest, data, zerosum, netOrder, big) == IpStart(|a|, netOrder, big) + [17] + a[10..]
  {
    hide Net16, Store, SumField, Udp;
  }

  /* ---- What the receiver computes ---- */

  /** Source, destination, zero, protocol, UDP length, then the UDP datagram:
      what the Checksum field of RFC 768 covers, read off a received packet. */
  function PseudoHeader(p: seq<Byte>): (b: seq<Byte>)
    requires |p| >= 28
  {
    p[12..20] + [0, p[9]] + p[24..26] + p[20..]
  }

  /** The words of the overlay are those of the pseudo-header, four zeros aside. */
  lemma {:induction false} SameTail(a: seq<Byte>, b: seq<Byte>, big: bool, n: nat)
    requires |b| + 8 == |a| && 6 <= n <= WordCount(b)
    requires forall k :: 12 <= k < |b| ==> b[k] == a[k + 8]
    ensures Sum(a, big, n + 4) - Sum(a, big, 10) == Sum(b, big, n) - Sum(b, big, 6)
  {
    if n > 6 {
      SameTail(a, b, big, n - 1);
      assert b[2 * (n - 1)] == a[2 * (n - 1) + 8];
      assert 2 * n - 1 < |b| ==> b[2 * n - 1] == a[2 * n - 1 + 8];
      assert WordAt(b, big, n - 1) == WordAt(a, big, n + 3);
    }
  }

  lemma SumOfSix(b: seq<Byte>, big: bool)
    requires |b| >= 12
    ensures Sum(b, big, 6) == WordAt(b, big, 0) + WordAt(b, big, 1) + WordAt(b, big, 2)
                              + WordAt(b, big, 3) + WordAt(b, big, 4) + WordAt(b, big, 5)
  {
    hide WordAt;
    assert Sum(b, big, 0) == 0;
    assert Sum(b, big, 1) == WordAt(b, big, 0);
    assert Sum(b, big, 2) == Sum(b, big, 1) + WordAt(b, big, 1);
    assert Sum(b, big, 3) == Sum(b, big, 2) + WordAt(b, big, 2);
    assert Sum(b, big, 4) == Sum(b, big, 3) + WordAt(b, big, 3);
    assert Sum(b, big, 5) == Sum(b, big, 4) + WordAt(b, big, 4);
  }

  lemma ZeroWords(a: seq<Byte>, big: bool)
    requires |a| >= 20 && forall k :: 0 <= k < 8 ==> a[k] == 0
    ensures forall k :: 0 <= k < 4 ==> WordAt(a, big, k) == 0
  {
  }

  lemma SumOfTen(a: seq<Byte>, big: bool)
    requires |a| >= 20 && forall k :: 0 <= k < 8 ==> a[k] == 0
    ensures Sum(a, big, 10) == WordAt(a, big, 4) + WordAt(a, big, 5) + WordAt(a, big, 6)
                               + WordAt(a, big, 7) + WordAt(a, big, 8) + WordAt(a, big, 9)
  {
    hide WordAt;
    SumOfSix(a, big);
    ZeroWords(a, big);
    assert Sum(a, big, 7) == Sum(a, big, 6) + WordAt(a, big, 6);
    assert Sum(a, big, 8) == Sum(a, big, 7) + WordAt(a, big, 7);
    assert Sum(a, big, 9) == Sum(a, big, 8) + WordAt(a, big, 8);
  }

  /** A packet that agrees with the overlay `a` from the addresses on. */
  lemma SameSum(a: seq<Byte>, p: seq<Byte>, big: bool)
    requires |a| == |p| >= 28 && a[12..] == p[12..]
    requires (forall k :: 0 <= k < 9 ==> a[k] == 0) && a[9] == p[9] && a[10..12] == a[24..26]
    ensures var b := PseudoHeader(p);
            WordCount(a) == WordCount(b) + 4
            && Sum(a, big, WordCount(a)) == Sum(b, big, WordCount(b))
  {
    hide Sum, WordAt;
    PseudoLayout(a, p);
    var b := PseudoHeader(p);
    SameTail(a, b, big, WordCount(b));
    SumOfSix(b, big);
    SumOfTen(a, big);
    SameHead(a, b, big);
  }

  lemma PseudoLayout(a: seq<Byte>, p: seq<Byte>)
    requires |a| == |p| >= 28 && a[12..] == p[12..]
    requires a[8] == 0 && a[9] == p[9] && a[10..12] == a[24..26]
    ensures var b := PseudoHeader(p);
            && |b| + 8 == |a| && b[..8] == a[12..20] && b[10..12] == a[10..12]
            && a[8] == b[8] && a[9] == b[9]
            && forall k :: 12 <= k < |b| ==> b[k] == a[k + 8]
  {
    var b := PseudoHeader(p);
    assert b[12..] == p[20..] == p[12..][8..] == a[12..][8..] == a[20..];
    assert b[..8] == p[12..20] == p[12..][..8] == a[12..][..8] == a[12..20];
    assert b[10..12] == p[24..26] == p[12..][12..14] == a[12..][12..14] == a[24..26];
    forall k | 12 <= k < |b|
      ensures b[k] == a[k + 8]
    {
      assert b[k] == b[12..][k - 12] && a[k + 8] == a[20..][k - 12];
    }
  }

  lemma SameHead(a: seq<Byte>, b: seq<Byte>, big: bool)
    requires |a| >= 28 && |b| >= 12 && b[..8] == a[12..20] && b[10..12] == a[10..12]
    requires a[8] == b[8] && a[9] == b[9]
    ensures WordAt(b, big, 0) == WordAt(a, big, 6) && WordAt(b, big, 1) == WordAt(a, big, 7)
    ensures WordAt(b, big, 2) == WordAt(a, big, 8) && WordAt(b, big, 3) == WordAt(a, big, 9)
    ensures WordAt(b, big, 4) == WordAt(a, big, 4) && WordAt(b, big, 5) == WordAt(a, big, 5)
  {
    assert forall k :: 0 <= k < 8 ==> b[..8][k] == a[12..20][k];
    assert forall k :: 0 <= k < 2 ==> b[10..12][k] == a[10..12][k];
    assert b[0] == a[12] && b[1] == a[13] && b[2] == a[14] && b[3] == a[15];
    assert b[4] == a[16] && b[5] == a[17] && b[6] == a[18] && b[7] == a[19];
    assert b[10] == a[10] && b[11] == a[11];
  }

  /** Unless `zerosum` is set, the checksum field of the datagram is not zero
      and the receiver's sum over pseudo-header and datagram verifies, on a host
      of either byte order; with `zerosum` the field is zero. */
  lemma DatagramVerifies(local: Endpoint, dest: Endpoint, data: seq<Byte>, zerosum: bool,
                         netOrder: bool, big: bool, receiverBig: bool)
    requires ValidEndpoint(local) && ValidEndpoint(dest) && 28 + |data| <= 2 * 65537
    ensures var p := Datagram(local, dest, data, zerosum, netOrder, big);
            && (zerosum <==> p[26..28] == [0, 0])
            && (!zerosum ==> Cksum(PseudoHeader(p), receiverBig) == 0)
  {
    var p := Datagram(local, dest, data, zerosum, netOrder, big);
    var field := SumField(local, dest, data, zerosum, big);
    PacketLayout(local, dest, data, zerosum, netOrder, big);
    if !zerosum {
      FieldCompletes(local, dest, data, big);
      var a, b := Overlay(local, dest, field, data), PseudoHeader(p);
      OverlayLayout(local, dest, field, data);
      SameSum(a, p, big);
      SameChecksum(a, b, big);
      ByteOrderIndependent(b);
    }
  }

  lemma PacketLayout(local: Endpoint, dest: Endpoint, data: seq<Byte>, zerosum: bool, netOrder: bool, big: bool)
    requires ValidEndpoint(local) && ValidEndpoint(dest)
    ensures var p, field := Datagram(local, dest, data, zerosum, netOrder, big), SumField(local, dest, data, zerosum, big);
            && p[9] == 17 && p[26..28] == field
            && p[12..] == local.addr + dest.addr + Udp(local, dest, field, data)
  {
    hide SumField, Net16, Store;
  }

  lemma OverlayLayout(local: Endpoint, dest: Endpoint, sum: seq<Byte>, data: seq<Byte>)
    requires ValidEndpoint(local) && ValidEndpoint(dest) && |sum| == 2
    ensures var a := Overlay(local, dest, sum, data);
            && (forall k :: 0 <= k < 9 ==> a[k] == 0) && a[9] == 17 && a[10..12] == a[24..26]
            && a[12..] == local.addr + dest.addr + Udp(local, dest, sum, data)
  {
    hide Net16;
  }

  lemma SameChecksum(a: seq<Byte>, b: seq<Byte>, big: bool)
    requires WordCount(a) <= 65537 && WordCount(b) <= 65537
    requires Sum(a, big, WordCount(a)) == Sum(b, big, WordCount(b))
    ensures Cksum(a, big) == Cksum(b, big)
  {
    CksumIsRfc1071(a, big);
    CksumIsRfc1071(b, big);
    OcSumIsCanonical(a, big, WordCount(a));
    OcSumIsCanonical(b, big, WordCount(b));
  }

  /** The checksum field is nonzero and completes the overlay. */
  lemma FieldCompletes(local: Endpoint, dest: Endpoint, data: seq<Byte>, big: bool)
    requires ValidEndpoint(local) && ValidEndpoint(dest) && 28 + |data| <= 2 * 65537
    ensures var field := SumField(local, dest, data, false, big);
            && field != [0, 0]
            && Cksum(Overlay(local, dest, field, data), big) == 0
  {
    var before := Overlay(local, dest, [0, 0], data);
    var c := Cksum(before, big);
    var w: Word16 := if c == 0 then 0xffff else c;
    FieldVerifies(before, 13, big);
    var after := Overlay(local, dest, Store(w, big), data);
    assert after == WithWord(before, 13, w, big);
  }

}
