/**
 Dotted-decimal text: inet_pton4, inet_ntop4 and inet_aton.
 A C string is the sequence of its characters before the terminating NUL.
 */
module Inet4 {
  import opened Common

  predicate IsDigit(c: char) {
    '0' <= c <= '9'
  }

  function DigitValue(c: char): nat
    requires IsDigit(c)
  {
    c as int - '0' as int
  }

  /* ---- The character-at-a-time parsers, as the C loops run them ---- */

  /** What inet_pton4 makes of the characters from `i` on, given the bytes
      stored so far (the last one, at `tp`, still open) and `saw_digit`. */
  function Scan4(s: string, i: nat, bytes: seq<Byte>, sawDigit: bool): (r: Option<seq<Byte>>)
    requires i <= |s| && 1 <= |bytes| <= 4
    decreases |s| - i
  {
    var octets := if sawDigit then |bytes| else |bytes| - 1;
    if i == |s| then
      if octets < 4 then None else Some(bytes)
    else if IsDigit(s[i]) then
      var v := bytes[|bytes| - 1] * 10 + DigitValue(s[i]);
      if v > 255 then None
      else Scan4(s, i + 1, bytes[|bytes| - 1 := v], true)
    else if s[i] == '.' && sawDigit then
      if octets == 4 then None else Scan4(s, i + 1, bytes + [0], false)
    else
      None
  }

  /** The value of inet_pton4 on the string starting at `from`. */
  function Pton4(s: string, from: nat): Option<seq<Byte>>
    requires from <= |s|
  {
    Scan4(s, from, [0], false)
  }

  /** `u_long` has 32 or 64 bits; arithmetic on it wraps. */
  predicate ULongRange(range: int) {
    range == 0x1_0000_0000 || range == 0x1_0000_0000_0000_0000
  }

  /** Unsigned arithmetic modulo `range`. */
  function Wrap(x: nat, range: int): nat
    requires ULongRange(range)
  {
    if x < range then x else x % range
  }

  /** The 32 bits that htonl() stores, most significant byte first. */
  function NetworkOrder(addr: nat): seq<Byte> {
    [addr / 256 / 256 / 256 % 256, addr / 256 / 256 % 256, addr / 256 % 256, addr % 256]
  }

  /** The shift that pads an address of fewer than four fields. */
  function Normalize(addr: nat, dots: nat, range: int): nat
    requires ULongRange(range) && dots <= 3
  {
    if dots == 0 then Wrap(addr * 0x100_0000, range)
    else if dots == 1 then Wrap(addr * 0x1_0000, range)
    else if dots == 2 then Wrap(addr * 0x100, range)
    else addr
  }

  /** What inet_aton makes of the characters from `i` on. */
  function ScanAton(s: string, i: nat, acc: nat, addr: nat, dots: nat, range: int): Option<seq<Byte>>
    requires i <= |s| && dots <= 3 && ULongRange(range)
    decreases |s| - i
  {
    if i == |s| then
      if acc > 255 then None
      else Some(NetworkOrder(Normalize(Wrap(addr * 256 + acc, range), dots, range)))
    else if IsDigit(s[i]) then
      ScanAton(s, i + 1, Wrap(acc * 10 + DigitValue(s[i]), range), addr, dots, range)
    else if s[i] == '.' then
      if dots == 3 || acc > 255 then None
      else ScanAton(s, i + 1, 0, Wrap(addr * 256 + acc, range), dots + 1, range)
    else
      None
  }

  function Aton(s: string, range: int): Option<seq<Byte>>
    requires ULongRange(range)
  {
    ScanAton(s, 0, 0, 0, 0, range)
  }

  /* ---- Reference: whole decimal fields separated by dots ---- */

  predicate DigitsIn(s: string, i: nat, j: nat)
    requires i <= j <= |s|
  {
    forall k :: i <= k < j ==> IsDigit(s[k])
  }

  /** The number that the digits s[i..j] denote. */
  function Decimal(s: string, i: nat, j: nat): nat
    requires i <= j <= |s| && DigitsIn(s, i, j)
    decreases j
  {
    if i == j then 0 else Decimal(s, i, j - 1) * 10 + DigitValue(s[j - 1])
  }

  /** The end of the run of digits that starts at `i`. */
  function DigitsEnd(s: string, i: nat): (j: nat)
    requires i <= |s|
    ensures i <= j <= |s| && DigitsIn(s, i, j)
    ensures j < |s| ==> !IsDigit(s[j])
    decreases |s| - i
  {
    if i == |s| || !IsDigit(s[i]) then i else DigitsEnd(s, i + 1)
  }

  /** Putting `pre` in front of an accepted result. */
  function Prepend(pre: seq<Byte>, r: Option<seq<Byte>>): Option<seq<Byte>> {
    match r
    case None => None
    case Some(rest) => Some(pre + rest)
  }

  /** `n` nonempty decimal fields, each at most 255, separated by single dots
      and reaching the end of the string: their values. */
  function Fields(s: string, i: nat, n: nat): (r: Option<seq<Byte>>)
    requires i <= |s| && 1 <= n
    ensures r.Some? ==> |r.value| == n
    decreases n
  {
    var j := DigitsEnd(s, i);
    if j == i || Decimal(s, i, j) > 255 then None
    else if n == 1 then
      if j == |s| then Some([Decimal(s, i, j)]) else None
    else if j < |s| && s[j] == '.' then
      Prepend([Decimal(s, i, j)], Fields(s, j + 1, n - 1))
    else None
  }

  /* ---- inet_pton4 accepts exactly the dotted quads ---- */

  lemma {:induction false} DecimalGrows(s: string, k: nat, i: nat, j: nat)
    requires k <= i <= j <= |s| && DigitsIn(s, k, j)
    ensures Decimal(s, k, i) <= Decimal(s, k, j)
    decreases j
  {
    if i < j {
      DecimalGrows(s, k, i, j - 1);
    }
  }

  /** Reading the digits of one field leaves their value at `tp`, or fails. */
  lemma {:induction false} ScanDigits(s: string, k: nat, i: nat, j: nat, pre: seq<Byte>)
    requires k <= i <= j <= |s| && DigitsIn(s, k, j) && |pre| <= 3
    requires Decimal(s, k, i) <= 255
    ensures Scan4(s, i, pre + [Decimal(s, k, i)], i > k)
         == if Decimal(s, k, j) <= 255 then Scan4(s, j, pre + [Decimal(s, k, j)], j > k) else None
    decreases j - i
  {
    if i < j {
      DecimalGrows(s, k, i + 1, j);
      var b := pre + [Decimal(s, k, i)];
      var v := Decimal(s, k, i + 1);
      if v <= 255 {
        assert b[|b| - 1 := v] == pre + [v];
        ScanDigits(s, k, i + 1, j, pre);
      }
    }
  }

  /** At the end of a run of digits, empty or not. */
  lemma ScanFieldEnd(s: string, j: nat, b: seq<Byte>, sawDigit: bool)
    requires j <= |s| && 1 <= |b| <= 4 && (j < |s| ==> !IsDigit(s[j]))
    ensures Scan4(s, j, b, sawDigit)
         == if !sawDigit then None
            else if j == |s| then if |b| == 4 then Some(b) else None
            else if s[j] == '.' && |b| < 4 then Scan4(s, j + 1, b + [0], false)
            else None
  {
  }

  lemma PrependTwice(pre: seq<Byte>, v: Byte, r: Option<seq<Byte>>)
    ensures Prepend(pre + [v], r) == Prepend(pre, Prepend([v], r))
  {
    if r.Some? {
      assert pre + [v] + r.value == pre + ([v] + r.value);
    }
  }

  /** From the start of a field, with `pre` already stored. */
  lemma {:induction false} ScanFields(s: string, i: nat, pre: seq<Byte>)
    requires i <= |s| && |pre| <= 3
    ensures Scan4(s, i, pre + [0], false) == Prepend(pre, Fields(s, i, 4 - |pre|))
    decreases 4 - |pre|
  {
    var j := DigitsEnd(s, i);
    ScanDigits(s, i, i, j, pre);
    if Decimal(s, i, j) <= 255 {
      var v: Byte := Decimal(s, i, j);
      ScanFieldEnd(s, j, pre + [v], j > i);
      if |pre| < 3 && j < |s| && s[j] == '.' && j > i {
        ScanFields(s, j + 1, pre + [v]);
        PrependTwice(pre, v, Fields(s, j + 1, 3 - |pre|));
      }
    }
  }

  /** inet_pton4 accepts exactly four decimal fields of value at most 255,
      and stores their values. */
  lemma Pton4IsDottedQuad(s: string, from: nat)
    requires from <= |s|
    ensures Pton4(s, from) == Fields(s, from, 4)
  {
    ScanFields(s, from, []);
    assert [] + [0] == [0];
    if Fields(s, from, 4).Some? {
      assert [] + Fields(s, from, 4).value == Fields(s, from, 4).value;
    }
  }

  /* ---- Addresses as numbers ---- */

  /** The address whose bytes are `b`, most significant first. */
  function AddressOf(b: seq<Byte>): nat {
    if b == [] then 0 else AddressOf(b[..|b| - 1]) * 256 + b[|b| - 1]
  }

  lemma {:induction false} AddressBound(b: seq<Byte>)
    requires |b| <= 4
    ensures AddressOf(b) < 0x1_0000_0000
    ensures |b| <= 3 ==> AddressOf(b) < 0x100_0000
    ensures |b| <= 2 ==> AddressOf(b) < 0x1_0000
    ensures |b| <= 1 ==> AddressOf(b) < 0x100
  {
    if b != [] {
      AddressBound(b[..|b| - 1]);
    }
  }

  lemma AddressBytes(b: seq<Byte>)
    requires |b| == 4
    ensures NetworkOrder(AddressOf(b)) == b
  {
    var b3 := b[..3];
    var b2 := b[..2];
    var b1 := b[..1];
    assert b3[..2] == b2 && b2[..1] == b1 && b1[..0] == [];
    assert AddressOf(b) / 256 == AddressOf(b3);
    assert AddressOf(b3) / 256 == AddressOf(b2);
    assert AddressOf(b2) / 256 == AddressOf(b1) == b[0];
  }

  lemma AddressSnoc(pre: seq<Byte>, v: Byte)
    ensures AddressOf(pre + [v]) == AddressOf(pre) * 256 + v
  {
    assert (pre + [v])[..|pre|] == pre;
  }

  /* ---- Exactly what inet_aton accepts ---- */

  /** At most `n` decimal fields, possibly empty, each of a value that is at most 255
      once cut to `u_long`, separated by single dots to the end of the string. */
  function Parts(s: string, i: nat, n: nat, range: int): (r: Option<seq<Byte>>)
    requires i <= |s| && 1 <= n && ULongRange(range)
    ensures r.Some? ==> 1 <= |r.value| <= n
    decreases n
  {
    var j := DigitsEnd(s, i);
    var v := Decimal(s, i, j) % range;
    if v > 255 then None
    else if j == |s| then Some([v])
    else if s[j] == '.' && n > 1 then Prepend([v], Parts(s, j + 1, n - 1, range))
    else None
  }

  /** The first bytes of the address, the others zero. */
  function Padded(b: seq<Byte>): (r: seq<Byte>)
    requires |b| <= 4
    ensures |r| == 4
  {
    b + seq(4 - |b|, _ => 0)
  }

  lemma WrapStep(d: nat, digit: nat, range: int)
    requires ULongRange(range) && digit < 10
    ensures Wrap(d % range * 10 + digit, range) == (d * 10 + digit) % range
  {
    var q, r := d / range, d % range;
    assert d * 10 + digit == (q * 10) * range + (r * 10 + digit);
    ModOfSum(q * 10, r * 10 + digit, range);
  }

  lemma ModOfSum(q: int, x: nat, range: int)
    requires ULongRange(range)
    ensures (q * range + x) % range == x % range
  {
    if range == 0x1_0000_0000 {
      assert (q * 0x1_0000_0000 + x) % 0x1_0000_0000 == x % 0x1_0000_0000;
    } else {
      assert (q * 0x1_0000_0000_0000_0000 + x) % 0x1_0000_0000_0000_0000 == x % 0x1_0000_0000_0000_0000;
    }
  }

  lemma AtonDigit(s: string, i: nat, acc: nat, addr: nat, dots: nat, range: int)
    requires i < |s| && IsDigit(s[i]) && dots <= 3 && ULongRange(range)
    ensures ScanAton(s, i, acc, addr, dots, range)
         == ScanAton(s, i + 1, Wrap(acc * 10 + DigitValue(s[i]), range), addr, dots, range)
  {
  }

  /** At a dot, after a field whose value is `v`. */
  lemma AtonDot(s: string, j: nat, v: Byte, addr: nat, dots: nat, range: int)
    requires j < |s| && s[j] == '.' && dots < 3 && ULongRange(range) && addr < 0x100_0000
    ensures ScanAton(s, j, v, addr, dots, range) == ScanAton(s, j + 1, 0, addr * 256 + v, dots + 1, range)
  {
  }

  /** At the end of a run of digits whose value is `acc`. */
  lemma AtonStop(s: string, j: nat, acc: nat, addr: nat, dots: nat, range: int)
    requires j <= |s| && (j < |s| ==> !IsDigit(s[j])) && dots <= 3 && ULongRange(range)
    ensures acc > 255 || (j < |s| && (s[j] != '.' || dots == 3)) ==> ScanAton(s, j, acc, addr, dots, range).None?
    ensures acc <= 255 && j == |s| ==>
              ScanAton(s, j, acc, addr, dots, range) == Some(NetworkOrder(Normalize(Wrap(addr * 256 + acc, range), dots, range)))
  {
  }

  /** Reading the digits of a field, however many. */
  lemma {:induction false} AtonRun(s: string, k: nat, i: nat, j: nat, addr: nat, dots: nat, range: int)
    requires k <= i <= j <= |s| && DigitsIn(s, k, j)
    requires dots <= 3 && ULongRange(range)
    ensures ScanAton(s, i, Decimal(s, k, i) % range, addr, dots, range)
         == ScanAton(s, j, Decimal(s, k, j) % range, addr, dots, range)
    decreases j - i
  {
    hide ScanAton, Wrap;
    if i < j {
      AtonDigit(s, i, Decimal(s, k, i) % range, addr, dots, range);
      WrapStep(Decimal(s, k, i), DigitValue(s[i]), range);
      AtonRun(s, k, i + 1, j, addr, dots, range);
    }
  }

  /** The end of the string after `n` fields: the shift puts zeros behind them. */
  lemma AtonLast(s: string, pre: seq<Byte>, v: Byte, range: int)
    requires ULongRange(range) && |pre| <= 3
    ensures ScanAton(s, |s|, v, AddressOf(pre), |pre|, range) == Some(Padded(pre + [v]))
  {
    hide ScanAton, AddressOf, NetworkOrder;
    var b := pre + [v];
    AddressSnoc(pre, v);
    AddressBound(pre);
    AtonStop(s, |s|, v, AddressOf(pre), |pre|, range);
    NormalizePads(b, range);
    AddressBytes(Padded(b));
  }

  lemma NormalizePads(b: seq<Byte>, range: int)
    requires ULongRange(range) && 1 <= |b| <= 4
    ensures Normalize(AddressOf(b), |b| - 1, range) == AddressOf(Padded(b))
    ensures Wrap(AddressOf(b), range) == AddressOf(b)
  {
    hide AddressOf, Padded;
    AddressBound(b);
    AddressPadded(b);
    AddressBound(Padded(b));
  }

  lemma AddressPadded(b: seq<Byte>)
    requires 1 <= |b| <= 4
    ensures |b| == 1 ==> AddressOf(Padded(b)) == AddressOf(b) * 0x100_0000
    ensures |b| == 2 ==> AddressOf(Padded(b)) == AddressOf(b) * 0x1_0000
    ensures |b| == 3 ==> AddressOf(Padded(b)) == AddressOf(b) * 0x100
    ensures |b| == 4 ==> Padded(b) == b
  {
    hide AddressOf;
    AddressSnoc(b, 0);
    AddressSnoc(b + [0], 0);
    AddressSnoc(b + [0] + [0], 0);
    assert |b| == 3 ==> Padded(b) == b + [0];
    assert |b| == 2 ==> Padded(b) == b + [0] + [0];
    assert |b| == 1 ==> Padded(b) == b + [0] + [0] + [0];
  }

  lemma {:induction false} AtonParts(s: string, i: nat, pre: seq<Byte>, range: int)
    requires i <= |s| && |pre| <= 3 && ULongRange(range)
    ensures var r := Prepend(pre, Parts(s, i, 4 - |pre|, range));
            ScanAton(s, i, 0, AddressOf(pre), |pre|, range) == if r.None? then None else Some(Padded(r.value))
    decreases 4 - |pre|
  {
    hide ScanAton, AddressOf, NetworkOrder, Normalize, Padded, Wrap;
    var j := DigitsEnd(s, i);
    AtonRun(s, i, i, j, AddressOf(pre), |pre|, range);
    var w := Decimal(s, i, j) % range;
    AtonStop(s, j, w, AddressOf(pre), |pre|, range);
    if w <= 255 {
      var v: Byte := w;
      AddressBound(pre);
      AddressSnoc(pre, v);
      if j == |s| {
        AtonLast(s, pre, v, range);
      } else if s[j] == '.' && |pre| < 3 {
        AtonDot(s, j, v, AddressOf(pre), |pre|, range);
        AtonParts(s, j + 1, pre + [v], range);
        PrependTwice(pre, v, Parts(s, j + 1, 3 - |pre|, range));
      }
    }
  }

  /** inet_aton accepts exactly one to four such fields, "" and "..." among them, and
      a field too long for `u_long` counts by its low bits. */
  lemma AtonIsParts(s: string, range: int)
    requires ULongRange(range)
    ensures var r := Parts(s, 0, 4, range); Aton(s, range) == if r.None? then None else Some(Padded(r.value))
  {
    AtonParts(s, 0, [], range);
    if Parts(s, 0, 4, range).Some? {
      assert [] + Parts(s, 0, 4, range).value == Parts(s, 0, 4, range).value;
    }
  }

  /* ---- inet_aton agrees wherever inet_pton4 accepts ---- */

  lemma SmallMod(x: nat, range: int)
    requires ULongRange(range) && x <= 255
    ensures x % range == x
  {
    if range == 0x1_0000_0000 {
      assert x % 0x1_0000_0000 == x;
    } else {
      assert x % 0x1_0000_0000_0000_0000 == x;
    }
  }

  lemma {:induction false} FieldsAreParts(s: string, i: nat, n: nat, range: int)
    requires i <= |s| && 1 <= n && ULongRange(range) && Fields(s, i, n).Some?
    ensures Parts(s, i, n, range) == Fields(s, i, n)
    decreases n
  {
    hide Decimal, DigitsEnd;
    var j := DigitsEnd(s, i);
    var d := Decimal(s, i, j);
    SmallMod(d, range);
    if n == 1 {
      assert Parts(s, i, 1, range) == Some([d]);
    } else {
      FieldsAreParts(s, j + 1, n - 1, range);
      assert Parts(s, i, n, range) == Prepend([d], Parts(s, j + 1, n - 1, range));
    }
  }

  /** Whatever inet_pton4 accepts, inet_aton accepts with the same address,
      for either width of `u_long`. */
  lemma AtonExtendsPton4(s: string, range: int)
    requires ULongRange(range) && Pton4(s, 0).Some?
    ensures Aton(s, range) == Pton4(s, 0)
  {
    Pton4IsDottedQuad(s, 0);
    AtonIsParts(s, range);
    FieldsAreParts(s, 0, 4, range);
    var b := Fields(s, 0, 4).value;
    assert Padded(b) == b;
  }

  /* ---- Printing, and the round trip ---- */

  function DigitChar(d: nat): char
    requires d < 10
  {
    '0' + d as char
  }

  const DIGITS := "0123456789"

  /** Parsers and printer count a digit by its index among the ten. */
  lemma DigitsByIndex(c: char, d: nat)
    requires d < 10
    ensures DigitChar(d) == DIGITS[d]
    ensures DIGITS[d] == c ==> IsDigit(c) && DigitValue(c) == d
    ensures IsDigit(c) <==> c in DIGITS
  {
    assert forall k: nat :: k < 10 ==> DIGITS[k] == '0' + k as char;
    if IsDigit(c) {
      assert DIGITS[c as int - '0' as int] == c;
    }
  }

  lemma {:induction false} SameDecimal(t: string, i: nat, j: nat, s: string, at: nat)
    requires i <= j <= |t| && DigitsIn(t, i, j) && at + j <= |s|
    requires forall k :: i <= k < j ==> s[at + k] == t[k]
    ensures DigitsIn(s, at + i, at + j) && Decimal(s, at + i, at + j) == Decimal(t, i, j)
    decreases j
  {
    forall k | at + i <= k < at + j
      ensures IsDigit(s[k])
    {
      assert s[at + (k - at)] == t[k - at];
    }
    if i < j {
      SameDecimal(t, i, j - 1, s, at);
      assert s[at + (j - 1)] == t[j - 1];
    }
  }

  /** printf "%u". */
  function Print(n: nat): (s: string)
    ensures |s| >= 1 && DigitsIn(s, 0, |s|) && Decimal(s, 0, |s|) == n
    ensures n < 10 ==> |s| == 1
    ensures n < 100 ==> |s| <= 2
    ensures n < 1000 ==> |s| <= 3
  {
    if n < 10 then
      var s := [DigitChar(n)];
      assert Decimal(s, 0, 0) == 0;
      s
    else
      var t := Print(n / 10);
      var s := t + [DigitChar(n % 10)];
      SameDecimal(t, 0, |t|, s, 0);
      s
  }

  /** The text `t` stands at s[i..]. */
  predicate At(s: string, i: nat, t: string) {
    i + |t| <= |s| && forall k :: 0 <= k < |t| ==> s[i + k] == t[k]
  }

  lemma AtSplit(s: string, i: nat, t: string, u: string)
    requires At(s, i, t + u)
    ensures At(s, i, t) && At(s, i + |t|, u)
  {
    forall k | 0 <= k < |t|
      ensures s[i + k] == t[k]
    {
      assert (t + u)[k] == t[k];
    }
    forall k | 0 <= k < |u|
      ensures s[i + |t| + k] == u[k]
    {
      assert (t + u)[|t| + k] == u[k];
      assert s[i + (|t| + k)] == u[k];
    }
  }

  lemma AtChar(s: string, i: nat, c: char)
    requires At(s, i, [c])
    ensures s[i] == c
  {
    assert s[i + 0] == [c][0];
  }

  /** The bytes in decimal, separated by dots: printf "%u.%u.%u.%u" for four. */
  function Dotted(b: seq<Byte>): (s: string)
    requires 1 <= |b|
    ensures 2 * |b| - 1 <= |s| <= 4 * |b| - 1
  {
    if |b| == 1 then Print(b[0]) else Print(b[0]) + ("." + Dotted(b[1..]))
  }

  lemma {:induction false} DigitsEndAt(s: string, i: nat, j: nat)
    requires i <= j <= |s| && DigitsIn(s, i, j)
    requires j < |s| ==> !IsDigit(s[j])
    ensures DigitsEnd(s, i) == j
    decreases j - i
  {
    if i < j {
      DigitsEndAt(s, i + 1, j);
    }
  }

  /** One printed field, then a dot or the end of the string. */
  lemma PrintedField(s: string, i: nat, n: Byte)
    requires At(s, i, Print(n))
    requires i + |Print(n)| < |s| ==> s[i + |Print(n)|] == '.'
    ensures DigitsEnd(s, i) == i + |Print(n)|
    ensures Decimal(s, i, i + |Print(n)|) == n
  {
    var t := Print(n);
    SameDecimal(t, 0, |t|, s, i);
    DigitsEndAt(s, i, i + |t|);
  }

  lemma {:induction false} FieldsOfDotted(s: string, i: nat, b: seq<Byte>)
    requires 1 <= |b| && At(s, i, Dotted(b)) && i + |Dotted(b)| == |s|
    ensures Fields(s, i, |b|) == Some(b)
    decreases |b|
  {
    hide Print, DigitsEnd, Decimal;
    var t := Print(b[0]);
    if |b| == 1 {
      PrintedField(s, i, b[0]);
      assert [b[0]] == b;
    } else {
      var u := Dotted(b[1..]);
      AtSplit(s, i, t, "." + u);
      AtSplit(s, i + |t|, ".", u);
      AtChar(s, i + |t|, '.');
      PrintedField(s, i, b[0]);
      FieldsOfDotted(s, i + |t| + 1, b[1..]);
      assert [b[0]] + b[1..] == b;
    }
  }

  /** inet_pton4 recovers the bytes from the text inet_ntop4 prints, whatever
      precedes that text in the string. */
  lemma RoundTrip4At(s: string, from: nat, b: seq<Byte>)
    requires |b| == 4 && At(s, from, Dotted(b)) && from + |Dotted(b)| == |s|
    ensures Pton4(s, from) == Some(b)
  {
    FieldsOfDotted(s, from, b);
    Pton4IsDottedQuad(s, from);
  }

  /** Both parsers invert the printer, for every address. */
  lemma RoundTrip4(b: seq<Byte>, range: int)
    requires |b| == 4 && ULongRange(range)
    ensures Pton4(Dotted(b), 0) == Some(b)
    ensures Aton(Dotted(b), range) == Some(b)
  {
    var s := Dotted(b);
    RoundTrip4At(s, 0, b);
    AtonExtendsPton4(s, range);
  }

  /* ---- The C routines ---- */

  /** inet_pton4: parses the string at `src[from..]` into the four bytes of
      `dst` that start at `at`; `tmp` and `tp` are the C locals. */
  method InetPton4(src: string, from: nat, dst: array<Byte>, at: nat) returns (rc: int)
    requires from <= |src| && at + 4 <= dst.Length
    modifies dst
    ensures rc == if Pton4(src, from).Some? then 1 else 0
    ensures rc == 1 ==> dst[..] == old(dst[..at]) + Pton4(src, from).value + old(dst[at + 4..])
    ensures rc == 0 ==> dst[..] == old(dst[..])
  {
    var tmp := new Byte[4];
    var sawDigit, octets, tp, i := false, 0, 0, from;
    tmp[tp] := 0;
    assert tmp[..1] == [0];
    while i < |src|
      invariant from <= i <= |src| && 0 <= tp < 4
      invariant octets == if sawDigit then tp + 1 else tp
      invariant Pton4(src, from) == Scan4(src, i, tmp[..tp + 1], sawDigit)
      invariant dst[..] == old(dst[..])
    {
      var ch := src[i];
      i := i + 1;
      ghost var before := tmp[..tp + 1];
      if IsDigit(ch) {
        var v := tmp[tp] * 10 + DigitValue(ch);
        if v > 255 {
          return 0;
        }
        tmp[tp] := v;
        assert tmp[..tp + 1] == before[tp := tmp[tp]];
        if !sawDigit {
          octets := octets + 1;
          if octets > 4 {
            return 0;
          }
          sawDigit := true;
        }
      } else if ch == '.' && sawDigit {
        if octets == 4 {
          return 0;
        }
        tp := tp + 1;
        tmp[tp] := 0;
        assert tmp[..tp + 1] == before + [0];
        sawDigit := false;
      } else {
        return 0;
      }
    }
    if octets < 4 {
      return 0;
    }
    assert tmp[..4] == tmp[..];
    Copy(tmp, dst, at);
    return 1;
  }

  /** memcpy of all of `tmp` to `dst + at`. */
  method Copy<T>(tmp: array<T>, dst: array<T>, at: nat)
    requires tmp != dst && at + tmp.Length <= dst.Length
    modifies dst
    ensures dst[..] == old(dst[..at]) + tmp[..] + old(dst[at + tmp.Length..])
  {
    for k := 0 to tmp.Length
      invariant dst[..at] == old(dst[..at])
      invariant dst[at..at + k] == tmp[..k]
      invariant dst[at + tmp.Length..] == old(dst[at + tmp.Length..])
    {
      dst[at + k] := tmp[k];
      assert dst[at..at + k + 1] == dst[at..at + k] + [tmp[k]];
    }
    assert dst[..] == dst[..at] + dst[at..at + tmp.Length] + dst[at + tmp.Length..];
  }

  /** Writes the characters of `s` and a NUL at `dst + at`. */
  method StrCpy(dst: array<char>, at: nat, s: string)
    requires at + |s| < dst.Length
    modifies dst
    ensures dst[..] == old(dst[..at]) + s + ['\0'] + old(dst[at + |s| + 1..])
  {
    var tmp := new char[|s| + 1](k requires 0 <= k <= |s| => if k < |s| then s[k] else '\0');
    assert tmp[..] == s + ['\0'];
    Copy(tmp, dst, at);
    assert old(dst[..at]) + (s + ['\0']) == old(dst[..at]) + s + ['\0'];
  }

  lemma DottedPair(b: seq<Byte>)
    requires 2 <= |b|
    ensures Dotted(b) == Print(b[0]) + ("." + Dotted(b[1..]))
  {
  }

  lemma DottedQuad(b: seq<Byte>)
    requires |b| == 4
    ensures Dotted(b) == Print(b[0]) + "." + Print(b[1]) + "." + Print(b[2]) + "." + Print(b[3])
  {
    var p0, p1, p2, p3 := Print(b[0]), Print(b[1]), Print(b[2]), Print(b[3]);
    DottedPair(b);
    DottedPair(b[1..]);
    DottedPair(b[1..][1..]);
    Regroup(p0, p1, p2, p3);
  }

  lemma Regroup(p0: string, p1: string, p2: string, p3: string)
    ensures p0 + ("." + (p1 + ("." + (p2 + ("." + p3))))) == p0 + "." + p1 + "." + p2 + "." + p3
  {
  }

  /** inet_ntop4 into `dst + at`; false stands for NULL with ENOSPC.  The test
      lets through a text of exactly `size` characters, so the buffer must hold
      one character more than `size` unless `size` is at least 16. */
  method InetNtop4(src: seq<Byte>, dst: array<char>, at: nat, size: nat) returns (ok: bool)
    requires |src| == 4
    requires at + (if size < 16 then size + 1 else 16) <= dst.Length
    modifies dst
    ensures ok == (|Dotted(src)| <= size)
    ensures ok ==> dst[..] == old(dst[..at]) + Dotted(src) + ['\0'] + old(dst[at + |Dotted(src)| + 1..])
    ensures !ok ==> dst[..] == old(dst[..])
  {
    var tmp := Print(src[0]) + "." + Print(src[1]) + "." + Print(src[2]) + "." + Print(src[3]);
    DottedQuad(src);
    if |tmp| > size {
      return false;
    }
    StrCpy(dst, at, tmp);
    return true;
  }

  /** Whenever inet_ntop4 returns a string, it had room for its NUL. */
  ghost predicate AlwaysFits(size: nat) {
    forall b: seq<Byte> :: |b| == 4 && |Dotted(b)| <= size ==> |Dotted(b)| + 1 <= size
  }

  /** A byte that prints as one, two or three characters. */
  function Sample(extra: int): Byte {
    if extra <= 0 then 1 else if extra == 1 then 10 else 100
  }

  lemma SampleLength(extra: int)
    ensures |Print(Sample(extra))| == if extra <= 0 then 1 else if extra == 1 then 2 else 3
  {
    assert |Print(10)| == 2 by {
      assert |Print(1)| == 1;
    }
    assert |Print(100)| == 3;
  }

  /** Texts of all lengths from 7 to 15 occur. */
  lemma TextOfLength(n: nat) returns (b: seq<Byte>)
    requires 7 <= n <= 15
    ensures |b| == 4 && |Dotted(b)| == n
  {
    hide Print, Dotted, Sample;
    b := [Sample(n - 7), Sample(n - 9), Sample(n - 11), Sample(n - 13)];
    SampleLength(n - 7);
    SampleLength(n - 9);
    SampleLength(n - 11);
    SampleLength(n - 13);
    DottedQuad(b);
  }

  /** The test of inet_ntop4 is safe for a buffer of `size` characters exactly if
      it holds every text with its NUL, or none at all. */
  lemma Ntop4SafeSizes(size: nat)
    ensures AlwaysFits(size) <==> size < 7 || size >= 16
  {
    hide Print;
    if 7 <= size <= 15 {
      var b := TextOfLength(size);
      assert |Dotted(b)| == size;
    }
  }

  /** inet_aton; the result is the four bytes of `s_addr`, if it returns 1. */
  method InetAton(cp: string, range: int) returns (rc: int, sAddr: seq<Byte>)
    requires ULongRange(range)
    ensures rc == if Aton(cp, range).Some? then 1 else 0
    ensures rc == 1 ==> sAddr == Aton(cp, range).value
  {
    var dots, acc, addr, k := 0, 0, 0, 0;
    sAddr := [];
    while k < |cp|
      invariant 0 <= k <= |cp| && 0 <= dots <= 3 && 0 <= acc && 0 <= addr
      invariant Aton(cp, range) == ScanAton(cp, k, acc, addr, dots, range)
    {
      var cc := cp[k];
      if IsDigit(cc) {
        acc := Wrap(acc * 10 + DigitValue(cc), range);
      } else if cc == '.' {
        dots := dots + 1;
        if dots > 3 || acc > 255 {
          return 0, [];
        }
        addr := Wrap(addr * 256 + acc, range);
        acc := 0;
      } else {
        return 0, [];
      }
      k := k + 1;
    }
    // the terminating NUL
    if acc > 255 {
      return 0, [];
    }
    addr := Wrap(addr * 256 + acc, range);
    addr := Normalize(addr, dots, range);
    return 1, NetworkOrder(addr);
  }

}
