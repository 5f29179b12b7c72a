/**
 IPv6 text: inet_pton6, its in-place expansion of "::", and inet_ntop6 with
 its choice of the zero run to compress.
 */
module Inet6 {
  import opened Common
  import opened Inet4

  /* ---- inet_pton6: the scanning loop ---- */

  predicate IsHexDigit(c: char) {
    '0' <= c <= '9' || 'a' <= c <= 'f' || 'A' <= c <= 'F'
  }

  const XDIGITS_L := "0123456789abcdef"
  const XDIGITS_U := "0123456789ABCDEF"

  function HexDigitValue(c: char): (v: nat)
    requires IsHexDigit(c)
    ensures v < 16
  {
    if c <= '9' then c as int - '0' as int
    else if 'a' <= c then c as int - 'a' as int + 10
    else c as int - 'A' as int + 10
  }

  /** The loop's locals: the bytes in tmp[..tp], `colonp` as an index into tmp
      (-1 for NULL), and the token being read. */
  datatype Locals = Locals(out: seq<Byte>, colonp: int, sawXDigit: bool, val: nat)

  ghost predicate WellFormed(p: Locals) {
    |p.out| <= 16 && -1 <= p.colonp <= |p.out| && p.val <= 0xffff
  }

  const START := Locals([], -1, false, 0)

  /** The bytes stored, and where "::" stood among them. */
  datatype Tokens = Tokens(out: seq<Byte>, colonp: int)

  /** `curtok`: just after the last colon read, or the start of the scan. */
  function TokenStart(s: string, start: nat, i: nat): (t: nat)
    requires start <= i <= |s|
    ensures start <= t <= i
  {
    if i == start then start
    else if s[i - 1] == ':' then i
    else TokenStart(s, start, i - 1)
  }

  /** Storing `val` at tp, high byte first. */
  function Push(p: Locals): Locals
    requires p.val <= 0xffff
  {
    Locals(p.out + [p.val / 256, p.val % 256], p.colonp, false, 0)
  }

  /** What inet_pton6 makes of the characters from `i` on; None is `return 0`. */
  function Scan6(s: string, start: nat, i: nat, p: Locals): (r: Option<Tokens>)
    requires start <= i <= |s| && WellFormed(p)
    ensures r.Some? ==> |r.value.out| <= 16 && -1 <= r.value.colonp <= |r.value.out|
    decreases |s| - i
  {
    if i == |s| then
      if !p.sawXDigit then Some(Tokens(p.out, p.colonp))
      else if |p.out| + 2 > 16 then None
      else Some(Tokens(Push(p).out, p.colonp))
    else if IsHexDigit(s[i]) then
      var v := p.val * 16 + HexDigitValue(s[i]);
      if v > 0xffff then None
      else Scan6(s, start, i + 1, p.(sawXDigit := true, val := v))
    else if s[i] == ':' then
      if !p.sawXDigit then
        if p.colonp >= 0 then None
        else Scan6(s, start, i + 1, p.(colonp := |p.out|))
      else if |p.out| + 2 > 16 then None
      else Scan6(s, start, i + 1, Push(p))
    else if s[i] == '.' && |p.out| + 4 <= 16 then
      match Pton4(s, TokenStart(s, start, i))
      case None => None
      case Some(quad) =>
        Pton4IsDottedQuad(s, TokenStart(s, start, i));
        Some(Tokens(p.out + quad, p.colonp))
    else
      None
  }

  /* ---- inet_pton6: the shift ---- */

  function Zeros(n: nat): (z: seq<Byte>)
    ensures |z| == n && forall k :: 0 <= k < n ==> z[k] == 0
  {
    seq(n, _ => 0)
  }

  /** "::" at `colonp` expanded: the bytes before it, zeros, the bytes after. */
  function Expanded(out: seq<Byte>, colonp: nat): (r: seq<Byte>)
    requires colonp <= |out| <= 16
    ensures |r| == 16
  {
    out[..colonp] + Zeros(16 - |out|) + out[colonp..]
  }

  /** What the shift loop leaves: with no gap to fill it wipes the tail. */
  function Shifted(out: seq<Byte>, colonp: nat): (r: seq<Byte>)
    requires colonp <= |out| <= 16
    ensures |r| == 16
  {
    if |out| < 16 then Expanded(out, colonp) else out[..colonp] + Zeros(16 - colonp)
  }

  /** The loop expands "::" unless all sixteen bytes were already given; then
      it does so only if what follows "::" is zero anyway.  In particular "::"
      in a full address is not ignored. */
  lemma ShiftExpandsUnlessFull(out: seq<Byte>, colonp: nat)
    requires colonp <= |out| <= 16
    ensures Shifted(out, colonp) == Expanded(out, colonp)
       <==> |out| < 16 || forall k :: colonp <= k < 16 ==> out[k] == 0
    ensures |out| == 16 ==> Expanded(out, colonp) == out
  {
    if |out| == 16 {
      assert Expanded(out, colonp) == out;
      var r := Shifted(out, colonp);
      assert forall k :: colonp <= k < 16 ==> r[k] == 0;
      if forall k :: colonp <= k < 16 ==> out[k] == 0 {
        assert r == out;
      }
    }
  }

  /** Where the scan starts: a leading colon must be doubled. */
  function ScanStart(s: string): Option<nat> {
    if s == "" || s[0] != ':' then Some(0)
    else if |s| >= 2 && s[1] == ':' then Some(1)
    else None
  }

  function Finish(t: Tokens): (r: Option<seq<Byte>>)
    requires |t.out| <= 16 && -1 <= t.colonp <= |t.out|
    ensures r.Some? ==> |r.value| == 16
  {
    if t.colonp >= 0 then Some(Shifted(t.out, t.colonp))
    else if |t.out| == 16 then Some(t.out)
    else None
  }

  /** The value of inet_pton6. */
  function Pton6(s: string): (r: Option<seq<Byte>>)
    ensures r.Some? ==> |r.value| == 16
  {
    match ScanStart(s)
    case None => None
    case Some(start) =>
      match Scan6(s, start, start, START)
      case None => None
      case Some(t) => Finish(t)
  }

  /** tmp[k] after `m` turns of the shift loop over the stored bytes `out`. */
  function Moved(out: seq<Byte>, m: nat, k: nat): Byte
    requires m <= |out| <= 16 && k < 16
  {
    if k >= 16 - m then if |out| == 16 then 0 else out[k - (16 - |out|)]
    else if k < |out| - m then out[k]
    else 0
  }

  lemma MovedAll(out: seq<Byte>, colonp: nat, k: nat)
    requires colonp <= |out| <= 16 && k < 16
    ensures Moved(out, |out| - colonp, k) == Shifted(out, colonp)[k]
  {
  }

  /** The shift by hand, in place, over regions that may overlap. */
  method ShiftTail(tmp: array<Byte>, colonp: nat, tp: nat)
    requires tmp.Length == 16 && colonp <= tp <= 16
    requires forall k :: tp <= k < 16 ==> tmp[k] == 0
    modifies tmp
    ensures tmp[..] == Shifted(old(tmp[..tp]), colonp)
  {
    ghost var out := tmp[..tp];
    var endp := 16;
    var n := tp - colonp;
    var i := 1;
    while i <= n
      invariant 1 <= i <= n + 1
      invariant forall k :: 0 <= k < 16 ==> tmp[k] == Moved(out, i - 1, k)
    {
      tmp[endp - i] := tmp[colonp + (n - i)];
      tmp[colonp + (n - i)] := 0;
      i := i + 1;
    }
    forall k | 0 <= k < 16
      ensures tmp[k] == Shifted(out, colonp)[k]
    {
      MovedAll(out, colonp, k);
    }
  }

  /** `*tp++ = val >> 8; *tp++ = val` */
  method PutWord(tmp: array<Byte>, tp: nat, val: nat)
    requires tp + 2 <= tmp.Length && val <= 0xffff
    modifies tmp
    ensures tmp[..tp + 2] == old(tmp[..tp]) + [val / 256, val % 256]
    ensures forall k :: tp + 2 <= k < tmp.Length ==> tmp[k] == old(tmp[k])
  {
    tmp[tp], tmp[tp + 1] := val / 256, val % 256;
  }

  /** The scanning loop of inet_pton6, over a zeroed `tmp`. */
  method ScanLoop(src: string, start: nat, tmp: array<Byte>) returns (ok: bool, tp: nat, colonp: int)
    requires start <= |src| && tmp.Length == 16 && forall k :: 0 <= k < 16 ==> tmp[k] == 0
    modifies tmp
    ensures ok == Scan6(src, start, start, START).Some?
    ensures ok ==> tp <= 16 && Scan6(src, start, start, START).value == Tokens(tmp[..tp], colonp)
    ensures ok ==> forall k :: tp <= k < 16 ==> tmp[k] == 0
  {
    tp, colonp := 0, -1;
    var endp, i, curtok, sawXDigit := 16, start, start, false;
    var val: nat := 0;
    ghost var p := START;
    while i < |src|
      invariant start <= i <= |src| && curtok == TokenStart(src, start, i)
      invariant WellFormed(p) && p == Locals(p.out, colonp, sawXDigit, val)
      invariant tp <= 16 && p.out == tmp[..tp]
      invariant forall k :: tp <= k < 16 ==> tmp[k] == 0
      invariant !sawXDigit ==> val == 0
      invariant Scan6(src, start, start, START) == Scan6(src, start, i, p)
    {
      var ch := src[i];
      i := i + 1;
      if IsHexDigit(ch) {
        val := val * 16 + HexDigitValue(ch);
        if val > 0xffff {
          return false, tp, colonp;
        }
        sawXDigit := true;
        p := p.(sawXDigit := true, val := val);
      } else if ch == ':' {
        curtok := i;
        if !sawXDigit {
          if colonp >= 0 {
            return false, tp, colonp;
          }
          colonp := tp;
          p := p.(colonp := tp);
        } else {
          if tp + 2 > endp {
            return false, tp, colonp;
          }
          PutWord(tmp, tp, val);
          tp, sawXDigit, val := tp + 2, false, 0;
          p := Push(p);
        }
      } else {
        if ch == '.' && tp + 4 <= endp {
          var rc := InetPton4(src, curtok, tmp, tp);
          if rc > 0 {
            QuadStored(tmp, tp, p.out, Pton4(src, curtok).value);
            return true, tp + 4, colonp;
          }
        }
        return false, tp, colonp;
      }
    }
    if sawXDigit {
      if tp + 2 > endp {
        return false, tp, colonp;
      }
      PutWord(tmp, tp, val);
      tp := tp + 2;
    }
    ok := true;
  }

  lemma QuadStored(tmp: array<Byte>, tp: nat, out: seq<Byte>, quad: seq<Byte>)
    requires tp + 4 <= tmp.Length && |out| == tp && |quad| == 4
    requires out + quad <= tmp[..]
    ensures tmp[..tp + 4] == out + quad
  {
    assert tmp[..tp + 4] == tmp[..][..tp + 4];
  }

  /** inet_pton6: `dst` is touched only when the result is 1. */
  method InetPton6(src: string, dst: array<Byte>) returns (rc: int)
    requires dst.Length >= 16
    modifies dst
    ensures rc == if Pton6(src).Some? then 1 else 0
    ensures rc == 1 ==> dst[..] == Pton6(src).value + old(dst[16..])
    ensures rc == 0 ==> dst[..] == old(dst[..])
  {
    var tmp := new Byte[16](_ => 0);
    var start := 0;
    if start < |src| && src[start] == ':' {
      start := start + 1;
      if start == |src| || src[start] != ':' {
        return 0;
      }
    }
    var ok, tp, colonp := ScanLoop(src, start, tmp);
    if !ok {
      return 0;
    }
    rc := Deliver(tmp, tp, colonp, dst);
  }

  /** The end of inet_pton6: shift if "::" was seen, check, copy out. */
  method Deliver(tmp: array<Byte>, tp: nat, colonp: int, dst: array<Byte>) returns (rc: int)
    requires tmp.Length == 16 && tp <= 16 && -1 <= colonp <= tp
    requires forall k :: tp <= k < 16 ==> tmp[k] == 0
    requires dst.Length >= 16 && dst != tmp
    modifies tmp, dst
    ensures rc == if Finish(Tokens(old(tmp[..tp]), colonp)).Some? then 1 else 0
    ensures rc == 1 ==> dst[..] == Finish(Tokens(old(tmp[..tp]), colonp)).value + old(dst[16..])
    ensures rc == 0 ==> dst[..] == old(dst[..])
  {
    var end := tp;
    if colonp >= 0 {
      ShiftTail(tmp, colonp, tp);
      end := 16;
    }
    if end != 16 {
      return 0;
    }
    assert tmp[..16] == tmp[..];
    Copy(tmp, dst, 0);
    assert old(dst[..0]) + tmp[..] + old(dst[16..]) == tmp[..] + old(dst[16..]);
    return 1;
  }

  /* ---- inet_ntop6: the zero run ---- */

  type Word = w: int | 0 <= w <= 0xffff

  function Words(b: seq<Byte>): (w: seq<Word>)
    requires |b| == 16
    ensures |w| == 8
  {
    seq(8, k requires 0 <= k < 8 => (b[2 * k] as int) * 256 + b[2 * k + 1])
  }

  /** A run of zero words; base -1 means none. */
  datatype Run = Run(base: int, len: int)

  predicate ZeroRun(w: seq<Word>, base: int, len: int) {
    0 <= base && 0 < len && base + len <= |w| && forall k :: base <= k < base + len ==> w[k] == 0
  }

  /** No zero run within the first `stop` words beats `r`. */
  ghost predicate Unbeaten(w: seq<Word>, stop: int, r: Run) {
    forall b, l :: ZeroRun(w, b, l) && b + l <= stop ==> l < r.len || (l == r.len && r.base <= b)
  }

  /** The longest run of at least two zero words, the leftmost among equals. */
  ghost predicate LeftmostLongest(w: seq<Word>, r: Run) {
    if r.base == -1 then forall b, l :: ZeroRun(w, b, l) ==> l < 2
    else ZeroRun(w, r.base, r.len) && r.len >= 2 && Unbeaten(w, |w|, r)
  }

  /** The loop's `cur` and `best` after the first `i` words. */
  datatype Runs = Runs(cur: Run, best: Run)

  function Better(s: Runs): Run {
    if s.best.base == -1 || s.cur.len > s.best.len then s.cur else s.best
  }

  function ScanRuns(w: seq<Word>, i: nat): Runs
    requires i <= |w|
  {
    if i == 0 then Runs(Run(-1, 0), Run(-1, 0))
    else
      var s := ScanRuns(w, i - 1);
      if w[i - 1] == 0 then
        s.(cur := if s.cur.base == -1 then Run(i - 1, 1) else s.cur.(len := s.cur.len + 1))
      else if s.cur.base != -1 then
        Runs(s.cur.(base := -1), Better(s))
      else s
  }

  function BestRun(w: seq<Word>): Run {
    var s := ScanRuns(w, |w|);
    var best := if s.cur.base != -1 then Better(s) else s.best;
    if best.base != -1 && best.len < 2 then best.(base := -1) else best
  }

  /** `cur` is the zero run that ends at word `i`, if there is one. */
  ghost predicate IsCurrent(w: seq<Word>, i: nat, cur: Run)
    requires i <= |w|
  {
    if cur.base == -1 then i > 0 ==> w[i - 1] != 0
    else
      && ZeroRun(w, cur.base, cur.len) && cur.base + cur.len == i
      && (cur.base > 0 ==> w[cur.base - 1] != 0)
  }

  /** `best` is the leftmost longest zero run among the first `stop` words. */
  ghost predicate IsBest(w: seq<Word>, stop: int, best: Run) {
    if best.base == -1 then forall b, l :: ZeroRun(w, b, l) ==> b + l > stop
    else ZeroRun(w, best.base, best.len) && best.base + best.len <= stop && Unbeaten(w, stop, best)
  }

  lemma RunAvoids(w: seq<Word>, b: int, l: int, k: int)
    requires ZeroRun(w, b, l) && 0 <= k < |w| && w[k] != 0
    ensures k < b || b + l <= k
  {
  }

  /** Closing a run that starts where `best` stopped looking. */
  lemma CloseRun(w: seq<Word>, i: nat, s: Runs)
    requires i <= |w| && IsCurrent(w, i, s.cur) && s.cur.base != -1
    requires IsBest(w, s.cur.base, s.best)
    requires i < |w| ==> w[i] != 0
    ensures IsBest(w, i, Better(s)) && Better(s).base != -1
    ensures i < |w| ==> IsBest(w, i + 1, Better(s))
  {
    var stop := if i < |w| then i + 1 else i;
    forall b, l | ZeroRun(w, b, l) && b + l <= stop
      ensures b + l <= i
      ensures l < Better(s).len || (l == Better(s).len && Better(s).base <= b)
    {
      if i < |w| {
        RunAvoids(w, b, l, i);
      }
      if s.cur.base > 0 {
        RunAvoids(w, b, l, s.cur.base - 1);
      }
    }
  }

  lemma {:induction false} ScanRunsInvariant(w: seq<Word>, i: nat)
    requires i <= |w|
    ensures var s := ScanRuns(w, i);
            && IsCurrent(w, i, s.cur)
            && IsBest(w, if s.cur.base == -1 then i else s.cur.base, s.best)
  {
    if i > 0 {
      ScanRunsInvariant(w, i - 1);
      var s := ScanRuns(w, i - 1);
      if w[i - 1] != 0 {
        if s.cur.base != -1 {
          CloseRun(w, i - 1, s);
        } else {
          forall b, l | ZeroRun(w, b, l) && b + l <= i
            ensures b + l <= i - 1
          {
            RunAvoids(w, b, l, i - 1);
          }
        }
      }
    }
  }

  /** inet_ntop6 compresses the leftmost among the longest zero runs, and only
      a run of at least two words. */
  lemma BestRunIsLeftmostLongest(w: seq<Word>)
    ensures LeftmostLongest(w, BestRun(w))
  {
    ScanRunsInvariant(w, |w|);
    var s := ScanRuns(w, |w|);
    if s.cur.base != -1 {
      CloseRun(w, |w|, s);
    }
  }

  /** That choice is the only one. */
  lemma LeftmostLongestUnique(w: seq<Word>, r: Run, q: Run)
    requires LeftmostLongest(w, r) && LeftmostLongest(w, q)
    ensures r.base == q.base && (r.base != -1 ==> r.len == q.len)
  {
  }

}
