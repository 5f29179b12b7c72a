/** The text inet_ntop6 prints, and the round trip through inet_pton6. */
module Inet6Text {
  import opened Common
  import opened Inet4
  import opened Inet6

  /* ---- The text ---- */

  function HexChar(d: nat): char
    requires d < 16
  {
    if d < 10 then '0' + d as char else 'a' + (d - 10) as char
  }

  /** printf "%x". */
  function Hex(n: nat): (s: string)
    ensures |s| >= 1
    ensures n < 0x10 ==> |s| == 1
    ensures n < 0x100 ==> |s| <= 2
    ensures n < 0x1000 ==> |s| <= 3
    ensures n < 0x1_0000 ==> |s| <= 4
  {
    if n < 16 then [HexChar(n)] else Hex(n / 16) + [HexChar(n % 16)]
  }

  predicate InRun(r: Run, i: int) {
    r.base != -1 && r.base <= i < r.base + r.len
  }

  /** "::a.b.c.d" and "::ffff:a.b.c.d". */
  predicate Embeds(w: seq<Word>, r: Run)
    requires |w| == 8
  {
    r.base == 0 && (r.len == 6 || (r.len == 5 && w[5] == 0xffff))
  }

  /** What one turn of the loop appends for word `i`. */
  function Piece(w: seq<Word>, r: Run, i: nat): (s: string)
    requires |w| == 8 && i < 8
    ensures |s| <= if i == 0 then 4 else 5
  {
    if InRun(r, i) then
      if i == r.base then ":" else ""
    else
      (if i != 0 then ":" else "") + Hex(w[i])
  }

  function Pieces(w: seq<Word>, r: Run, k: nat): (s: string)
    requires |w| == 8 && k <= 8
    ensures k > 0 ==> |s| <= 5 * k - 1
    ensures k == 0 ==> s == ""
  {
    if k == 0 then "" else Pieces(w, r, k - 1) + Piece(w, r, k - 1)
  }

  /** The text for the words `w` with the run `r` compressed; `quad` holds the
      last four bytes. */
  function Text(w: seq<Word>, r: Run, quad: seq<Byte>): string
    requires |w| == 8 && |quad| == 4
  {
    if Embeds(w, r) then Pieces(w, r, 6) + ":" + Dotted(quad)
    else Pieces(w, r, 8) + if r.base != -1 && r.base + r.len == 8 then ":" else ""
  }

  /** The text inet_ntop6 prints. */
  function Ntop6(b: seq<Byte>): string
    requires |b| == 16
  {
    Text(Words(b), BestRun(Words(b)), b[12..])
  }

  /** A run of zero words prints as a single colon. */
  lemma {:induction false} RunPieces(w: seq<Word>, r: Run, k: nat)
    requires |w| == 8 && k <= 8 && r.base != -1 && 0 <= r.base <= k <= r.base + r.len
    ensures |Pieces(w, r, k)| <= |Pieces(w, r, r.base)| + 1
    decreases k
  {
    if k > r.base {
      RunPieces(w, r, k - 1);
    }
  }

  /** At most 39 characters, so 40 bytes hold the text and its NUL. */
  lemma Ntop6Length(b: seq<Byte>)
    requires |b| == 16
    ensures |Ntop6(b)| <= 39
  {
    var w := Words(b);
    var r := BestRun(w);
    BestRunIsLeftmostLongest(w);
    if Embeds(w, r) {
      RunPieces(w, r, 5);
      assert Pieces(w, r, 6) == Pieces(w, r, 5) + Piece(w, r, 5);
    } else if r.base != -1 && r.base + r.len == 8 {
      RunPieces(w, r, 8);
    }
  }

  /** sprintf or strcpy at `tp`, then `tp += strlen(tp)`. */
  method Append(tmp: array<char>, tp: nat, s: string) returns (end: nat)
    requires tp + |s| < tmp.Length
    modifies tmp
    ensures end == tp + |s| && tmp[..end] == old(tmp[..tp]) + s
  {
    StrCpy(tmp, tp, s);
    end := tp + |s|;
    assert tmp[..end] == (old(tmp[..tp]) + s + ['\0'] + old(tmp[tp + |s| + 1..]))[..end];
  }

  /** `*tp++ = c` */
  method PutChar(tmp: array<char>, tp: nat, c: char) returns (end: nat)
    requires tp < tmp.Length
    modifies tmp
    ensures end == tp + 1 && tmp[..end] == old(tmp[..tp]) + [c]
  {
    tmp[tp] := c;
    end := tp + 1;
  }

  /** The preprocessing loops: the words, and the run to compress. */
  method Preprocess(src: seq<Byte>) returns (w: seq<Word>, best: Run)
    requires |src| == 16
    ensures w == Words(src) && best == BestRun(w)
  {
    var words := new int[8](_ => 0);
    var i := 0;
    while i < 16
      invariant 0 <= i <= 16
      invariant forall k :: 0 <= k < i / 2 ==> words[k] == Words(src)[k]
      invariant i % 2 == 1 ==> words[i / 2] == (src[i - 1] as int) * 256
      invariant forall k :: (i + 1) / 2 <= k < 8 ==> words[k] == 0
    {
      // the bytes of a word do not overlap, so |= adds
      words[i / 2] := words[i / 2] + src[i] * (if i % 2 == 0 then 256 else 1);
      i := i + 1;
    }
    assert words[..] == Words(src);
    w := words[..];
    var cur := Run(-1, 0);
    best := Run(-1, 0);
    i := 0;
    while i < 8
      invariant 0 <= i <= 8
      invariant Runs(cur, best) == ScanRuns(w, i)
    {
      if w[i] == 0 {
        if cur.base == -1 {
          cur := Run(i, 1);
        } else {
          cur := cur.(len := cur.len + 1);
        }
      } else {
        if cur.base != -1 {
          if best.base == -1 || cur.len > best.len {
            best := cur;
          }
          cur := cur.(base := -1);
        }
      }
      i := i + 1;
    }
    if cur.base != -1 {
      if best.base == -1 || cur.len > best.len {
        best := cur;
      }
    }
    if best.base != -1 && best.len < 2 {
      best := best.(base := -1);
    }
  }

  /** inet_ntop4 at `tp`, then `tp += strlen(tp)`; `tmp` always has room. */
  method AppendQuad(tmp: array<char>, tp: nat, quad: seq<Byte>) returns (end: nat)
    requires |quad| == 4 && tp + 16 <= tmp.Length
    modifies tmp
    ensures end == tp + |Dotted(quad)| && tmp[..end] == old(tmp[..tp]) + Dotted(quad)
  {
    var ok := InetNtop4(quad, tmp, tp, tmp.Length - tp);
    end := tp + |Dotted(quad)|;
    assert tmp[..end] == (old(tmp[..tp]) + Dotted(quad) + ['\0'] + old(tmp[end + 1..]))[..end];
  }

  /** One turn of the formatting loop, away from an embedded IPv4 address. */
  method FormatPiece(tmp: array<char>, tp: nat, w: seq<Word>, best: Run, i: nat) returns (end: nat)
    requires |w| == 8 && i < 8 && tp + 5 < tmp.Length
    modifies tmp
    ensures end == tp + |Piece(w, best, i)| && tmp[..end] == old(tmp[..tp]) + Piece(w, best, i)
  {
    end := tp;
    if best.base != -1 && i >= best.base && i < best.base + best.len {
      if i == best.base {
        end := PutChar(tmp, end, ':');
      }
    } else {
      if i != 0 {
        end := PutChar(tmp, end, ':');
      }
      end := Append(tmp, end, Hex(w[i]));
    }
  }

  /** The formatting loop, into the 46 characters of `tmp`. */
  method Format(w: seq<Word>, best: Run, quad: seq<Byte>, tmp: array<char>) returns (tp: nat)
    requires |w| == 8 && |quad| == 4 && tmp.Length == 46
    modifies tmp
    ensures tp == |Text(w, best, quad)| && tmp[..tp] == Text(w, best, quad)
  {
    tp := 0;
    var i := 0;
    ghost var text := "";
    while i < 8
      invariant 0 <= i <= 8 && text == Pieces(w, best, i)
      invariant tp == |text| && tmp[..tp] == text
      invariant Embeds(w, best) ==> i <= 6
    {
      if i == 6 && best.base == 0 && (best.len == 6 || (best.len == 5 && w[5] == 0xffff)) {
        tp := PutChar(tmp, tp, ':');
        tp := AppendQuad(tmp, tp, quad);
        return;
      }
      tp := FormatPiece(tmp, tp, w, best, i);
      text := text + Piece(w, best, i);
      i := i + 1;
    }
    if best.base != -1 && best.base + best.len == 8 {
      tp := PutChar(tmp, tp, ':');
    }
  }

  /** inet_ntop6; false stands for NULL with ENOSPC. */
  method InetNtop6(src: seq<Byte>, dst: array<char>, size: nat) returns (ok: bool)
    requires |src| == 16 && size <= dst.Length
    modifies dst
    ensures ok == (|Ntop6(src)| + 1 <= size)
    ensures ok ==> dst[..] == Ntop6(src) + ['\0'] + old(dst[|Ntop6(src)| + 1..])
    ensures !ok ==> dst[..] == old(dst[..])
  {
    var tmp := new char[46](_ => '\0');
    var w, best := Preprocess(src);
    Ntop6Length(src);
    var tp := Format(w, best, src[12..], tmp);
    tp := PutChar(tmp, tp, '\0');
    if tp > size {
      return false;
    }
    var text := tmp[..tp - 1];
    assert text == tmp[..tp][..tp - 1] == Ntop6(src);
    StrCpy(dst, 0, text);
    assert old(dst[..0]) + text + ['\0'] == text + ['\0'];
    return true;
  }

  /* ---- Reading the text back ---- */

  lemma HexCharValue(d: nat)
    requires d < 16
    ensures IsHexDigit(HexChar(d)) && HexDigitValue(HexChar(d)) == d
  {
  }

  /** A hexadecimal number read from the start of a token. */
  lemma {:induction false} ScanHex(s: string, start: nat, i: nat, n: Word, p: Locals)
    requires start <= i && At(s, i, Hex(n))
    requires WellFormed(p) && !p.sawXDigit && p.val == 0
    ensures Scan6(s, start, i, p) == Scan6(s, start, i + |Hex(n)|, p.(sawXDigit := true, val := n))
    decreases n
  {
    if n >= 16 {
      var t := Hex(n / 16);
      AtSplit(s, i, t, [HexChar(n % 16)]);
      ScanHex(s, start, i, n / 16, p);
      AtChar(s, i + |t|, HexChar(n % 16));
      HexCharValue(n % 16);
    } else {
      AtChar(s, i, HexChar(n));
      HexCharValue(n);
    }
  }

  /** No run, or at least two of the eight words. */
  predicate Fits(r: Run) {
    r.base == -1 || (0 <= r.base && 2 <= r.len && r.base + r.len <= 8)
  }

  /** The parser's locals once it has read the pieces of the first `k` words. */
  function After(b: seq<Byte>, r: Run, k: nat): Locals
    requires |b| == 16 && k <= 8 && Fits(r)
  {
    var w := Words(b);
    if k == 0 then START
    else if r.base == -1 || k <= r.base then Locals(b[..2 * (k - 1)], -1, true, w[k - 1])
    else if k <= r.base + r.len then Locals(b[..2 * r.base], -1, false, 0)
    else Locals(b[..2 * r.base] + b[2 * (r.base + r.len)..2 * (k - 1)], 2 * r.base, true, w[k - 1])
  }

  /** Storing the pending word appends its two bytes. */
  lemma PushWord(b: seq<Byte>, p: Locals, lo: nat, k: nat)
    requires |b| == 16 && lo <= 2 * k && k < 8 && p.val == Words(b)[k]
    requires p.colonp == -1 ==> lo == 0 && p.out == b[..2 * k]
    requires p.colonp >= 0 ==> p.colonp <= 16 && p.out == b[..p.colonp] + b[lo..2 * k]
    ensures p.colonp == -1 ==> Push(p).out == b[..2 * k + 2]
    ensures p.colonp >= 0 ==> Push(p).out == b[..p.colonp] + b[lo..2 * k + 2]
  {
    assert [p.val / 256, p.val % 256] == [b[2 * k] as int, b[2 * k + 1]];
    assert b[lo..2 * k + 2] == b[lo..2 * k] + [b[2 * k], b[2 * k + 1]];
  }

  /** What a colon does to the locals. */
  function AfterColon(p: Locals): Locals
    requires WellFormed(p)
  {
    if p.sawXDigit then Push(p) else p.(colonp := |p.out|)
  }

  /** The pieces and the locals advance together. */
  lemma AfterStep(b: seq<Byte>, r: Run, k: nat)
    requires |b| == 16 && k < 8 && Fits(r)
    requires r.base == 0 ==> k > 0
    ensures WellFormed(After(b, r, k))
    ensures var p, q := After(b, r, k), After(b, r, k + 1);
            if InRun(r, k) then
              if k == r.base then p.sawXDigit && |p.out| <= 14 && q == Push(p) else q == p
            else if k == 0 then q == START.(sawXDigit := true, val := Words(b)[0])
            else
              && (if p.sawXDigit then |p.out| <= 14 else p.val == 0 && p.colonp == -1)
              && q == AfterColon(p).(sawXDigit := true, val := Words(b)[k])
  {
    var p := After(b, r, k);
    if k > 0 && p.sawXDigit {
      if p.colonp == -1 {
        PushWord(b, p, 0, k - 1);
      } else {
        PushWord(b, p, 2 * (r.base + r.len), k - 1);
      }
    } else if k > 0 && !InRun(r, k) {
      assert b[2 * k..2 * k] == [];
    }
  }

  /** A colon and the word after it. */
  lemma ReadSeparated(s: string, start: nat, i: nat, n: Word, p: Locals)
    requires start <= i && At(s, i, ":" + Hex(n)) && WellFormed(p)
    requires if p.sawXDigit then |p.out| <= 14 else p.val == 0 && p.colonp == -1
    ensures Scan6(s, start, i, p)
         == Scan6(s, start, i + |":" + Hex(n)|, AfterColon(p).(sawXDigit := true, val := n))
  {
    AtSplit(s, i, ":", Hex(n));
    AtChar(s, i, ':');
    ScanHex(s, start, i + 1, n, AfterColon(p));
  }

  /** Reading the piece of word `k`. */
  lemma ReadPiece(b: seq<Byte>, r: Run, k: nat, s: string, start: nat, i: nat)
    requires |b| == 16 && k < 8 && Fits(r)
    requires start <= i && At(s, i, Piece(Words(b), r, k))
    requires r.base == 0 ==> k > 0
    ensures WellFormed(After(b, r, k)) && WellFormed(After(b, r, k + 1))
    ensures Scan6(s, start, i, After(b, r, k))
         == Scan6(s, start, i + |Piece(Words(b), r, k)|, After(b, r, k + 1))
  {
    hide Words;
    var w := Words(b);
    AfterStep(b, r, k);
    if InRun(r, k) {
      if k == r.base {
        AtChar(s, i, ':');
      }
    } else if k == 0 {
      assert Piece(w, r, 0) == Hex(w[0]);
      ScanHex(s, start, i, w[0], START);
    } else {
      ReadSeparated(s, start, i, w[k], After(b, r, k));
    }
  }

  /** Reading all the pieces of the first `k` words. */
  lemma {:induction false} ReadPieces(b: seq<Byte>, r: Run, k: nat, s: string, start: nat)
    requires |b| == 16 && k <= 8 && Fits(r)
    requires start == if r.base == 0 then 1 else 0
    requires r.base == 0 ==> k > 0
    requires At(s, 0, Pieces(Words(b), r, k))
    ensures start <= |Pieces(Words(b), r, k)| && WellFormed(After(b, r, k))
    ensures Scan6(s, start, start, START)
         == Scan6(s, start, |Pieces(Words(b), r, k)|, After(b, r, k))
    decreases k
  {
    hide Words;
    var w := Words(b);
    if r.base == 0 && k == 1 {
      AfterFirstColon(b, r);
    } else if k > 0 {
      AtSplit(s, 0, Pieces(w, r, k - 1), Piece(w, r, k - 1));
      ReadPieces(b, r, k - 1, s, start);
      ReadPiece(b, r, k - 1, s, start, |Pieces(w, r, k - 1)|);
    }
  }

  /** The first colon of a leading run comes before the scan. */
  lemma AfterFirstColon(b: seq<Byte>, r: Run)
    requires |b| == 16 && Fits(r) && r.base == 0
    ensures Pieces(Words(b), r, 1) == ":" && After(b, r, 1) == START
  {
    assert Pieces(Words(b), r, 0) == "";
  }

  /** The zero words that were left out come back. */
  lemma FillRun(b: seq<Byte>, r: Run)
    requires |b| == 16 && r.base != -1 && ZeroRun(Words(b), r.base, r.len)
    ensures Expanded(b[..2 * r.base] + b[2 * (r.base + r.len)..], 2 * r.base) == b
  {
    var lo, hi := 2 * r.base, 2 * (r.base + r.len);
    forall k | lo <= k < hi
      ensures b[k] == 0
    {
      assert Words(b)[k / 2] == 0;
    }
    var out := b[..lo] + b[hi..];
    assert out[..lo] == b[..lo] && out[lo..] == b[hi..];
    assert b[lo..hi] == Zeros(16 - |out|);
    assert b == b[..lo] + b[lo..hi] + b[hi..];
  }

  /** A text that starts with a run starts with two colons. */
  lemma LeadingRun(w: seq<Word>, r: Run, k: nat)
    requires |w| == 8 && r.base == 0 && 1 <= r.len < k <= 8
    ensures "::" <= Pieces(w, r, k)
  {
    SecondColon(w, r, r.len);
    assert Piece(w, r, r.len) == ":" + Hex(w[r.len]);
    assert "::" <= Pieces(w, r, r.len + 1);
    PiecesPrefix(w, r, r.len + 1, k);
  }

  /** Any other text starts with a hexadecimal digit. */
  lemma LeadingWord(w: seq<Word>, r: Run, k: nat)
    requires |w| == 8 && (r.base == -1 || 0 < r.base) && 1 <= k <= 8
    ensures Pieces(w, r, k) != "" && Pieces(w, r, k)[0] != ':'
  {
    assert Pieces(w, r, 1) == Pieces(w, r, 0) + Piece(w, r, 0) == Hex(w[0]);
    PiecesPrefix(w, r, 1, k);
    HexFirst(w[0]);
  }

  /** The first characters decide where the scan starts. */
  lemma StartOfText(b: seq<Byte>)
    requires |b| == 16
    ensures ScanStart(Ntop6(b)) == Some(if BestRun(Words(b)).base == 0 then 1 else 0)
  {
    var w := Words(b);
    var r := BestRun(w);
    BestRunIsLeftmostLongest(w);
    var k := if Embeds(w, r) then 6 else 8;
    if r.base != 0 {
      LeadingWord(w, r, k);
    } else if r.len < k {
      LeadingRun(w, r, k);
    } else {
      SecondColon(w, r, k);
    }
  }

  lemma {:induction false} PiecesPrefix(w: seq<Word>, r: Run, j: nat, k: nat)
    requires |w| == 8 && j <= 8 && k <= 8
    ensures j <= k ==> Pieces(w, r, j) <= Pieces(w, r, k)
    decreases k
  {
    if j < k {
      PiecesPrefix(w, r, j, k - 1);
    }
  }

  lemma {:induction false} SecondColon(w: seq<Word>, r: Run, k: nat)
    requires |w| == 8 && r.base == 0 && 1 <= k <= r.len && k <= 8
    ensures Pieces(w, r, k) == ":"
    decreases k
  {
    assert Pieces(w, r, 0) == "";
    if k > 1 {
      SecondColon(w, r, k - 1);
    }
  }

  lemma {:induction false} HexFirst(n: nat)
    ensures Hex(n)[0] != ':'
  {
    if n >= 16 {
      HexFirst(n / 16);
    }
  }

  /** The locals at the end of a plain text yield the address. */
  lemma FinishPlain(b: seq<Byte>, r: Run)
    requires |b| == 16 && LeftmostLongest(Words(b), r)
    ensures var p := After(b, r, 8);
            var q := if p.sawXDigit then Push(p) else p.(colonp := |p.out|);
            |q.out| <= 16 && -1 <= q.colonp <= |q.out| && Finish(Tokens(q.out, q.colonp)) == Some(b)
  {
    var p := After(b, r, 8);
    if r.base == -1 {
      PushWord(b, p, 0, 7);
      assert b[..16] == b;
    } else {
      FillRun(b, r);
      if r.base + r.len < 8 {
        PushWord(b, p, 2 * (r.base + r.len), 7);
        assert b[2 * (r.base + r.len)..16] == b[2 * (r.base + r.len)..];
      } else {
        assert p.out == b[..2 * r.base] + b[16..];
      }
    }
  }

  /** A plain text: hexadecimal words only. */
  lemma ReadPlain(b: seq<Byte>)
    requires |b| == 16 && !Embeds(Words(b), BestRun(Words(b)))
    ensures Pton6(Ntop6(b)) == Some(b)
  {
    hide Words, BestRun;
    var w, s := Words(b), Ntop6(b);
    var r := BestRun(w);
    BestRunIsLeftmostLongest(w);
    StartOfText(b);
    var tail := if r.base != -1 && r.base + r.len == 8 then ":" else "";
    assert s == Pieces(w, r, 8) + tail;
    AtSplit(s, 0, Pieces(w, r, 8), tail);
    ReadPieces(b, r, 8, s, if r.base == 0 then 1 else 0);
    FinishPlain(b, r);
  }

  /** At most three decimal digits, read as hexadecimal, never overflow. */
  lemma {:induction false} SkipDigits(s: string, start: nat, i: nat, j: nat, p: Locals) returns (q: Locals)
    requires start <= i <= j <= |s| && j - i <= 3 && DigitsIn(s, i, j) && WellFormed(p)
    requires j - i == 3 ==> p.val == 0
    requires j - i == 2 ==> p.val < 16
    requires j - i == 1 ==> p.val < 256
    ensures WellFormed(q) && q.out == p.out && q.colonp == p.colonp
    ensures Scan6(s, start, i, p) == Scan6(s, start, j, q)
    decreases j - i
  {
    if i == j {
      q := p;
    } else {
      q := SkipDigits(s, start, i + 1, j, p.(sawXDigit := true, val := p.val * 16 + HexDigitValue(s[i])));
    }
  }

  lemma {:induction false} TokenStartAt(s: string, start: nat, t: nat, i: nat)
    requires start < t <= i <= |s| && s[t - 1] == ':' && DigitsIn(s, t, i)
    ensures TokenStart(s, start, i) == t
    decreases i
  {
    if t < i {
      TokenStartAt(s, start, t, i - 1);
    }
  }

  /** The dotted quad at the end of the text. */
  lemma ReadQuad(s: string, start: nat, t: nat, quad: seq<Byte>, p: Locals)
    requires |quad| == 4 && start < t && At(s, t, Dotted(quad)) && t + |Dotted(quad)| == |s|
    requires s[t - 1] == ':' && WellFormed(p) && |p.out| <= 12 && p.val == 0
    ensures Scan6(s, start, t, p) == Some(Tokens(p.out + quad, p.colonp))
  {
    var first, rest := Print(quad[0]), "." + Dotted(quad[1..]);
    var j := t + |first|;
    AtSplit(s, t, first, rest);
    AtSplit(s, j, ".", Dotted(quad[1..]));
    AtChar(s, j, '.');
    PrintedField(s, t, quad[0]);
    var q := SkipDigits(s, start, t, j, p);
    TokenStartAt(s, start, t, j);
    RoundTrip4At(s, t, quad);
  }

  /** The locals before the dotted quad, and what the quad completes. */
  lemma FinishEmbedded(b: seq<Byte>, r: Run)
    requires |b| == 16 && LeftmostLongest(Words(b), r) && Embeds(Words(b), r)
    ensures WellFormed(After(b, r, 6))
    ensures var p := After(b, r, 6);
            var q := AfterColon(p);
            && (if p.sawXDigit then |p.out| <= 14 else p.colonp == -1)
            && WellFormed(q) && q.val == 0 && |q.out| <= 12 && q.colonp == 0
            && Finish(Tokens(q.out + b[12..], 0)) == Some(b)
  {
    var p := After(b, r, 6);
    if r.len == 5 {
      PushWord(b, p, 10, 5);
    }
    var q := AfterColon(p);
    assert b[2 * r.len..] == q.out + b[12..];
    assert b[..0] + b[2 * r.len..] == b[2 * r.len..];
    FillRun(b, r);
  }

  lemma EmbeddedLayout(b: seq<Byte>)
    requires |b| == 16 && Embeds(Words(b), BestRun(Words(b)))
    ensures var s, t := Ntop6(b), Pieces(Words(b), BestRun(Words(b)), 6);
            && At(s, 0, t) && s[|t|] == ':' && At(s, |t| + 1, Dotted(b[12..]))
            && |t| + 1 + |Dotted(b[12..])| == |s|
  {
    var s, t := Ntop6(b), Pieces(Words(b), BestRun(Words(b)), 6);
    AtSplit(s, 0, t + ":", Dotted(b[12..]));
    AtSplit(s, 0, t, ":");
    AtChar(s, |t|, ':');
  }

  /** The single colon before a dotted quad. */
  lemma ColonBefore(s: string, start: nat, i: nat, p: Locals)
    requires start <= i < |s| && s[i] == ':' && WellFormed(p)
    requires if p.sawXDigit then |p.out| <= 14 else p.colonp == -1
    ensures Scan6(s, start, i, p) == Scan6(s, start, i + 1, AfterColon(p))
  {
  }

  /** A text that ends in a dotted quad. */
  lemma ReadEmbedded(b: seq<Byte>)
    requires |b| == 16 && Embeds(Words(b), BestRun(Words(b)))
    ensures Pton6(Ntop6(b)) == Some(b)
  {
    hide Words, BestRun, Dotted, Scan6, Pieces, After, Finish;
    var w, s := Words(b), Ntop6(b);
    var r := BestRun(w);
    BestRunIsLeftmostLongest(w);
    StartOfText(b);
    EmbeddedLayout(b);
    ReadPieces(b, r, 6, s, 1);
    FinishEmbedded(b, r);
    ColonBefore(s, 1, |Pieces(w, r, 6)|, After(b, r, 6));
    ReadQuad(s, 1, |Pieces(w, r, 6)| + 1, b[12..], AfterColon(After(b, r, 6)));
  }

  /** inet_pton6 recovers every address from the text inet_ntop6 prints. */
  lemma RoundTrip6(b: seq<Byte>)
    requires |b| == 16
    ensures Pton6(Ntop6(b)) == Some(b)
  {
    if Embeds(Words(b), BestRun(Words(b))) {
      ReadEmbedded(b);
    } else {
      ReadPlain(b);
    }
  }

  /** Different addresses print differently. */
  lemma Ntop6Injective(a: seq<Byte>, b: seq<Byte>)
    requires |a| == 16 && |b| == 16 && Ntop6(a) == Ntop6(b)
    ensures a == b
  {
    RoundTrip6(a);
    RoundTrip6(b);
  }

  /** Two bytes for each of the first `n` one-digit words of a text such as
      "1:2:3:". */
  function DigitWords(s: string, n: nat): (b: seq<Byte>)
    requires 2 * n <= |s| && forall k :: 0 <= k < n ==> IsHexDigit(s[2 * k])
    ensures |b| == 2 * n
  {
    if n == 0 then [] else DigitWords(s, n - 1) + [0, HexDigitValue(s[2 * (n - 1)])]
  }

  lemma {:induction false} ReadDigitWords(s: string, n: nat)
    requires 2 * n <= |s| && n <= 7
    requires forall k :: 0 <= k < n ==> IsHexDigit(s[2 * k]) && s[2 * k + 1] == ':'
    ensures Scan6(s, 0, 0, START) == Scan6(s, 0, 2 * n, Locals(DigitWords(s, n), -1, false, 0))
  {
    if n > 0 {
      ReadDigitWords(s, n - 1);
      var p := Locals(DigitWords(s, n - 1), -1, false, 0);
      var q := p.(sawXDigit := true, val := HexDigitValue(s[2 * n - 2]));
      assert Scan6(s, 0, 2 * n - 2, p) == Scan6(s, 0, 2 * n - 1, q);
      assert Scan6(s, 0, 2 * n - 1, q) == Scan6(s, 0, 2 * n, Push(q));
    }
  }

  /** "::" in a full address is not ignored, as the comment in the source has
      it: in "1:2:3:4:5:6:7::8" and its like the last word is lost. */
  lemma FullAddressLosesItsTail(s: string)
    requires |s| == 16 && s[14] == ':' && IsHexDigit(s[15])
    requires forall k :: 0 <= k < 7 ==> IsHexDigit(s[2 * k]) && s[2 * k + 1] == ':'
    ensures Pton6(s) == Some(DigitWords(s, 7) + [0, 0])
    ensures s[15] != '0' ==> Pton6(s) != Some(DigitWords(s, 7) + [0, HexDigitValue(s[15])])
  {
    ReadDigitWords(s, 7);
    assert IsHexDigit(s[2 * 0]);
    var p := Locals(DigitWords(s, 7), -1, false, 0);
    var q := p.(colonp := 14);
    var last := q.(sawXDigit := true, val := HexDigitValue(s[15]));
    assert Scan6(s, 0, 14, p) == Scan6(s, 0, 15, q) == Scan6(s, 0, 16, last);
    assert Shifted(Push(last).out, 14) == p.out + [0, 0];
    assert (p.out + [0, 0])[15] == 0 && (p.out + [0, HexDigitValue(s[15])])[15] == HexDigitValue(s[15]);
  }

  /* ---- The form of the text ---- */

  /** A text with the words of `r` left out: what it gives, and where "::" stands. */
  function WithoutRun(b: seq<Byte>, r: Run): Tokens
    requires |b| == 16 && Fits(r)
  {
    if r.base == -1 then Tokens(b, -1)
    else Tokens(b[..2 * r.base] + b[2 * (r.base + r.len)..], 2 * r.base)
  }

  lemma PlainTokens(b: seq<Byte>, r: Run)
    requires |b| == 16 && LeftmostLongest(Words(b), r)
    ensures var p := After(b, r, 8);
            var q := if p.sawXDigit then Push(p) else p.(colonp := |p.out|);
            Tokens(q.out, q.colonp) == WithoutRun(b, r)
  {
    var p := After(b, r, 8);
    if r.base == -1 {
      PushWord(b, p, 0, 7);
      assert b[..16] == b;
    } else if r.base + r.len < 8 {
      PushWord(b, p, 2 * (r.base + r.len), 7);
      assert b[2 * (r.base + r.len)..16] == b[2 * (r.base + r.len)..];
    } else {
      assert p.out == b[..2 * r.base] + b[16..];
    }
  }

  lemma EmbeddedTokens(b: seq<Byte>, r: Run)
    requires |b| == 16 && LeftmostLongest(Words(b), r) && Embeds(Words(b), r)
    ensures WellFormed(After(b, r, 6))
    ensures Tokens(AfterColon(After(b, r, 6)).out + b[12..], 0) == WithoutRun(b, r)
  {
    var p := After(b, r, 6);
    FinishEmbedded(b, r);
    if r.len == 5 {
      PushWord(b, p, 10, 5);
    }
    assert b[2 * r.len..] == AfterColon(p).out + b[12..];
    assert b[..0] + b[2 * r.len..] == b[2 * r.len..];
  }

  /** The text gives every byte but those of the leftmost longest zero run of at least
      two words, and has "::" in its place; without such a run it gives them all. */
  lemma TextOmitsRun(b: seq<Byte>)
    requires |b| == 16
    ensures var r, s := BestRun(Words(b)), Ntop6(b);
            && LeftmostLongest(Words(b), r) && ScanStart(s).Some?
            && Scan6(s, ScanStart(s).value, ScanStart(s).value, START) == Some(WithoutRun(b, r))
  {
    hide Words, BestRun, Dotted, Scan6, Pieces, After, WithoutRun;
    var w, s := Words(b), Ntop6(b);
    var r := BestRun(w);
    BestRunIsLeftmostLongest(w);
    StartOfText(b);
    if Embeds(w, r) {
      EmbeddedLayout(b);
      ReadPieces(b, r, 6, s, 1);
      FinishEmbedded(b, r);
      ColonBefore(s, 1, |Pieces(w, r, 6)|, After(b, r, 6));
      ReadQuad(s, 1, |Pieces(w, r, 6)| + 1, b[12..], AfterColon(After(b, r, 6)));
      EmbeddedTokens(b, r);
    } else {
      PlainEnds(b);
      PlainTokens(b, r);
    }
  }

  /** Reading a plain text to its end. */
  lemma PlainEnds(b: seq<Byte>)
    requires |b| == 16 && !Embeds(Words(b), BestRun(Words(b)))
    ensures Fits(BestRun(Words(b)))
    ensures var s, p := Ntop6(b), After(b, BestRun(Words(b)), 8);
            var q := if p.sawXDigit then Push(p) else p.(colonp := |p.out|);
            ScanStart(s).Some?
            && Scan6(s, ScanStart(s).value, ScanStart(s).value, START) == Some(Tokens(q.out, q.colonp))
  {
    hide Words, BestRun;
    var w, s := Words(b), Ntop6(b);
    var r := BestRun(w);
    BestRunIsLeftmostLongest(w);
    StartOfText(b);
    var tail := if r.base != -1 && r.base + r.len == 8 then ":" else "";
    assert s == Pieces(w, r, 8) + tail;
    AtSplit(s, 0, Pieces(w, r, 8), tail);
    ReadPieces(b, r, 8, s, if r.base == 0 then 1 else 0);
    FinishPlain(b, r);
  }

  /** Letters are lower case. */
  predicate TextChar(c: char) {
    c in XDIGITS_L || c == ':' || c == '.'
  }

  ghost predicate TextChars(s: string) {
    forall i :: 0 <= i < |s| ==> TextChar(s[i])
  }

  ghost predicate NoDot(s: string) {
    forall i :: 0 <= i < |s| ==> s[i] != '.'
  }

  lemma PunctuationIsText()
    ensures TextChar(':') && TextChar('.')
  {
  }

  lemma HexCharIsText(d: nat)
    requires d < 16
    ensures TextChar(HexChar(d)) && HexChar(d) == XDIGITS_L[d] && HexChar(d) != '.'
  {
    if d < 10 {
      assert XDIGITS_L[d] == '0' + d as char;
    } else {
      assert XDIGITS_L[d] == 'a' + (d - 10) as char;
    }
  }

  /** A word is printed without leading zeros. */
  lemma {:induction false} HexIsText(n: nat)
    ensures TextChars(Hex(n)) && NoDot(Hex(n))
    ensures Hex(n)[0] == '0' <==> n == 0
  {
    hide TextChar;
    if n >= 16 {
      HexIsText(n / 16);
      HexCharIsText(n % 16);
    } else {
      HexCharIsText(n);
    }
  }

  lemma {:induction false} PiecesAreText(w: seq<Word>, r: Run, k: nat)
    requires |w| == 8 && k <= 8
    ensures TextChars(Pieces(w, r, k)) && NoDot(Pieces(w, r, k))
  {
    hide TextChar, Hex;
    PunctuationIsText();
    if k > 0 {
      PiecesAreText(w, r, k - 1);
      HexIsText(w[k - 1]);
    }
  }

  lemma DigitIsText(c: char)
    requires IsDigit(c)
    ensures TextChar(c)
  {
    assert XDIGITS_L[c as int - '0' as int] == c;
  }

  lemma {:induction false} DottedIsText(b: seq<Byte>)
    requires |b| >= 1
    ensures TextChars(Dotted(b))
    ensures |b| >= 2 ==> !NoDot(Dotted(b))
  {
    hide TextChar, Print;
    PunctuationIsText();
    var t := Print(b[0]);
    forall i | 0 <= i < |t| ensures TextChar(t[i]) {
      DigitIsText(t[i]);
    }
    if |b| >= 2 {
      DottedIsText(b[1..]);
      assert Dotted(b)[|t|] == '.';
    }
  }

  /** The first twelve bytes are those of an IPv4-compatible or IPv4-mapped address
      (and of the former, the next two are not zero as well). */
  predicate HoldsIpv4(b: seq<Byte>)
    requires |b| == 16
  {
    && (forall k :: 0 <= k < 10 ==> b[k] == 0)
    && ((b[10] == b[11] == 0 && !(b[12] == b[13] == 0)) || b[10] == b[11] == 255)
  }

  lemma WordIs(b: seq<Byte>, k: nat)
    requires |b| == 16 && k < 8
    ensures Words(b)[k] == 256 * (b[2 * k] as int) + b[2 * k + 1]
    ensures Words(b)[k] == 0 <==> b[2 * k] == 0 && b[2 * k + 1] == 0
    ensures Words(b)[k] == 0xffff <==> b[2 * k] == 255 && b[2 * k + 1] == 255
  {
    var h: int, l: int := b[2 * k], b[2 * k + 1];
  }

  lemma AllWords(b: seq<Byte>)
    requires |b| == 16
    ensures forall k :: 0 <= k < 8 ==> (Words(b)[k] == 0 <==> b[2 * k] == 0 && b[2 * k + 1] == 0)
    ensures Words(b)[5] == 0xffff <==> b[10] == 255 && b[11] == 255
  {
    hide Words;
    forall k | 0 <= k < 8 ensures Words(b)[k] == 0 <==> b[2 * k] == 0 && b[2 * k + 1] == 0 {
      WordIs(b, k);
    }
    WordIs(b, 5);
  }

  /** The dotted form is for these addresses, and for no others. */
  lemma EmbedsIpv4(b: seq<Byte>)
    requires |b| == 16
    ensures Embeds(Words(b), BestRun(Words(b))) <==> HoldsIpv4(b)
  {
    hide Words, BestRun;
    var w := Words(b);
    var r := BestRun(w);
    BestRunIsLeftmostLongest(w);
    AllWords(b);
    if HoldsIpv4(b) {
      forall k | 0 <= k < 5 ensures w[k] == 0 {
        assert b[2 * k] == 0 && b[2 * k + 1] == 0;
      }
      var n := if b[10] == 0 then 6 else 5;
      assert ZeroRun(w, 0, n) && w[n] != 0;
      BestFromStart(w, r, n);
    } else if Embeds(w, r) {
      assert ZeroRun(w, 0, r.len);
      forall k | 0 <= k < 10 ensures b[k] == 0 {
        assert w[k / 2] == 0;
      }
      if r.len == 6 {
        assert w[5] == 0;
        NextNotZero(w, r);
      }
    }
  }

  /** A zero run of five or six words at the start is the one compressed. */
  lemma BestFromStart(w: seq<Word>, r: Run, n: nat)
    requires |w| == 8 && LeftmostLongest(w, r) && (n == 5 || n == 6) && ZeroRun(w, 0, n) && w[n] != 0
    ensures r == Run(0, n)
  {
    if r.base != -1 {
      RunAvoids(w, r.base, r.len, n);
    }
  }

  lemma NextNotZero(w: seq<Word>, r: Run)
    requires |w| == 8 && LeftmostLongest(w, r) && r.base == 0 && r.len == 6
    ensures w[6] != 0
  {
    if w[6] == 0 {
      LongerRun(w);
    }
  }

  lemma LongerRun(w: seq<Word>)
    requires |w| == 8 && ZeroRun(w, 0, 6) && w[6] == 0
    ensures ZeroRun(w, 0, 7)
  {
  }

  /** The text is lower-case hexadecimal digits, colons and dots, with a dot exactly
      for an address that holds an IPv4 address. */
  lemma TextForm(b: seq<Byte>)
    requires |b| == 16
    ensures TextChars(Ntop6(b))
    ensures NoDot(Ntop6(b)) <==> !HoldsIpv4(b)
  {
    hide Words, BestRun, Dotted, Pieces, TextChar;
    var w := Words(b);
    var r := BestRun(w);
    EmbedsIpv4(b);
    PunctuationIsText();
    PiecesAreText(w, r, 6);
    PiecesAreText(w, r, 8);
    if Embeds(w, r) {
      DottedIsText(b[12..]);
      var s, t := Ntop6(b), Pieces(w, r, 6) + ":";
      var k :| 0 <= k < |Dotted(b[12..])| && Dotted(b[12..])[k] == '.';
      assert s[|t| + k] == '.';
    }
  }

}
