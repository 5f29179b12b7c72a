/**
 Which texts inet_pton6 accepts and what they denote, by whole tokens, and how
 that differs from the text form of section 2.2 of RFC 4291.
 */
module Inet6Language {
  import opened Common
  import opened Inet4
  import opened Inet6

  /* ---- Words, gaps and lists ---- */

  predicate HexIn(s: string, i: nat, j: nat)
    requires i <= j <= |s|
  {
    forall k :: i <= k < j ==> IsHexDigit(s[k])
  }

  /** The number that the hexadecimal digits s[i..j] denote. */
  function HexValue(s: string, i: nat, j: nat): nat
    requires i <= j <= |s| && HexIn(s, i, j)
    decreases j
  {
    if i == j then 0 else HexValue(s, i, j - 1) * 16 + HexDigitValue(s[j - 1])
  }

  /** The end of the run of hexadecimal digits that starts at `i`. */
  function HexEnd(s: string, i: nat): (j: nat)
    requires i <= |s|
    ensures i <= j <= |s| && HexIn(s, i, j)
    ensures j < |s| ==> !IsHexDigit(s[j])
    decreases |s| - i
  {
    if i == |s| || !IsHexDigit(s[i]) then i else HexEnd(s, i + 1)
  }

  predicate GapAt(s: string, k: nat) {
    k + 1 < |s| && s[k] == ':' && s[k + 1] == ':'
  }

  /** The first "::" from `i` on. */
  function FirstGap(s: string, i: nat): (g: Option<nat>)
    requires i <= |s|
    ensures g.None? ==> forall k :: i <= k ==> !GapAt(s, k)
    ensures g.Some? ==> i <= g.value && GapAt(s, g.value) && forall k :: i <= k < g.value ==> !GapAt(s, k)
    decreases |s| - i
  {
    if i == |s| then None
    else if GapAt(s, i) then Some(i)
    else FirstGap(s, i + 1)
  }

  /** A word is a nonempty run of hexadecimal digits of value at most 0xffff; with
      `strict`, of at most four digits. */
  function Word(s: string, i: nat, j: nat, strict: bool): (w: Option<seq<Byte>>)
    requires i <= j <= |s| && HexIn(s, i, j)
    ensures w.Some? ==> |w.value| == 2
  {
    if i == j || HexValue(s, i, j) > 0xffff || (strict && j - i > 4) then None
    else Some([HexValue(s, i, j) / 256, HexValue(s, i, j) % 256])
  }

  /** Words separated by single colons that fill s[i..stop]. */
  function Words(s: string, i: nat, stop: nat, strict: bool): Option<seq<Byte>>
    requires i <= stop <= |s|
    decreases stop - i
  {
    var j := HexEnd(s, i);
    if j > stop || Word(s, i, j, strict).None? then None
    else if j == stop then Word(s, i, j, strict)
    else if s[j] == ':' then Prepend(Word(s, i, j, strict).value, Words(s, j + 1, stop, strict))
    else None
  }

  /** Words separated by single colons, a dotted quad allowed as the last item, to
      the end of the string; unless `strict`, a colon may follow the last word. */
  function List(s: string, i: nat, strict: bool): Option<seq<Byte>>
    requires i <= |s|
    decreases |s| - i
  {
    var j := HexEnd(s, i);
    if Fields(s, i, 4).Some? then Fields(s, i, 4)
    else if Word(s, i, j, strict).None? then None
    else if j == |s| then Word(s, i, j, strict)
    else if s[j] != ':' then None
    else if j + 1 == |s| then (if strict then None else Word(s, i, j, strict))
    else Prepend(Word(s, i, j, strict).value, List(s, j + 1, strict))
  }

  /** What stands before and after a "::" at `g`. */
  function Before(s: string, g: nat, strict: bool): Option<seq<Byte>>
    requires g <= |s|
  {
    if g == 0 then Some([]) else Words(s, 0, g, strict)
  }

  function Behind(s: string, g: nat, strict: bool): Option<seq<Byte>>
    requires GapAt(s, g)
  {
    if g + 2 == |s| then Some([]) else List(s, g + 2, strict)
  }

  /** All the bytes a text gives, and where among them "::" stands, if anywhere. */
  function Parse(s: string, strict: bool): (t: Option<Tokens>)
    ensures t.Some? ==> -1 <= t.value.colonp <= |t.value.out|
  {
    match FirstGap(s, 0)
    case None =>
      if List(s, 0, strict).None? then None else Some(Tokens(List(s, 0, strict).value, -1))
    case Some(g) =>
      if Before(s, g, strict).None? || Behind(s, g, strict).None? then None
      else Some(Tokens(Before(s, g, strict).value + Behind(s, g, strict).value, |Before(s, g, strict).value|))
  }

  /** The address: sixteen bytes, or fewer with "::" for the zeros.  With "::" beside
      sixteen bytes, those after it are lost. */
  function Reference(s: string): Option<seq<Byte>> {
    match Parse(s, false)
    case None => None
    case Some(t) =>
      if |t.out| > 16 then None
      else if t.colonp < 0 then (if |t.out| == 16 then Some(t.out) else None)
      else if |t.out| == 16 then Some(t.out[..t.colonp] + Zeros(16 - t.colonp))
      else Some(Expanded(t.out, t.colonp))
  }

  /** A text of section 2.2 of RFC 4291, and the address it denotes: words of one to
      four digits, "::" for one or more words.  The section does not say how many
      digits a decimal number may have; leading zeros are allowed here. */
  function Rfc4291(s: string): Option<seq<Byte>> {
    match Parse(s, true)
    case None => None
    case Some(t) =>
      if t.colonp < 0 then (if |t.out| == 16 then Some(t.out) else None)
      else if |t.out| < 16 then Some(Expanded(t.out, t.colonp))
      else None
  }

  /* ---- The scan reads whole tokens ---- */

  lemma {:induction false} HexGrows(s: string, k: nat, i: nat, j: nat)
    requires k <= i <= j <= |s| && HexIn(s, k, j)
    ensures HexValue(s, k, i) <= HexValue(s, k, j)
    decreases j
  {
    if i < j {
      HexGrows(s, k, i, j - 1);
    }
  }

  lemma ScanDigit(s: string, start: nat, i: nat, p: Locals)
    requires start <= i < |s| && IsHexDigit(s[i]) && WellFormed(p)
    ensures var v := p.val * 16 + HexDigitValue(s[i]);
            Scan6(s, start, i, p)
            == if v > 0xffff then None else Scan6(s, start, i + 1, p.(sawXDigit := true, val := v))
  {
  }

  /** A run of hexadecimal digits from the start `k` of a token on. */
  lemma {:induction false} ScanRun(s: string, start: nat, k: nat, i: nat, j: nat, p: Locals)
    requires start <= k <= i <= j <= |s| && HexIn(s, k, j) && WellFormed(p)
    requires p.val == HexValue(s, k, i) && p.sawXDigit == (i > k)
    ensures Scan6(s, start, i, p)
         == if HexValue(s, k, j) > 0xffff then None
            else Scan6(s, start, j, p.(sawXDigit := j > k, val := HexValue(s, k, j)))
    decreases j - i
  {
    hide Scan6;
    if i < j {
      HexGrows(s, k, i + 1, j);
      ScanDigit(s, start, i, p);
      var v := HexValue(s, k, i + 1);
      if v <= 0xffff {
        ScanRun(s, start, k, i + 1, j, p.(sawXDigit := true, val := v));
      }
    }
  }

  predicate TokenAt(s: string, start: nat, i: nat) {
    start <= i <= |s| && (i == start || s[i - 1] == ':')
  }

  lemma {:induction false} TokenStartIs(s: string, start: nat, i: nat, j: nat)
    requires TokenAt(s, start, i) && i <= j <= |s| && HexIn(s, i, j)
    ensures TokenStart(s, start, j) == i
    decreases j
  {
    if i < j {
      TokenStartIs(s, start, i, j - 1);
    }
  }

  /** A dotted quad is digits and dots up to the end. */
  lemma {:induction false} QuadChars(s: string, i: nat, n: nat)
    requires i <= |s| && 1 <= n && Fields(s, i, n).Some?
    ensures forall k :: i <= k < |s| ==> IsDigit(s[k]) || s[k] == '.'
    ensures i < |s| && IsDigit(s[i])
    ensures n > 1 ==> DigitsEnd(s, i) < |s| && s[DigitsEnd(s, i)] == '.'
    decreases n
  {
    if n > 1 {
      QuadChars(s, DigitsEnd(s, i) + 1, n - 1);
    }
  }

  lemma {:induction false} DigitsAreHex(s: string, i: nat, j: nat)
    requires i <= j <= |s| && DigitsIn(s, i, j) && (j < |s| ==> !IsHexDigit(s[j]))
    ensures HexEnd(s, i) == j
    decreases j - i
  {
    if i < j {
      DigitsAreHex(s, i + 1, j);
    }
  }

  /** Digits read in base 16 exceed 0xffff only if they exceed 255 in base 10. */
  lemma {:induction false} HexOfDecimal(s: string, i: nat, j: nat)
    requires i <= j <= |s| && DigitsIn(s, i, j) && HexIn(s, i, j)
    ensures Decimal(s, i, j) < 10 ==> HexValue(s, i, j) < 10
    ensures Decimal(s, i, j) < 100 ==> HexValue(s, i, j) < 0x100
    ensures Decimal(s, i, j) < 1000 ==> HexValue(s, i, j) < 0x1000
    decreases j
  {
    if i < j {
      HexOfDecimal(s, i, j - 1);
    }
  }

  /** The scan at the end `j` of a run of digits, possibly empty, that began at the
      start `i` of a token. */
  lemma ScanItemEnd(s: string, start: nat, i: nat, j: nat, p: Locals)
    requires TokenAt(s, start, i) && i <= j <= |s| && HexIn(s, i, j) && WellFormed(p)
    requires j < |s| ==> !IsHexDigit(s[j])
    requires p.sawXDigit == (j > i) && (j == i ==> p.val == 0)
    ensures Scan6(s, start, j, p)
         == if j == |s| then
              if j == i then Some(Tokens(p.out, p.colonp))
              else if |p.out| + 2 > 16 then None
              else Some(Tokens(Push(p).out, p.colonp))
            else if s[j] == ':' then
              if j == i then (if p.colonp >= 0 then None else Scan6(s, start, j + 1, p.(colonp := |p.out|)))
              else if |p.out| + 2 > 16 then None
              else Scan6(s, start, j + 1, Push(p))
            else if s[j] == '.' && |p.out| + 4 <= 16 && Fields(s, i, 4).Some? then
              Some(Tokens(p.out + Fields(s, i, 4).value, p.colonp))
            else None
  {
    hide Fields, Pton4, TokenStart;
    TokenStartIs(s, start, i, j);
    Pton4IsDottedQuad(s, i);
  }

  /** Putting what was read before in front, if there is room. */
  function Joined(p: Locals, r: Option<seq<Byte>>): Option<Tokens> {
    if r.Some? && |p.out| + |r.value| <= 16 then Some(Tokens(p.out + r.value, p.colonp)) else None
  }

  lemma JoinedTwice(p: Locals, w: seq<Byte>, r: Option<seq<Byte>>)
    ensures Joined(p.(out := p.out + w), r) == Joined(p, Prepend(w, r))
  {
    if r.Some? {
      assert (p.out + w) + r.value == p.out + (w + r.value);
    }
  }

  /** The scan of a token that is a dotted quad. */
  lemma ScanQuad(s: string, start: nat, i: nat, p: Locals)
    requires TokenAt(s, start, i) && Fields(s, i, 4).Some?
    requires WellFormed(p) && !p.sawXDigit && p.val == 0
    ensures Scan6(s, start, i, p) == Joined(p, Fields(s, i, 4))
  {
    hide Scan6, HexValue;
    QuadChars(s, i, 4);
    var j := DigitsEnd(s, i);
    DigitsAreHex(s, i, j);
    HexOfDecimal(s, i, j);
    ScanRun(s, start, i, i, j, p) by {
      EmptyHex(s, i);
    }
    ScanItemEnd(s, start, i, j, p.(sawXDigit := j > i, val := HexValue(s, i, j)));
  }

  lemma EmptyHex(s: string, i: nat)
    requires i <= |s|
    ensures HexValue(s, i, i) == 0
  {
  }

  /** The scan once it has read the token `w` that ends at `j`. */
  function AfterWord(s: string, start: nat, j: nat, p: Locals, w: Option<seq<Byte>>): Option<Tokens>
    requires start <= j <= |s| && WellFormed(p) && (w.Some? ==> |w.value| == 2)
  {
    if w.None? || |p.out| + 2 > 16 || (j < |s| && s[j] != ':') then None
    else if j == |s| then Some(Tokens(p.out + w.value, p.colonp))
    else Scan6(s, start, j + 1, p.(out := p.out + w.value))
  }

  /** The scan of any other token, up to the next colon or the end. */
  lemma ScanWord(s: string, start: nat, i: nat, p: Locals)
    requires TokenAt(s, start, i) && i < |s| && Fields(s, i, 4).None?
    requires WellFormed(p) && !p.sawXDigit && p.val == 0
    requires s[i] == ':' ==> p.colonp >= 0
    ensures Scan6(s, start, i, p) == AfterWord(s, start, HexEnd(s, i), p, Word(s, i, HexEnd(s, i), false))
  {
    hide Scan6, HexValue, Fields;
    var j := HexEnd(s, i);
    EmptyHex(s, i);
    ScanRun(s, start, i, i, j, p);
    if HexValue(s, i, j) <= 0xffff {
      ScanItemEnd(s, start, i, j, p.(sawXDigit := j > i, val := HexValue(s, i, j)));
    }
  }

  /** From a token on to the end, with "::" behind us or nowhere ahead. */
  lemma {:induction false} ScanList(s: string, start: nat, i: nat, p: Locals)
    requires TokenAt(s, start, i) && i < |s|
    requires WellFormed(p) && !p.sawXDigit && p.val == 0
    requires p.colonp >= 0 || (s[i] != ':' && forall k :: i <= k ==> !GapAt(s, k))
    ensures Scan6(s, start, i, p) == Joined(p, List(s, i, false))
    decreases |s| - i
  {
    hide Scan6, Fields, Word;
    if Fields(s, i, 4).Some? {
      ScanQuad(s, start, i, p);
    } else {
      var j := HexEnd(s, i);
      ScanWord(s, start, i, p);
      var w := Word(s, i, j, false);
      if w.Some? && |p.out| + 2 <= 16 && j < |s| && s[j] == ':' {
        var q := p.(out := p.out + w.value);
        if j + 1 == |s| {
          ScanEnd(s, start, q);
        } else {
          assert !GapAt(s, j) ==> s[j + 1] != ':';
          ScanList(s, start, j + 1, q);
          JoinedTwice(p, w.value, List(s, j + 1, false));
        }
      }
    }
  }

  lemma ScanEnd(s: string, start: nat, p: Locals)
    requires start <= |s| && WellFormed(p) && !p.sawXDigit
    ensures Scan6(s, start, |s|, p) == Some(Tokens(p.out, p.colonp))
  {
  }

  /** From a token on to the "::" at `g`, the first one: the words, then the mark. */
  lemma {:induction false} ScanBefore(s: string, i: nat, g: nat, p: Locals)
    requires TokenAt(s, 0, i) && i < g && GapAt(s, g) && s[i] != ':'
    requires forall k :: i <= k < g ==> !GapAt(s, k)
    requires WellFormed(p) && !p.sawXDigit && p.val == 0 && p.colonp == -1
    ensures Scan6(s, 0, i, p) == AtGap(s, g, Joined(p, Words(s, i, g, false)))
    decreases g - i
  {
    hide Scan6, Fields, Word, AtGap;
    NoQuadBefore(s, i, g);
    var j := HexEnd(s, i);
    ScanWord(s, 0, i, p);
    var w := Word(s, i, j, false);
    AtGapNone(s, g);
    RunEndsBefore(s, i, g);
    if w.Some? && |p.out| + 2 <= 16 && s[j] == ':' {
      var q := p.(out := p.out + w.value);
      if j == g {
        ScanGap(s, g, q);
      } else {
        assert !GapAt(s, j);
        ScanBefore(s, j + 1, g, q);
        JoinedTwice(p, w.value, Words(s, j + 1, g, false));
      }
    }
  }

  /** The scan goes on behind the "::" at `g` with the tokens read. */
  function AtGap(s: string, g: nat, t: Option<Tokens>): Option<Tokens>
    requires GapAt(s, g) && (t.Some? ==> |t.value.out| <= 16)
  {
    if t.None? then None else Scan6(s, 0, g + 2, Locals(t.value.out, |t.value.out|, false, 0))
  }

  lemma AtGapNone(s: string, g: nat)
    requires GapAt(s, g)
    ensures AtGap(s, g, None) == None
  {
  }

  /** The second colon of "::". */
  lemma ScanGap(s: string, g: nat, p: Locals)
    requires GapAt(s, g) && WellFormed(p) && !p.sawXDigit && p.val == 0 && p.colonp == -1
    ensures Scan6(s, 0, g + 1, p) == AtGap(s, g, Some(Tokens(p.out, -1)))
  {
  }

  lemma RunEndsBefore(s: string, i: nat, g: nat)
    requires i <= g < |s| && s[g] == ':'
    ensures HexEnd(s, i) <= g
  {
  }

  /** A dotted quad goes up to the end, so none begins before a colon. */
  lemma NoQuadBefore(s: string, i: nat, g: nat)
    requires i <= g < |s| && s[g] == ':'
    ensures Fields(s, i, 4).None?
  {
    if Fields(s, i, 4).Some? {
      QuadChars(s, i, 4);
      assert false;
    }
  }

  /** Behind the "::". */
  lemma ScanBehind(s: string, start: nat, g: nat, out: seq<Byte>)
    requires GapAt(s, g) && start <= g + 1 && |out| <= 16
    ensures var p := Locals(out, |out|, false, 0);
            Scan6(s, start, g + 2, p) == Joined(p, Behind(s, g, false))
  {
    hide Scan6, List;
    var p := Locals(out, |out|, false, 0);
    if g + 2 == |s| {
      ScanEnd(s, start, p);
      assert out + [] == out;
    } else {
      ScanList(s, start, g + 2, p);
    }
  }

  lemma WithoutGap(s: string)
    requires FirstGap(s, 0).None?
    ensures Pton6(s) == Reference(s)
  {
    hide Scan6, List;
    assert !GapAt(s, 0);
    if s == "" {
      EmptyStart(s);
      ScanEnd(s, 0, START);
    } else if s[0] == ':' {
      EmptyStart(s);
    } else {
      ScanList(s, 0, 0, START);
      PrependNothing(List(s, 0, false));
    }
  }

  lemma EmptyStart(s: string)
    requires s == "" || s[0] == ':'
    ensures List(s, 0, false).None?
  {
    if Fields(s, 0, 4).Some? {
      QuadChars(s, 0, 4);
      assert false;
    }
  }

  lemma GapFirst(s: string)
    requires GapAt(s, 0)
    ensures Pton6(s) == Reference(s)
  {
    hide Scan6, List, Shifted, Expanded;
    assert FirstGap(s, 0) == Some(0);
    LeadingGap(s);
    ScanBehind(s, 1, 0, []);
    PrependNothing(Behind(s, 0, false));
    FinishIsReference(s);
  }

  lemma LeadingGap(s: string)
    requires GapAt(s, 0)
    ensures Scan6(s, 1, 1, START) == Scan6(s, 1, 2, Locals([], 0, false, 0))
  {
  }

  lemma PrependNothing(r: Option<seq<Byte>>)
    ensures r.Some? ==> [] + r.value == r.value
  {
  }

  lemma GapLater(s: string, g: nat)
    requires FirstGap(s, 0) == Some(g) && g > 0
    ensures Pton6(s) == Reference(s)
  {
    hide Scan6, List, Words, Shifted, Expanded;
    if s[0] == ':' {
      assert !GapAt(s, 0);
      NoWords(s, g);
    } else {
      ScanBefore(s, 0, g, START);
      var left := Before(s, g, false);
      if left.Some? && |left.value| <= 16 {
        PrependNothing(left);
        ScanBehind(s, 0, g, left.value);
      }
      FinishIsReference(s);
    }
  }

  lemma NoWords(s: string, g: nat)
    requires g <= |s| && 0 < g && s[0] == ':'
    ensures Words(s, 0, g, false).None?
  {
  }

  /** With "::", the end of inet_pton6 does to the tokens what the reference says. */
  lemma FinishIsReference(s: string)
    ensures FirstGap(s, 0).Some? ==>
              Reference(s) == var t := Parse(s, false);
                              if t.None? || |t.value.out| > 16 then None else Finish(t.value)
  {
  }

  /** inet_pton6 accepts exactly these texts and returns exactly these addresses. */
  lemma Pton6IsReference(s: string)
    ensures Pton6(s) == Reference(s)
  {
    match FirstGap(s, 0)
    case None => WithoutGap(s);
    case Some(g) =>
      if g == 0 {
        GapFirst(s);
      } else {
        GapLater(s, g);
      }
  }

  /* ---- Section 2.2 of RFC 4291, and what goes beyond it ---- */

  /** A single colon at the end. */
  predicate TrailingColon(s: string) {
    s != "" && s[|s| - 1] == ':' && (|s| == 1 || s[|s| - 2] != ':')
  }

  /** A word that starts at `i` has more than four digits. */
  predicate LongWordAt(s: string, i: nat)
    requires i < |s|
  {
    TokenAt(s, 0, i) && HexEnd(s, i) - i > 4 && (HexEnd(s, i) == |s| || s[HexEnd(s, i)] == ':')
  }

  ghost predicate LongWordIn(s: string, i: nat, j: nat)
    requires j <= |s|
  {
    exists k :: i <= k < j && LongWordAt(s, k)
  }

  ghost predicate LongWord(s: string) {
    LongWordIn(s, 0, |s|)
  }

  /** The items between colons in s[i..]. */
  function Items(s: string, i: nat): nat
    requires i <= |s|
    decreases |s| - i
  {
    if i == |s| then 0
    else Items(s, i + 1) + if s[i] != ':' && TokenAt(s, 0, i) then 1 else 0
  }

  ghost predicate HasDot(s: string) {
    exists k :: 0 <= k < |s| && s[k] == '.'
  }

  /** "::" beside eight words, a dotted quad counting as two. */
  ghost predicate FullGap(s: string) {
    (exists g :: 0 <= g < |s| && GapAt(s, g)) && Items(s, 0) + (if HasDot(s) then 1 else 0) == 8
  }

  /** Behind the first colon of an item there is no item start before its end. */
  lemma {:induction false} ItemsSkip(s: string, i: nat, j: nat)
    requires i <= j <= |s|
    requires forall k :: i <= k < j ==> s[k] == ':' || !TokenAt(s, 0, k)
    ensures Items(s, i) == Items(s, j)
    decreases j - i
  {
    if i < j {
      ItemsSkip(s, i + 1, j);
    }
  }

  /** One item that ends at `j`. */
  lemma ItemsOne(s: string, i: nat, j: nat)
    requires TokenAt(s, 0, i) && i < j <= |s| && forall k :: i <= k < j ==> s[k] != ':'
    ensures Items(s, i) == 1 + Items(s, j)
    ensures j < |s| && s[j] == ':' ==> Items(s, j) == Items(s, j + 1)
  {
    ItemsSkip(s, i + 1, j);
  }

  /** A list is as long as its items say. */
  lemma {:induction false} ListLength(s: string, i: nat)
    requires TokenAt(s, 0, i) && List(s, i, false).Some?
    ensures |List(s, i, false).value|
         == 2 * Items(s, i) + if exists k :: i <= k < |s| && s[k] == '.' then 2 else 0
    decreases |s| - i
  {
    hide Fields, Word, HexValue;
    if Fields(s, i, 4).Some? {
      QuadChars(s, i, 4);
      ItemsOne(s, i, |s|);
      assert s[DigitsEnd(s, i)] == '.';
    } else {
      var j := HexEnd(s, i);
      WordNotEmpty(s, i, j);
      ItemsOne(s, i, j);
      if j < |s| && j + 1 < |s| {
        ListLength(s, j + 1);
      }
    }
  }

  lemma WordNotEmpty(s: string, i: nat, j: nat)
    requires i <= j <= |s| && HexIn(s, i, j)
    ensures Word(s, i, j, false).Some? ==> i < j
  {
  }

  lemma {:induction false} WordsLength(s: string, i: nat, stop: nat)
    requires TokenAt(s, 0, i) && i <= stop < |s| && s[stop] == ':' && Words(s, i, stop, false).Some?
    ensures |Words(s, i, stop, false).value| == 2 * (Items(s, i) - Items(s, stop))
    ensures forall k :: i <= k < stop ==> s[k] != '.'
    decreases stop - i
  {
    hide Word, HexValue;
    var j := HexEnd(s, i);
    WordNotEmpty(s, i, j);
    ItemsOne(s, i, j);
    if j < stop {
      WordsLength(s, j + 1, stop);
    }
  }

  /** The long words from an item on: this one, or a later one. */
  lemma LongWordStep(s: string, i: nat, j: nat, stop: nat)
    requires TokenAt(s, 0, i) && i < j <= stop <= |s|
    requires forall k :: i <= k < j ==> s[k] != ':'
    ensures LongWordIn(s, i, stop) <==> LongWordAt(s, i) || LongWordIn(s, j + 1, stop)
  {
    forall k | i < k < stop && k <= j
      ensures !LongWordAt(s, k)
    {
      assert s[k - 1] != ':';
    }
  }

  lemma {:induction false} StrictIsLoose(s: string, i: nat)
    requires i <= |s| && List(s, i, true).Some?
    ensures List(s, i, false) == List(s, i, true)
    decreases |s| - i
  {
    hide Fields, HexValue;
    var j := HexEnd(s, i);
    if Fields(s, i, 4).None? && j < |s| && j + 1 < |s| {
      StrictIsLoose(s, j + 1);
    }
  }

  lemma {:induction false} StrictWords(s: string, i: nat, stop: nat)
    requires i <= stop <= |s| && Words(s, i, stop, true).Some?
    ensures Words(s, i, stop, false) == Words(s, i, stop, true)
    decreases stop - i
  {
    hide HexValue;
    var j := HexEnd(s, i);
    if j < stop {
      StrictWords(s, j + 1, stop);
    }
  }

  /** A list that inet_pton6 takes is strict unless it has a long word or ends
      with a colon. */
  lemma {:induction false} LooseList(s: string, i: nat)
    requires TokenAt(s, 0, i) && List(s, i, false).Some?
    ensures i < |s|
    ensures List(s, i, true) == if LongWordIn(s, i, |s|) || s[|s| - 1] == ':' then None else List(s, i, false)
    decreases |s| - i
  {
    hide Fields, HexValue, LongWordIn;
    var j := HexEnd(s, i);
    if Fields(s, i, 4).Some? {
      QuadHasNoLongWord(s, i);
    } else {
      LongWordStep(s, i, j, |s|);
      if j == |s| || j + 1 == |s| {
        NoLongWordIn(s, j + 1, |s|);
      } else {
        LooseList(s, j + 1);
      }
    }
  }

  lemma NoLongWordIn(s: string, i: nat, j: nat)
    requires i >= j && j <= |s|
    ensures !LongWordIn(s, i, j)
  {
  }

  lemma QuadHasNoLongWord(s: string, i: nat)
    requires i <= |s| && Fields(s, i, 4).Some?
    ensures i < |s| && s[|s| - 1] != ':' && !LongWordIn(s, i, |s|)
  {
    QuadChars(s, i, 4);
    DigitsAreHex(s, i, DigitsEnd(s, i));
    forall k | i <= k < |s|
      ensures !LongWordAt(s, k)
    {
      assert k > i ==> s[k - 1] != ':';
    }
  }

  lemma {:induction false} LooseWords(s: string, i: nat, stop: nat)
    requires TokenAt(s, 0, i) && i <= stop < |s| && s[stop] == ':' && Words(s, i, stop, false).Some?
    ensures Words(s, i, stop, true) == if LongWordIn(s, i, stop) then None else Words(s, i, stop, false)
    decreases stop - i
  {
    hide HexValue, LongWordIn;
    var j := HexEnd(s, i);
    LongWordStep(s, i, j, stop);
    if j == stop {
      NoLongWordIn(s, j + 1, stop);
    } else {
      LooseWords(s, j + 1, stop);
    }
  }

  /** The same for a whole text. */
  lemma ParseStrict(s: string)
    requires Parse(s, true).Some?
    ensures Parse(s, false) == Parse(s, true)
  {
    hide List, Words;
    match FirstGap(s, 0)
    case None => StrictIsLoose(s, 0);
    case Some(g) =>
      if g > 0 {
        StrictWords(s, 0, g);
      }
      if g + 2 < |s| {
        StrictIsLoose(s, g + 2);
      }
  }

  lemma ParseLoose(s: string)
    requires Parse(s, false).Some?
    ensures Parse(s, true) == if LongWord(s) || TrailingColon(s) then None else Parse(s, false)
  {
    hide List, Words, LongWordIn;
    match FirstGap(s, 0)
    case None =>
      LooseList(s, 0);
      assert |s| >= 2 ==> !GapAt(s, |s| - 2);
    case Some(g) =>
      LongWordSplit(s, g);
      if g > 0 {
        LooseWords(s, 0, g);
      } else {
        NoLongWordIn(s, 0, 0);
      }
      if g + 2 < |s| {
        LooseList(s, g + 2);
        SecondGap(s, g);
      } else {
        NoLongWordIn(s, g + 2, |s|);
      }
  }

  lemma LongWordSplit(s: string, g: nat)
    requires GapAt(s, g)
    ensures LongWord(s) <==> LongWordIn(s, 0, g) || LongWordIn(s, g + 2, |s|)
  {
    assert HexEnd(s, g) == g && HexEnd(s, g + 1) == g + 1;
  }

  /** Behind "::" there is no other. */
  lemma {:induction false} NoGapInList(s: string, i: nat, k: nat)
    requires i <= |s| && i <= k && List(s, i, false).Some?
    ensures !GapAt(s, k) && (i < |s| ==> s[i] != ':')
    decreases |s| - i
  {
    hide HexValue, Fields;
    if Fields(s, i, 4).Some? {
      QuadChars(s, i, 4);
    } else {
      var j := HexEnd(s, i);
      if j < |s| && j + 1 < |s| {
        NoGapInList(s, j + 1, if k > j then k else j + 1);
      }
    }
  }

  lemma SecondGap(s: string, g: nat)
    requires GapAt(s, g) && g + 2 < |s| && List(s, g + 2, false).Some?
    ensures s[|s| - 1] == ':' ==> s[|s| - 2] != ':'
  {
    NoGapInList(s, g + 2, g + 2);
    if g + 2 <= |s| - 2 {
      NoGapInList(s, g + 2, |s| - 2);
    }
  }

  /** With "::", a text gives as many bytes as its items say. */
  lemma GapLength(s: string, g: nat)
    requires FirstGap(s, 0) == Some(g) && Parse(s, false).Some?
    ensures |Parse(s, false).value.out| == 2 * (Items(s, 0) + if HasDot(s) then 1 else 0)
  {
    hide List, Words;
    if g > 0 {
      WordsLength(s, 0, g);
    }
    ItemsSkip(s, g, g + 2);
    if g + 2 < |s| {
      ListLength(s, g + 2);
    }
    assert HasDot(s) <==> exists k :: g + 2 <= k < |s| && s[k] == '.';
  }

  lemma FullGapIsFull(s: string)
    requires Parse(s, false).Some?
    ensures FullGap(s) <==> FirstGap(s, 0).Some? && |Parse(s, false).value.out| == 16
  {
    hide Parse, FirstGap, Items, HasDot;
    if FirstGap(s, 0).Some? {
      GapLength(s, FirstGap(s, 0).value);
      assert GapAt(s, FirstGap(s, 0).value);
    }
  }

  lemma GapMarked(s: string)
    requires Parse(s, false).Some?
    ensures Parse(s, false).value.colonp >= 0 <==> FirstGap(s, 0).Some?
  {
  }

  /** inet_pton6 takes every text of section 2.2 of RFC 4291 to the address it
      denotes. */
  lemma TakesRfc4291(s: string)
    requires Rfc4291(s).Some?
    ensures Pton6(s) == Rfc4291(s)
  {
    hide Parse, Expanded;
    ParseStrict(s);
    Pton6IsReference(s);
  }

  /** And what else it takes: exactly the texts with a single colon at the end, a
      word of more than four digits, or "::" beside eight words. */
  lemma BeyondRfc4291(s: string)
    requires Pton6(s).Some?
    ensures Rfc4291(s).None? <==> TrailingColon(s) || LongWord(s) || FullGap(s)
  {
    hide Parse, FirstGap, Pton6, TrailingColon, LongWord, FullGap;
    Pton6IsReference(s);
    ParseLoose(s);
    FullGapIsFull(s);
    GapMarked(s);
  }

  /** So for all other strings it is right: 1 exactly for a valid address, with the
      address, and 0 for everything else. */
  lemma ExactOtherwise(s: string)
    requires !TrailingColon(s) && !LongWord(s) && !FullGap(s)
    ensures Pton6(s) == Rfc4291(s)
  {
    hide *;
    if Rfc4291(s).Some? {
      TakesRfc4291(s);
    } else if Pton6(s).Some? {
      BeyondRfc4291(s);
    }
  }

  /** A colon too many. */
  lemma TrailingColonTaken()
    ensures Pton6("::1:").Some? && Rfc4291("::1:").None?
  {
    hide Rfc4291;
    var s := "::1:";
    assert Scan6(s, 1, 1, START) == Scan6(s, 1, 2, Locals([], 0, false, 0));
    assert Scan6(s, 1, 2, Locals([], 0, false, 0)) == Scan6(s, 1, 3, Locals([], 0, true, 1));
    ScanEnd(s, 1, Locals([0, 1], 0, false, 0));
    assert TrailingColon(s);
    BeyondRfc4291(s);
  }

  /** A digit too many. */
  lemma LongWordTaken()
    ensures Pton6("::00001").Some? && Rfc4291("::00001").None?
  {
    hide Rfc4291;
    var s := "::00001";
    hide Scan6, HexEnd, HexValue, Fields, Pton4;
    DigitsAreHex(s, 2, 7);
    OneInFive(s, 2);
    LeadingGap(s);
    ScanRun(s, 1, 2, 2, 7, Locals([], 0, false, 0)) by {
      EmptyHex(s, 2);
    }
    ScanItemEnd(s, 1, 2, 7, Locals([], 0, true, 1));
    assert LongWordAt(s, 2);
    BeyondRfc4291(s);
  }

  lemma OneInFive(s: string, i: nat)
    requires i + 5 <= |s| && s[i] == s[i + 1] == s[i + 2] == s[i + 3] == '0' && s[i + 4] == '1'
    ensures HexIn(s, i, i + 5) && HexValue(s, i, i + 5) == 1
  {
    assert HexValue(s, i, i + 1) == 0;
    assert HexValue(s, i, i + 3) == 0;
    assert HexValue(s, i, i + 4) == 0;
  }

  /* ---- "::" in a full address ---- */

  /** The value the comment in the source promises, where "::" in a full address is
      ignored. */
  function Documented(s: string): Option<seq<Byte>> {
    match Parse(s, false)
    case None => None
    case Some(t) =>
      if |t.out| > 16 || (t.colonp < 0 && |t.out| < 16) then None
      else if |t.out| == 16 then Some(t.out)
      else Some(Expanded(t.out, t.colonp))
  }

  predicate ZeroChar(c: char) {
    c == '0' || c == ':' || c == '.'
  }

  /** There are only zeros behind the "::". */
  predicate ZerosBehind(s: string) {
    match FirstGap(s, 0)
    case None => true
    case Some(g) => forall k :: g + 2 <= k < |s| ==> ZeroChar(s[k])
  }

  predicate AllZero(b: seq<Byte>) {
    forall k :: 0 <= k < |b| ==> b[k] == 0
  }

  lemma {:induction false} HexZero(s: string, i: nat, j: nat)
    requires i <= j <= |s| && HexIn(s, i, j)
    ensures HexValue(s, i, j) == 0 <==> forall k :: i <= k < j ==> ZeroChar(s[k])
    decreases j
  {
    if i < j {
      HexZero(s, i, j - 1);
    }
  }

  lemma {:induction false} DecimalZero(s: string, i: nat, j: nat)
    requires i <= j <= |s| && DigitsIn(s, i, j)
    ensures Decimal(s, i, j) == 0 <==> forall k :: i <= k < j ==> ZeroChar(s[k])
    decreases j
  {
    if i < j {
      DecimalZero(s, i, j - 1);
    }
  }

  lemma AllZeroAppend(a: seq<Byte>, b: seq<Byte>)
    ensures AllZero(a + b) <==> AllZero(a) && AllZero(b)
  {
    if AllZero(a + b) {
      forall k | 0 <= k < |b| ensures b[k] == 0 {
        assert b[k] == (a + b)[|a| + k];
      }
      forall k | 0 <= k < |a| ensures a[k] == 0 {
        assert a[k] == (a + b)[k];
      }
    }
  }

  lemma {:induction false} QuadZero(s: string, i: nat, n: nat)
    requires i <= |s| && 1 <= n && Fields(s, i, n).Some?
    ensures AllZero(Fields(s, i, n).value) <==> forall k :: i <= k < |s| ==> ZeroChar(s[k])
    decreases n
  {
    hide Decimal;
    var j := DigitsEnd(s, i);
    DecimalZero(s, i, j);
    assert [Decimal(s, i, j)][0] == Decimal(s, i, j);
    if n > 1 {
      QuadZero(s, j + 1, n - 1);
      AllZeroAppend([Decimal(s, i, j)], Fields(s, j + 1, n - 1).value);
    }
  }

  lemma WordZero(s: string, i: nat, j: nat)
    requires i <= j <= |s| && HexIn(s, i, j) && Word(s, i, j, false).Some?
    ensures AllZero(Word(s, i, j, false).value) <==> forall k :: i <= k < j ==> ZeroChar(s[k])
  {
    hide HexValue;
    HexZero(s, i, j);
    var v := HexValue(s, i, j);
    var high: int, low: int := Word(s, i, j, false).value[0], Word(s, i, j, false).value[1];
    assert v == high * 256 + low;
  }

  lemma {:induction false} ListZero(s: string, i: nat)
    requires i <= |s| && List(s, i, false).Some?
    ensures AllZero(List(s, i, false).value) <==> forall k :: i <= k < |s| ==> ZeroChar(s[k])
    decreases |s| - i
  {
    hide Fields, Word, AllZero;
    if Fields(s, i, 4).Some? {
      QuadZero(s, i, 4);
    } else {
      var j := HexEnd(s, i);
      WordZero(s, i, j);
      if j < |s| && j + 1 < |s| {
        ListZero(s, j + 1);
        AllZeroAppend(Word(s, i, j, false).value, List(s, j + 1, false).value);
      }
    }
  }

  lemma BehindZero(s: string)
    requires Parse(s, false).Some? && FirstGap(s, 0).Some?
    ensures var t := Parse(s, false).value;
            0 <= t.colonp <= |t.out| && (AllZero(t.out[t.colonp..]) <==> ZerosBehind(s))
  {
    hide List, Words;
    var g := FirstGap(s, 0).value;
    var left, right := Before(s, g, false).value, Behind(s, g, false).value;
    assert (left + right)[|left|..] == right;
    if g + 2 < |s| {
      ListZero(s, g + 2);
    }
  }

  /** inet_pton6 keeps that promise except for a full address with "::" whose items
      behind the "::" are not all zero. */
  lemma FullGapIsIgnoredIff(s: string)
    ensures Pton6(s).Some? <==> Documented(s).Some?
    ensures Pton6(s) == Documented(s) <==> !(Pton6(s).Some? && FullGap(s) && !ZerosBehind(s))
  {
    hide Pton6, Parse, FullGap, ZerosBehind, FirstGap, Expanded;
    Pton6IsReference(s);
    if Parse(s, false).Some? {
      var t := Parse(s, false).value;
      FullGapIsFull(s);
      GapMarked(s);
      if t.colonp >= 0 && |t.out| == 16 {
        BehindZero(s);
        TailLost(t.out, t.colonp);
      }
    }
  }

  lemma TailLost(out: seq<Byte>, c: nat)
    requires c <= |out| == 16
    ensures out[..c] + Zeros(16 - c) == out <==> AllZero(out[c..])
  {
    assert out == out[..c] + out[c..];
    if AllZero(out[c..]) {
      assert out[c..] == Zeros(16 - c);
    } else {
      var k :| 0 <= k < |out[c..]| && out[c..][k] != 0;
      assert (out[..c] + Zeros(16 - c))[c + k] == 0;
    }
  }

  /* ---- The digits ---- */

  /** `c` stands at index `d` of one of the two alphabets. */
  predicate SpelledBy(c: char, d: nat) {
    d < 16 && (XDIGITS_L[d] == c || XDIGITS_U[d] == c)
  }

  lemma SpellingIsUnique(c: char, d: nat)
    requires SpelledBy(c, d)
    ensures IsHexDigit(c) && HexDigitValue(c) == d && c != ':' && c != '.'
  {
    if d < 10 {
      assert XDIGITS_L[d] == XDIGITS_U[d] == '0' + d as char;
    } else {
      assert XDIGITS_L[d] == 'a' + (d - 10) as char && XDIGITS_U[d] == 'A' + (d - 10) as char;
    }
  }

  lemma HexDigitIsSpelled(c: char)
    ensures IsHexDigit(c) <==> c in XDIGITS_L || c in XDIGITS_U
  {
    assert forall d :: 0 <= d < 10 ==> XDIGITS_L[d] == XDIGITS_U[d] == '0' + d as char;
    assert forall d :: 10 <= d < 16 ==> XDIGITS_L[d] == 'a' + (d - 10) as char && XDIGITS_U[d] == 'A' + (d - 10) as char;
    if IsHexDigit(c) {
      assert SpelledBy(c, HexDigitValue(c));
    }
  }

  /** A character continues a word exactly if it stands in one of the alphabets, and
      counts by its index there; any other but a colon or a dot ends the scan. */
  lemma CharacterCounts(s: string, start: nat, i: nat, p: Locals)
    requires start <= i < |s| && WellFormed(p)
    ensures forall d: nat :: SpelledBy(s[i], d) ==>
              Scan6(s, start, i, p)
              == if p.val * 16 + d > 0xffff then None
                 else Scan6(s, start, i + 1, p.(sawXDigit := true, val := p.val * 16 + d))
    ensures s[i] !in XDIGITS_L && s[i] !in XDIGITS_U && s[i] != ':' && s[i] != '.' ==> Scan6(s, start, i, p).None?
  {
    HexDigitIsSpelled(s[i]);
    forall d: nat | SpelledBy(s[i], d)
      ensures Scan6(s, start, i, p)
              == if p.val * 16 + d > 0xffff then None
                 else Scan6(s, start, i + 1, p.(sawXDigit := true, val := p.val * 16 + d))
    {
      SpellingIsUnique(s[i], d);
    }
  }

  /** The number with these digits in base 16. */
  function Number(ds: seq<nat>): nat {
    if ds == [] then 0 else Number(ds[..|ds| - 1]) * 16 + ds[|ds| - 1]
  }

  ghost predicate Spells(t: string, ds: seq<nat>) {
    |t| == |ds| && forall i :: 0 <= i < |t| ==> SpelledBy(t[i], ds[i])
  }

  lemma {:induction false} HexValueIsNumber(s: string, i: nat, j: nat, ds: seq<nat>)
    requires i <= j <= |s| && j - i == |ds|
    requires forall k :: i <= k < j ==> SpelledBy(s[k], ds[k - i])
    ensures HexIn(s, i, j) && HexValue(s, i, j) == Number(ds)
    decreases j
  {
    hide SpelledBy;
    if i < j {
      HexValueIsNumber(s, i, j - 1, ds[..|ds| - 1]);
      SpellingIsUnique(s[j - 1], ds[|ds| - 1]);
    }
  }

  /** A word alone behind "::": its number, if that fits in 16 bits. */
  lemma WordDenotes(t: string, ds: seq<nat>)
    requires t != "" && Spells(t, ds)
    ensures Pton6("::" + t)
         == if Number(ds) > 0xffff then None else Some(Zeros(14) + [Number(ds) / 256, Number(ds) % 256])
  {
    hide Scan6, HexValue, Number, Fields, SpelledBy, Finish;
    var s := "::" + t;
    assert GapAt(s, 0) && s[2..] == t;
    HexValueIsNumber(s, 2, |s|, ds);
    LeadingGap(s);
    EmptyHex(s, 2);
    ScanRun(s, 1, 2, 2, |s|, Locals([], 0, false, 0));
    if Number(ds) <= 0xffff {
      ScanItemEnd(s, 1, 2, |s|, Locals([], 0, true, Number(ds)));
      FinishWord(Number(ds));
    }
  }

  lemma FinishWord(v: nat)
    requires v <= 0xffff
    ensures Push(Locals([], 0, true, v)).out == [v / 256, v % 256]
    ensures Finish(Tokens([v / 256, v % 256], 0)) == Some(Zeros(14) + [v / 256, v % 256])
  {
    var w: seq<Byte> := [v / 256, v % 256];
    assert [] + w == w;
    assert Shifted(w, 0) == Zeros(14) + w;
  }

  /* ---- Upper and lower case ---- */

  predicate SameLetter(a: char, b: char) {
    a == b || exists d: nat :: d < 16 && SpelledBy(a, d) && SpelledBy(b, d)
  }

  ghost predicate SameButCase(s: string, t: string) {
    |s| == |t| && forall i :: 0 <= i < |s| ==> SameLetter(s[i], t[i])
  }

  lemma SameLetterReads(a: char, b: char)
    requires SameLetter(a, b)
    ensures IsHexDigit(a) <==> IsHexDigit(b)
    ensures IsHexDigit(a) ==> HexDigitValue(a) == HexDigitValue(b)
    ensures IsDigit(a) || IsDigit(b) || a == ':' || a == '.' || b == ':' || b == '.' ==> a == b
  {
    if a != b {
      var d: nat :| d < 16 && SpelledBy(a, d) && SpelledBy(b, d);
      SpellingIsUnique(a, d);
      SpellingIsUnique(b, d);
    }
  }

  lemma {:induction false} Scan4SameButCase(s: string, t: string, i: nat, bytes: seq<Byte>, sawDigit: bool)
    requires SameButCase(s, t) && i <= |s| && 1 <= |bytes| <= 4
    ensures Scan4(s, i, bytes, sawDigit) == Scan4(t, i, bytes, sawDigit)
    decreases |s| - i
  {
    hide SameLetter;
    if i < |s| {
      SameLetterReads(s[i], t[i]);
      if IsDigit(s[i]) {
        var v := bytes[|bytes| - 1] * 10 + DigitValue(s[i]);
        if v <= 255 {
          Scan4SameButCase(s, t, i + 1, bytes[|bytes| - 1 := v], true);
        }
      } else if s[i] == '.' && |bytes| < 4 {
        Scan4SameButCase(s, t, i + 1, bytes + [0], false);
      }
    }
  }

  lemma {:induction false} TokenStartSameButCase(s: string, t: string, start: nat, i: nat)
    requires SameButCase(s, t) && start <= i <= |s|
    ensures TokenStart(s, start, i) == TokenStart(t, start, i)
    decreases i
  {
    hide SameLetter;
    if i > start {
      SameLetterReads(s[i - 1], t[i - 1]);
      TokenStartSameButCase(s, t, start, i - 1);
    }
  }

  lemma {:induction false} Scan6SameButCase(s: string, t: string, start: nat, i: nat, p: Locals)
    requires SameButCase(s, t) && start <= i <= |s| && WellFormed(p)
    ensures Scan6(s, start, i, p) == Scan6(t, start, i, p)
    decreases |s| - i
  {
    hide SameLetter, TokenStart, Pton4;
    if i < |s| {
      SameLetterReads(s[i], t[i]);
      if IsHexDigit(s[i]) {
        var v := p.val * 16 + HexDigitValue(s[i]);
        if v <= 0xffff {
          Scan6SameButCase(s, t, start, i + 1, p.(sawXDigit := true, val := v));
        }
      } else if s[i] == ':' {
        if !p.sawXDigit {
          Scan6SameButCase(s, t, start, i + 1, p.(colonp := |p.out|));
        } else if |p.out| + 2 <= 16 {
          Scan6SameButCase(s, t, start, i + 1, Push(p));
        }
      } else if s[i] == '.' {
        TokenStartSameButCase(s, t, start, i);
        Pton4SameButCase(s, t, TokenStart(s, start, i));
      }
    }
  }

  lemma Pton4SameButCase(s: string, t: string, i: nat)
    requires SameButCase(s, t) && i <= |s|
    ensures Pton4(s, i) == Pton4(t, i)
  {
    Scan4SameButCase(s, t, i, [0], false);
  }

  /** Case does not matter. */
  lemma CaseDoesNotMatter(s: string, t: string)
    requires SameButCase(s, t)
    ensures Pton6(s) == Pton6(t)
  {
    hide Scan6, SameLetter;
    if s != "" {
      SameLetterReads(s[0], t[0]);
      if |s| > 1 {
        SameLetterReads(s[1], t[1]);
      }
    }
    match ScanStart(s)
    case None =>
    case Some(start) => Scan6SameButCase(s, t, start, start, START);
  }

}
