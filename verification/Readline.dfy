/**
 Line input: the reader that keeps unread bytes in a buffer of its own, and the
 one that asks the system for one byte at a time. Both take the same lines off
 the stream whatever sizes the reads come in.
 */
module Readline {
  import opened Common

  const MAXLINE := 4096
  const NEWLINE: Byte := 10

  /* ---- What a line is ---- */

  /** `k` bytes of `s` make the next line: no newline before the last byte, and it
      stops for a newline, for want of room, or at the end of the stream. */
  ghost predicate IsLine(s: seq<Byte>, room: nat, k: nat) {
    && k <= |s| && k <= room
    && NoNewline(s, k - 1)
    && (k == room || k == |s| || EndsLine(s, k))
  }

  ghost predicate NoNewline(s: seq<Byte>, n: int)
    requires n <= |s|
  {
    forall i :: 0 <= i < n ==> s[i] != NEWLINE
  }

  predicate EndsLine(s: seq<Byte>, k: nat)
    requires k <= |s|
  {
    k > 0 && s[k - 1] == NEWLINE
  }

  function LineLength(s: seq<Byte>, room: nat): (k: nat)
    ensures IsLine(s, room, k)
  {
    if room == 0 || s == [] then 0
    else if s[0] == NEWLINE then 1
    else
      var k := LineLength(s[1..], room - 1);
      assert forall i :: 1 <= i < k ==> s[i] == s[1..][i - 1];
      1 + k
  }

  lemma LineIsUnique(s: seq<Byte>, room: nat, k: nat)
    requires IsLine(s, room, k)
    ensures k == LineLength(s, room)
  {
  }

  /** One byte of the caller's buffer is for the null byte. */
  function Room(maxlen: nat): nat {
    if maxlen == 0 then 0 else maxlen - 1
  }

  function Length(s: seq<Byte>, maxlen: nat): (k: nat)
    ensures k <= |s| && k <= Room(maxlen)
  {
    LineLength(s, Room(maxlen))
  }

  /** What lib/readline.c returns with the stream at `s`. */
  function LibReturn(s: seq<Byte>, maxlen: nat): nat {
    var k := Length(s, maxlen);
    if EndsLine(s, k) || k < Room(maxlen) then k else k + 1
  }

  /** What server/readline.c and server/readline_r.c return. */
  function ServerReturn(s: seq<Byte>, maxlen: nat): nat {
    var k := Length(s, maxlen);
    if EndsLine(s, k) || (k == 0 && Room(maxlen) > 0) then k else k + 1
  }

  /** They store nothing, not even a null byte, at end of file. */
  predicate NothingStored(s: seq<Byte>, maxlen: nat) {
    s == [] && Room(maxlen) > 0
  }

  /* ---- The file descriptor ---- */

  /** What the descriptor will deliver. read returns any part of it, may be
      interrupted by a signal (finitely often), and may fail if `faulty`. */
  class File {
    var input: seq<Byte>
    var interrupts: nat
    const faulty: bool

    constructor (input: seq<Byte>, interrupts: nat, faulty: bool)
      ensures this.input == input && this.interrupts == interrupts && this.faulty == faulty
    {
      this.input, this.interrupts, this.faulty := input, interrupts, faulty;
    }

    method Read(buf: array<Byte>, max: nat) returns (rc: int, eintr: bool)
      requires 1 <= max <= buf.Length
      modifies this, buf
      ensures -1 <= rc <= max
      ensures rc == -1 && eintr ==> interrupts < old(interrupts)
      ensures rc == -1 && !eintr ==> faulty
      ensures rc != -1 || !eintr ==> interrupts == old(interrupts)
      ensures rc == 0 ==> input == []
      ensures rc <= 0 ==> input == old(input) && buf[..] == old(buf[..])
      ensures rc > 0 ==> rc <= |old(input)| && input == old(input)[rc..]
      ensures rc > 0 ==> buf[..] == old(input)[..rc] + old(buf[rc..])
    {
      eintr :| eintr ==> interrupts > 0;
      if eintr {
        interrupts := interrupts - 1;
        return -1, true;
      }
      var fails :| fails ==> faulty;
      if fails {
        return -1, false;
      }
      if input == [] {
        return 0, false;
      }
      var n :| 1 <= n <= max && n <= |input|;
      forall i | 0 <= i < n {
        buf[i] := input[i];
      }
      input := input[n..];
      rc := n;
    }
  }

  /* ---- The two readers ---- */

  /** `k` bytes of the stream went to the caller's buffer, in order. */
  ghost predicate Took(s: seq<Byte>, k: nat, rest: seq<Byte>, was: seq<Byte>, now: seq<Byte>) {
    && k <= |s| && k <= |was|
    && rest == s[k..]
    && now == s[..k] + was[k..]
  }

  /** The line went to the buffer, with a null byte after it. */
  ghost predicate TookLine(s: seq<Byte>, maxlen: nat, rest: seq<Byte>, was: seq<Byte>, now: seq<Byte>) {
    var k := Length(s, maxlen);
    && k < |was|
    && rest == s[k..]
    && now == s[..k] + [0] + was[k + 1..]
  }

  /** An error part of the way: the bytes taken are in the buffer, the rest still to come. */
  ghost predicate TookPart(s: seq<Byte>, maxlen: nat, rest: seq<Byte>, was: seq<Byte>, now: seq<Byte>) {
    exists k: nat :: k <= Length(s, maxlen) && Took(s, k, rest, was, now)
  }

  ghost predicate ServerTook(s: seq<Byte>, maxlen: nat, rest: seq<Byte>, was: seq<Byte>, now: seq<Byte>) {
    if NothingStored(s, maxlen) then rest == s && now == was
    else TookLine(s, maxlen, rest, was, now)
  }

  /** What holds at the head of the loops: `k` bytes taken, none of them a newline. */
  ghost predicate Taking(s: seq<Byte>, maxlen: nat, k: nat, rest: seq<Byte>, was: seq<Byte>, now: seq<Byte>) {
    k <= Room(maxlen) && Took(s, k, rest, was, now) && NoNewline(s, k)
  }

  lemma TakingIsPart(s: seq<Byte>, maxlen: nat, k: nat, rest: seq<Byte>, was: seq<Byte>, now: seq<Byte>)
    requires Taking(s, maxlen, k, rest, was, now)
    ensures k <= Length(s, maxlen) && TookPart(s, maxlen, rest, was, now)
  {
  }

  /** One more byte. */
  lemma TakeOne(s: seq<Byte>, maxlen: nat, k: nat, rest: seq<Byte>, was: seq<Byte>, now: seq<Byte>)
    requires Taking(s, maxlen, k, rest, was, now)
    requires rest != [] && k < |was| && k < Room(maxlen)
    ensures rest[0] == s[k] && |now| == |was|
    ensures Took(s, k + 1, rest[1..], was, now[k := rest[0]])
    ensures rest[0] != NEWLINE ==> Taking(s, maxlen, k + 1, rest[1..], was, now[k := rest[0]])
    ensures rest[0] == NEWLINE ==> k + 1 == Length(s, maxlen) && EndsLine(s, k + 1)
  {
    if rest[0] == NEWLINE {
      LineIsUnique(s, Room(maxlen), k + 1);
    }
  }

  /** The loops end with the line complete and the null byte to come. */
  lemma Finish(s: seq<Byte>, maxlen: nat, k: nat, rest: seq<Byte>, was: seq<Byte>, now: seq<Byte>)
    requires k == Length(s, maxlen) && Took(s, k, rest, was, now)
    requires k < |was|
    ensures |now| == |was| && TookLine(s, maxlen, rest, was, now[k := 0])
  {
  }

  lemma Complete(s: seq<Byte>, maxlen: nat, k: nat, rest: seq<Byte>, was: seq<Byte>, now: seq<Byte>)
    requires Taking(s, maxlen, k, rest, was, now)
    requires k == Room(maxlen) || rest == []
    ensures k == Length(s, maxlen) && !EndsLine(s, k)
    ensures k == 0 && rest == [] ==> s == [] && now == was
  {
    LineIsUnique(s, Room(maxlen), k);
  }

  /** server/readline.c: an interrupted read is an error here. */
  method ReadlineByByte(file: File, out: array<Byte>, maxlen: nat) returns (n: int)
    requires 1 <= out.Length && maxlen <= out.Length
    modifies file, out
    ensures n == -1 ==> file.faulty || file.interrupts < old(file.interrupts)
    ensures n == -1 ==> TookPart(old(file.input), maxlen, file.input, old(out[..]), out[..])
    ensures n != -1 ==> file.interrupts == old(file.interrupts)
    ensures n != -1 ==> n == ServerReturn(old(file.input), maxlen)
    ensures n != -1 ==> ServerTook(old(file.input), maxlen, file.input, old(out[..]), out[..])
  {
    hide LineLength, IsLine, Took, TookLine, NoNewline;
    ghost var s, was := file.input, out[..];
    ghost var interrupts := file.interrupts;
    var c := new Byte[1];
    var ptr := 0;
    n := 1;
    Start(s, maxlen, was);
    while n < maxlen
      invariant n == ptr + 1 && ptr <= Room(maxlen)
      invariant Taking(s, maxlen, ptr, file.input, was, out[..])
      invariant file.interrupts == interrupts
      invariant fresh(c) && c.Length == 1
    {
      ghost var rest, now := file.input, out[..];
      var rc, _ := file.Read(c, 1);
      if rc == 1 {
        TakeOne(s, maxlen, ptr, rest, was, now);
        assert c[0] == c[..][0];
        out[ptr] := c[0];
        ptr := ptr + 1;
        assert out[..] == now[ptr - 1 := rest[0]];
        if c[0] == NEWLINE {
          break;
        }
      } else if rc == 0 {
        Complete(s, maxlen, ptr, file.input, was, out[..]);
        if n == 1 {
          return 0;
        } else {
          break;
        }
      } else {
        TakingIsPart(s, maxlen, ptr, rest, was, now);
        return -1;
      }
      n := n + 1;
    }
    if ptr == n - 1 {
      Complete(s, maxlen, ptr, file.input, was, out[..]);
    }
    Finish(s, maxlen, ptr, file.input, was, out[..]);
    ghost var now := out[..];
    out[ptr] := 0;
    assert out[..] == now[ptr := 0];
  }

  lemma Start(s: seq<Byte>, maxlen: nat, was: seq<Byte>)
    ensures Taking(s, maxlen, 0, s, was, was)
  {
  }

  function Unread(mem: seq<Byte>, ptr: nat, cnt: int): seq<Byte>
    requires cnt > 0 ==> ptr + cnt <= |mem|
  {
    if cnt > 0 then mem[ptr..ptr + cnt] else []
  }

  lemma NextByte(mem: seq<Byte>, ptr: nat, cnt: nat, input: seq<Byte>)
    requires 1 <= cnt && ptr + cnt <= |mem|
    ensures Unread(mem, ptr, cnt) + input != [] && (Unread(mem, ptr, cnt) + input)[0] == mem[ptr]
    ensures (Unread(mem, ptr, cnt) + input)[1..] == Unread(mem, ptr + 1, cnt - 1) + input
  {
  }

  /** lib/readline.c, whose static buffer has the shape of the rl_ fields of
      struct Rline; `cnt` bytes from `ptr` on are still unread. */
  class LineBuffer {
    const file: File
    var cnt: int
    var ptr: nat
    const buf: array<Byte>

    ghost predicate Valid()
      reads this
    {
      buf.Length == MAXLINE && cnt <= MAXLINE && (cnt > 0 ==> ptr + cnt <= MAXLINE)
    }

    /** What later reads will give: the unread bytes, then the rest of the input. */
    ghost function Stream(): seq<Byte>
      requires Valid()
      reads this, buf, file
    {
      Unread(buf[..], ptr, cnt) + file.input
    }

    /** readline_rinit */
    constructor (file: File)
      ensures Valid() && this.file == file && fresh(buf) && Stream() == file.input
    {
      this.file := file;
      cnt, ptr := 0, 0;
      buf := new Byte[MAXLINE];
    }

    /** Fill the empty buffer; an interrupted read is tried again. */
    method Fill()
      requires Valid() && cnt <= 0
      modifies this, buf, file
      ensures Valid() && Stream() == old(Stream())
      ensures cnt < 0 ==> file.faulty
      ensures cnt == 0 ==> Stream() == []
    {
      ghost var s := file.input;
      var eintr := true;
      while eintr
        invariant Valid() && (eintr ==> cnt <= 0)
        invariant Stream() == s
        invariant !eintr && cnt < 0 ==> file.faulty
        invariant !eintr && cnt == 0 ==> file.input == []
        decreases eintr, file.interrupts
      {
        label before:
        cnt, eintr := file.Read(buf, MAXLINE);
        eintr := cnt < 0 && eintr;
        ptr := 0;
        assert cnt > 0 ==> Unread(buf[..], ptr, cnt) == s[..cnt];
      }
    }

    /** my_read: the next byte of the stream. */
    method MyRead() returns (rc: int, c: Byte)
      requires Valid()
      modifies this, buf, file
      ensures Valid()
      ensures rc == -1 || rc == 0 || rc == 1
      ensures rc == -1 ==> file.faulty && Stream() == old(Stream())
      ensures rc == 0 ==> old(Stream()) == [] && Stream() == []
      ensures rc == 1 ==> old(Stream()) != [] && c == old(Stream())[0] && Stream() == old(Stream())[1..]
    {
      hide Unread;
      c := 0;
      if cnt <= 0 {
        Fill();
        if cnt < 0 {
          return -1, c;
        } else if cnt == 0 {
          return 0, c;
        }
      }
      NextByte(buf[..], ptr, cnt, file.input);
      cnt := cnt - 1;
      c := buf[ptr];
      ptr := ptr + 1;
      rc := 1;
    }

    /** readline of lib/readline.c */
    method Readline(out: array<Byte>, maxlen: nat) returns (n: int)
      requires Valid() && out != buf
      requires 1 <= out.Length && maxlen <= out.Length
      modifies this, buf, file, out
      ensures Valid()
      ensures n == -1 ==> file.faulty
      ensures n == -1 ==> TookPart(old(Stream()), maxlen, Stream(), old(out[..]), out[..])
      ensures n != -1 ==> n == LibReturn(old(Stream()), maxlen)
      ensures n != -1 ==> TookLine(old(Stream()), maxlen, Stream(), old(out[..]), out[..])
    {
      hide LineLength, IsLine, Took, TookLine, TookPart, NoNewline, Stream, Unread;
      ghost var s, was := Stream(), out[..];
      var at := 0;
      n := 1;
      Start(s, maxlen, was);
      while n < maxlen
        invariant n == at + 1 && at <= Room(maxlen)
        invariant Valid()
        invariant Taking(s, maxlen, at, Stream(), was, out[..])
      {
        ghost var rest, now := Stream(), out[..];
        var rc, c := MyRead();
        if rc == 1 {
          TakeOne(s, maxlen, at, rest, was, now);
          out[at] := c;
          at := at + 1;
          assert out[..] == now[at - 1 := c];
          assert rest[1..] == Stream();
          if c == NEWLINE {
            break;
          }
        } else if rc == 0 {
          Complete(s, maxlen, at, Stream(), was, out[..]);
          Finish(s, maxlen, at, Stream(), was, out[..]);
          out[at] := 0;
          assert out[..] == now[at := 0];
          return n - 1;
        } else {
          TakingIsPart(s, maxlen, at, rest, was, now);
          return -1;
        }
        n := n + 1;
      }
      if at == n - 1 {
        Complete(s, maxlen, at, Stream(), was, out[..]);
      }
      Finish(s, maxlen, at, Stream(), was, out[..]);
      ghost var now := out[..];
      out[at] := 0;
      assert out[..] == now[at := 0];
    }

    /** readline_r, with the buffer and its size that readline_rinit saved. */
    method ReadlineR(out: array<Byte>, maxlen: nat) returns (n: int)
      requires Valid() && out != buf
      requires 1 <= out.Length && maxlen <= out.Length
      modifies this, buf, file, out
      ensures Valid()
      ensures n == -1 ==> file.faulty
      ensures n == -1 ==> TookPart(old(Stream()), maxlen, Stream(), old(out[..]), out[..])
      ensures n != -1 ==> n == ServerReturn(old(Stream()), maxlen)
      ensures n != -1 ==> ServerTook(old(Stream()), maxlen, Stream(), old(out[..]), out[..])
    {
      hide LineLength, IsLine, Took, TookLine, TookPart, NoNewline, Stream, Unread;
      ghost var s, was := Stream(), out[..];
      var at := 0;
      n := 1;
      Start(s, maxlen, was);
      while n < maxlen
        invariant n == at + 1 && at <= Room(maxlen)
        invariant Valid()
        invariant Taking(s, maxlen, at, Stream(), was, out[..])
      {
        ghost var rest, now := Stream(), out[..];
        var rc, c := MyRead();
        if rc == 1 {
          TakeOne(s, maxlen, at, rest, was, now);
          out[at] := c;
          at := at + 1;
          assert out[..] == now[at - 1 := c];
          assert rest[1..] == Stream();
          if c == NEWLINE {
            break;
          }
        } else if rc == 0 {
          Complete(s, maxlen, at, Stream(), was, out[..]);
          if n == 1 {
            return 0;
          } else {
            break;
          }
        } else {
          TakingIsPart(s, maxlen, at, rest, was, now);
          return -1;
        }
        n := n + 1;
      }
      if at == n - 1 {
        Complete(s, maxlen, at, Stream(), was, out[..]);
      }
      Finish(s, maxlen, at, Stream(), was, out[..]);
      ghost var now := out[..];
      out[at] := 0;
      assert out[..] == now[at := 0];
    }

    /** readlinebuf: where the unread bytes are, and how many. */
    method Readlinebuf() returns (count: int, at: nat)
      requires Valid()
      ensures count > 0 ==> at + count <= buf.Length && Unread(buf[..], at, count) + file.input == Stream()
      ensures count <= 0 ==> file.input == Stream()
    {
      count, at := cnt, ptr;
    }
  }

  /* ---- Sequences of calls ---- */

  /** What is left of the stream after calls with these sizes. */
  function Rest(s: seq<Byte>, sizes: seq<nat>): seq<Byte> {
    if sizes == [] then s else Rest(s[Length(s, sizes[0])..], sizes[1..])
  }

  /** The lines those calls store. */
  function Lines(s: seq<Byte>, sizes: seq<nat>): seq<seq<Byte>> {
    if sizes == [] then []
    else
      var k := Length(s, sizes[0]);
      [s[..k]] + Lines(s[k..], sizes[1..])
  }

  function Flatten(lines: seq<seq<Byte>>): seq<Byte> {
    if lines == [] then [] else lines[0] + Flatten(lines[1..])
  }

  lemma FlattenCons(line: seq<Byte>, lines: seq<seq<Byte>>)
    ensures Flatten([line] + lines) == line + Flatten(lines)
  {
    assert ([line] + lines)[1..] == lines;
  }

  lemma PrependLine(s: seq<Byte>, k: nat, flat: seq<Byte>, rest: seq<Byte>)
    requires k <= |s| && flat + rest == s[k..]
    ensures (s[..k] + flat) + rest == s
  {
    assert (s[..k] + flat) + rest == s[..k] + (flat + rest);
  }

  /** The calls cut the stream up: nothing lost, repeated or reordered. */
  lemma {:induction false} LinesPartition(s: seq<Byte>, sizes: seq<nat>)
    ensures |Lines(s, sizes)| == |sizes|
    ensures Flatten(Lines(s, sizes)) + Rest(s, sizes) == s
  {
    hide LineLength, IsLine;
    if sizes != [] {
      var k := Length(s, sizes[0]);
      LinesPartition(s[k..], sizes[1..]);
      FlattenCons(s[..k], Lines(s[k..], sizes[1..]));
      PrependLine(s, k, Flatten(Lines(s[k..], sizes[1..])), Rest(s[k..], sizes[1..]));
    }
  }

  /** The library's count is the number of bytes stored exactly when the line was
      not cut short for want of room; the others also count one too many when
      end of file ends a line; no count is off by more than one. */
  lemma CountIsLength(s: seq<Byte>, maxlen: nat)
    ensures LibReturn(s, maxlen) == Length(s, maxlen)
            <==> EndsLine(s, Length(s, maxlen)) || Length(s, maxlen) < Room(maxlen)
    ensures ServerReturn(s, maxlen) == Length(s, maxlen)
            <==> EndsLine(s, Length(s, maxlen)) || NothingStored(s, maxlen)
    ensures LibReturn(s, maxlen) == ServerReturn(s, maxlen)
            <==> !(0 < Length(s, maxlen) < Room(maxlen)) || EndsLine(s, Length(s, maxlen))
    ensures LibReturn(s, maxlen) == Length(s, maxlen) || LibReturn(s, maxlen) == Length(s, maxlen) + 1
    ensures ServerReturn(s, maxlen) == Length(s, maxlen) || ServerReturn(s, maxlen) == Length(s, maxlen) + 1
  {
  }

  /** Zero means end of file, and only that, once there is room for a byte. */
  lemma ZeroIsEof(s: seq<Byte>, maxlen: nat)
    ensures LibReturn(s, maxlen) == 0 <==> s == [] && maxlen >= 2
    ensures ServerReturn(s, maxlen) == 0 <==> s == [] && maxlen >= 2
  {
  }

  /** Calling until zero therefore ends, after at most one call per byte. */
  lemma {:induction false} ReachesEof(s: seq<Byte>, sizes: seq<nat>)
    requires forall i :: 0 <= i < |sizes| ==> sizes[i] >= 2
    requires |sizes| >= |s|
    ensures Rest(s, sizes) == []
  {
    if sizes != [] {
      var k := Length(s, sizes[0]);
      assert s != [] ==> k >= 1;
      ReachesEof(s[k..], sizes[1..]);
    }
  }

  lemma {:induction false} LinesSnoc(s: seq<Byte>, sizes: seq<nat>, n: nat)
    ensures Rest(s, sizes + [n]) == Rest(s, sizes)[Length(Rest(s, sizes), n)..]
    ensures Lines(s, sizes + [n]) == Lines(s, sizes) + [Rest(s, sizes)[..Length(Rest(s, sizes), n)]]
    decreases |sizes|
  {
    hide Length;
    if sizes == [] {
      assert [n][1..] == [];
      OneLine(s, n);
    } else {
      var k := Length(s, sizes[0]);
      assert (sizes + [n])[1..] == sizes[1..] + [n];
      LinesSnoc(s[k..], sizes[1..], n);
      assert [s[..k]] + (Lines(s[k..], sizes[1..]) + [Rest(s, sizes)[..Length(Rest(s, sizes), n)]])
          == [s[..k]] + Lines(s[k..], sizes[1..]) + [Rest(s, sizes)[..Length(Rest(s, sizes), n)]];
    }
  }

  lemma OneLine(s: seq<Byte>, n: nat)
    ensures Lines(s, [n]) == [s[..Length(s, n)]] && Rest(s, [n]) == s[Length(s, n)..]
  {
    assert [n][1..] == [];
  }

  /** `lines` are the lines so far, and the next call stored one more. */
  lemma NextLine(s: seq<Byte>, sizes: seq<nat>, i: nat, rest: seq<Byte>, was: seq<Byte>, now: seq<Byte>)
    requires i < |sizes|
    requires ServerTook(Rest(s, sizes[..i]), sizes[i], rest, was, now)
             || TookLine(Rest(s, sizes[..i]), sizes[i], rest, was, now)
    requires Room(sizes[i]) < |was|
    ensures rest == Rest(s, sizes[..i + 1])
    ensures Length(Rest(s, sizes[..i]), sizes[i]) <= |now|
    ensures Lines(s, sizes[..i + 1]) == Lines(s, sizes[..i]) + [now[..Length(Rest(s, sizes[..i]), sizes[i])]]
  {
    hide LineLength, Lines, Rest;
    assert sizes[..i + 1] == sizes[..i] + [sizes[i]];
    LinesSnoc(s, sizes[..i], sizes[i]);
    var k := Length(Rest(s, sizes[..i]), sizes[i]);
    assert now[..k] == Rest(s, sizes[..i])[..k];
  }

  lemma NoLines(s: seq<Byte>)
    ensures Lines(s, []) == [] && Rest(s, []) == s
  {
  }

  /* ---- The readers, call after call ---- */

  /** Calls of server/readline.c: whatever the reads do, the lines stored and what is
      left are those of the stream. */
  method ManyByByte(file: File, out: array<Byte>, sizes: seq<nat>) returns (ok: bool, ghost lines: seq<seq<Byte>>)
    requires 1 <= out.Length && forall i :: 0 <= i < |sizes| ==> sizes[i] <= out.Length
    modifies file, out
    ensures !ok ==> file.faulty || file.interrupts < old(file.interrupts)
    ensures ok ==> lines == Lines(old(file.input), sizes) && file.input == Rest(old(file.input), sizes)
  {
    hide Lines, Rest, ServerTook, TookLine, TookPart, Length;
    ghost var s := file.input;
    lines := [];
    NoLines(s);
    var i := 0;
    while i < |sizes|
      invariant 0 <= i <= |sizes|
      invariant lines == Lines(s, sizes[..i]) && file.input == Rest(s, sizes[..i])
      invariant file.interrupts == old(file.interrupts)
    {
      ghost var was := out[..];
      var n := ReadlineByByte(file, out, sizes[i]);
      if n == -1 {
        return false, lines;
      }
      NextLine(s, sizes, i, file.input, was, out[..]);
      lines := lines + [out[..][..Length(Rest(s, sizes[..i]), sizes[i])]];
      i := i + 1;
    }
    assert sizes[..i] == sizes;
    ok := true;
  }

  /** Calls of lib/readline.c. */
  method ManyBuffered(reader: LineBuffer, out: array<Byte>, sizes: seq<nat>) returns (ok: bool, ghost lines: seq<seq<Byte>>)
    requires reader.Valid() && out != reader.buf
    requires 1 <= out.Length && forall i :: 0 <= i < |sizes| ==> sizes[i] <= out.Length
    modifies reader, reader.buf, reader.file, out
    ensures reader.Valid()
    ensures !ok ==> reader.file.faulty
    ensures ok ==> lines == Lines(old(reader.Stream()), sizes) && reader.Stream() == Rest(old(reader.Stream()), sizes)
  {
    hide Lines, Rest, ServerTook, TookLine, TookPart, Length, Unread;
    ghost var s := reader.Stream();
    lines := [];
    NoLines(s);
    var i := 0;
    while i < |sizes|
      invariant 0 <= i <= |sizes| && reader.Valid()
      invariant lines == Lines(s, sizes[..i]) && reader.Stream() == Rest(s, sizes[..i])
    {
      ghost var was := out[..];
      var n := reader.Readline(out, sizes[i]);
      if n == -1 {
        return false, lines;
      }
      NextLine(s, sizes, i, reader.Stream(), was, out[..]);
      lines := lines + [out[..][..Length(Rest(s, sizes[..i]), sizes[i])]];
      i := i + 1;
    }
    assert sizes[..i] == sizes;
    ok := true;
  }

  /** Calls of server/readline_r.c. */
  method ManyReentrant(reader: LineBuffer, out: array<Byte>, sizes: seq<nat>) returns (ok: bool, ghost lines: seq<seq<Byte>>)
    requires reader.Valid() && out != reader.buf
    requires 1 <= out.Length && forall i :: 0 <= i < |sizes| ==> sizes[i] <= out.Length
    modifies reader, reader.buf, reader.file, out
    ensures reader.Valid()
    ensures !ok ==> reader.file.faulty
    ensures ok ==> lines == Lines(old(reader.Stream()), sizes) && reader.Stream() == Rest(old(reader.Stream()), sizes)
  {
    hide Lines, Rest, ServerTook, TookLine, TookPart, Length, Unread;
    ghost var s := reader.Stream();
    lines := [];
    NoLines(s);
    var i := 0;
    while i < |sizes|
      invariant 0 <= i <= |sizes| && reader.Valid()
      invariant lines == Lines(s, sizes[..i]) && reader.Stream() == Rest(s, sizes[..i])
    {
      ghost var was := out[..];
      var n := reader.ReadlineR(out, sizes[i]);
      if n == -1 {
        return false, lines;
      }
      NextLine(s, sizes, i, reader.Stream(), was, out[..]);
      lines := lines + [out[..][..Length(Rest(s, sizes[..i]), sizes[i])]];
      i := i + 1;
    }
    assert sizes[..i] == sizes;
    ok := true;
  }

}
