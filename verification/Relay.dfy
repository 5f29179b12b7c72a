/**
 The nonblocking relay of str_cli: standard input to the socket and the socket
 to standard output, through one buffer each, over partial reads and writes.
 */
module Relay {
  import opened Common
  import opened Runs

  const MAXLINE := 4096

  /** A buffer with its input and output pointers as indices; `read` and
      `written` record everything that came in and went out. */
  datatype Buffer = Buffer(mem: string, iptr: nat, optr: nat, read: string, written: string)

  /** What read returned: EWOULDBLOCK, another error, end of file, or data. */
  datatype ReadResult = ReadBlocks | ReadFails | Eof | Data(data: string)

  /** What write returned: EWOULDBLOCK, another error, or a count. */
  datatype WriteResult = WriteBlocks | WriteFails | Wrote(n: nat)

  datatype Outcome = Running | Returned | ServerTerminated | SystemError

  /** `fins` counts the calls of Shutdown. */
  datatype State = State(to: Buffer, fr: Buffer, stdineof: bool, fins: nat, outcome: Outcome)

  function Empty(mem: string): Buffer {
    Buffer(mem, 0, 0, "", "")
  }

  function Init(to: string, fr: string): State {
    State(Empty(to), Empty(fr), false, 0, Running)
  }

  /* ---- One turn of the loop ---- */

  /** The descriptors select is asked about. */
  predicate WantsStdin(s: State) {
    !s.stdineof && s.to.iptr < MAXLINE
  }

  predicate WantsSocketRead(s: State) {
    s.fr.iptr < MAXLINE
  }

  predicate WantsSocketWrite(s: State) {
    s.to.optr != s.to.iptr
  }

  predicate WantsStdout(s: State) {
    s.fr.optr != s.fr.iptr
  }

  /** What select reports and what the system calls of the turn return. */
  datatype Turn = Turn(
    stdinReady: bool, socketReadable: bool, socketWritable: bool, stdoutWritable: bool,
    fromStdin: ReadResult, fromSocket: ReadResult, toStdout: WriteResult, toSocket: WriteResult)

  predicate Reportable(s: State, t: Turn) {
    && (t.stdinReady ==> WantsStdin(s)) && (t.socketReadable ==> WantsSocketRead(s))
    && (t.socketWritable ==> WantsSocketWrite(s)) && (t.stdoutWritable ==> WantsStdout(s))
    && (t.stdinReady || t.socketReadable || t.socketWritable || t.stdoutWritable)
  }

  /** read() stores at most as much as it was asked for, and at least one byte. */
  predicate Readable(b: Buffer, r: ReadResult) {
    r.Data? ==> b.iptr <= |b.mem| == MAXLINE && 0 < |r.data| <= MAXLINE - b.iptr
  }

  function Fill(b: Buffer, data: string): Buffer
    requires b.iptr + |data| <= |b.mem|
  {
    Buffer(b.mem[..b.iptr] + data + b.mem[b.iptr + |data|..], b.iptr + |data|, b.optr, b.read + data, b.written)
  }

  /** `n` bytes written out; an empty buffer starts again at its base. */
  function Drain(b: Buffer, n: nat): Buffer
    requires b.optr + n <= b.iptr <= |b.mem|
  {
    var o := b.optr + n;
    var written := b.written + b.mem[b.optr..o];
    if o == b.iptr then Buffer(b.mem, 0, 0, b.read, written)
    else Buffer(b.mem, b.iptr, o, b.read, written)
  }

  /** write() takes at most as much as it was offered. */
  predicate Writable(b: Buffer, r: WriteResult) {
    r.Wrote? ==> b.optr + r.n <= b.iptr <= |b.mem|
  }

  function AfterStdin(s: State, t: Turn): Option<State> {
    if !t.stdinReady then Some(s)
    else if !Readable(s.to, t.fromStdin) then None
    else
      match t.fromStdin
      case ReadBlocks => Some(s)
      case ReadFails => Some(s.(outcome := SystemError))
      case Eof => Some(s.(stdineof := true, fins := s.fins + if s.to.optr == s.to.iptr then 1 else 0))
      case Data(data) => Some(s.(to := Fill(s.to, data)))
  }

  function AfterSocket(s: State, t: Turn): Option<State> {
    if !t.socketReadable then Some(s)
    else if !Readable(s.fr, t.fromSocket) then None
    else
      match t.fromSocket
      case ReadBlocks => Some(s)
      case ReadFails => Some(s.(outcome := SystemError))
      case Eof => Some(s.(outcome := if s.stdineof then Returned else ServerTerminated))
      case Data(data) => Some(s.(fr := Fill(s.fr, data)))
  }

  /** Standard output is tried if select reported it or something has just
      come from the socket. */
  function AfterStdout(s: State, t: Turn): Option<State> {
    if !((t.stdoutWritable || (t.socketReadable && t.fromSocket.Data?)) && s.fr.optr < s.fr.iptr) then Some(s)
    else if !Writable(s.fr, t.toStdout) then None
    else
      match t.toStdout
      case WriteBlocks => Some(s)
      case WriteFails => Some(s.(outcome := SystemError))
      case Wrote(n) => Some(s.(fr := Drain(s.fr, n)))
  }

  function AfterSend(s: State, t: Turn): Option<State> {
    if !((t.socketWritable || (t.stdinReady && t.fromStdin.Data?)) && s.to.optr < s.to.iptr) then Some(s)
    else if !Writable(s.to, t.toSocket) then None
    else
      match t.toSocket
      case WriteBlocks => Some(s)
      case WriteFails => Some(s.(outcome := SystemError))
      case Wrote(n) =>
        Some(s.(to := Drain(s.to, n),
                fins := s.fins + if s.to.optr + n == s.to.iptr && s.stdineof then 1 else 0))
  }

  /** One of the four parts of a turn, unless the function has been left. */
  function Then(s: Option<State>, t: Turn, part: (State, Turn) -> Option<State>): Option<State> {
    if s.None? || !s.value.outcome.Running? then s else part(s.value, t)
  }

  function Step(s: State, t: Turn): Option<State> {
    if !s.outcome.Running? || !Reportable(s, t) then None
    else Then(Then(Then(AfterStdin(s, t), t, AfterSocket), t, AfterStdout), t, AfterSend)
  }

  /* ---- The invariant ---- */

  /** What a buffer read is what it wrote and what it still holds; equal
      pointers are both at the base. */
  ghost predicate BufferInv(b: Buffer) {
    && |b.mem| == MAXLINE && b.optr <= b.iptr <= MAXLINE
    && (b.optr == b.iptr ==> b.iptr == 0)
    && b.read == b.written + b.mem[b.optr..b.iptr]
  }

  /** The FIN has been sent exactly when standard input is at its end and all of
      it has gone out. */
  ghost predicate Inv(s: State) {
    && BufferInv(s.to) && BufferInv(s.fr)
    && s.fins == if s.stdineof && s.to.optr == s.to.iptr then 1 else 0
  }

  lemma FillKeeps(b: Buffer, data: string)
    requires BufferInv(b) && b.iptr + |data| <= MAXLINE && data != ""
    ensures BufferInv(Fill(b, data))
  {
    var c := Fill(b, data);
    assert c.mem[c.optr..c.iptr] == b.mem[b.optr..b.iptr] + data;
  }

  lemma DrainKeeps(b: Buffer, n: nat)
    requires BufferInv(b) && b.optr + n <= b.iptr
    ensures BufferInv(Drain(b, n))
  {
    assert b.mem[b.optr..b.iptr] == b.mem[b.optr..b.optr + n] + b.mem[b.optr + n..b.iptr];
  }

  lemma StdinKeeps(s: State, t: Turn)
    requires Inv(s) && (t.stdinReady ==> !s.stdineof) && AfterStdin(s, t).Some?
    ensures Inv(AfterStdin(s, t).value)
  {
    if t.stdinReady && t.fromStdin.Data? {
      FillKeeps(s.to, t.fromStdin.data);
    }
  }

  lemma SocketKeeps(s: State, t: Turn)
    requires Inv(s) && AfterSocket(s, t).Some?
    ensures Inv(AfterSocket(s, t).value)
  {
    if t.socketReadable && t.fromSocket.Data? {
      FillKeeps(s.fr, t.fromSocket.data);
    }
  }

  lemma StdoutKeeps(s: State, t: Turn)
    requires Inv(s) && AfterStdout(s, t).Some?
    ensures Inv(AfterStdout(s, t).value)
  {
    if t.toStdout.Wrote? && Writable(s.fr, t.toStdout) {
      DrainKeeps(s.fr, t.toStdout.n);
    }
  }

  lemma SendKeeps(s: State, t: Turn)
    requires Inv(s) && AfterSend(s, t).Some?
    ensures Inv(AfterSend(s, t).value)
  {
    if t.toSocket.Wrote? && Writable(s.to, t.toSocket) {
      DrainKeeps(s.to, t.toSocket.n);
    }
  }

  lemma StepKeeps(s: State, t: Turn)
    requires Inv(s) && Step(s, t).Some?
    ensures Inv(Step(s, t).value)
  {
    hide Inv, AfterStdin, AfterSocket, AfterStdout, AfterSend;
    StdinKeeps(s, t);
    var s1 := AfterStdin(s, t).value;
    if s1.outcome.Running? {
      SocketKeeps(s1, t);
      var s2 := AfterSocket(s1, t).value;
      if s2.outcome.Running? {
        StdoutKeeps(s2, t);
        var s3 := AfterStdout(s2, t).value;
        if s3.outcome.Running? {
          SendKeeps(s3, t);
        }
      }
    }
  }

  lemma RunInv(to: string, fr: string, ts: seq<Turn>)
    requires |to| == |fr| == MAXLINE && Run(Step, Init(to, fr), ts).Some?
    ensures Inv(Run(Step, Init(to, fr), ts).value)
  {
    forall s, t | Inv(s) && Step(s, t).Some?
      ensures Inv(Step(s, t).value)
    {
      StepKeeps(s, t);
    }
    Invariant(Step, Inv, Init(to, fr), ts);
  }

  /* ---- What holds for every schedule of reads and writes ---- */

  /** Nothing is lost, repeated or reordered in either direction; the FIN is
      sent once, after the last byte of standard input, and not before. */
  lemma BytesConserved(to: string, fr: string, ts: seq<Turn>)
    requires |to| == |fr| == MAXLINE && Run(Step, Init(to, fr), ts).Some?
    ensures var s := Run(Step, Init(to, fr), ts).value;
            && s.to.optr <= s.to.iptr <= |s.to.mem| && s.fr.optr <= s.fr.iptr <= |s.fr.mem|
            && s.to.read == s.to.written + s.to.mem[s.to.optr..s.to.iptr]
            && s.fr.read == s.fr.written + s.fr.mem[s.fr.optr..s.fr.iptr]
            && s.fins <= 1
            && (s.fins == 1 <==> s.stdineof && s.to.written == s.to.read)
  {
    RunInv(to, fr, ts);
  }

  /** Neither direction is ever forgotten: each unfinished one has a descriptor
      in select's sets, because a full buffer is never an empty one. */
  lemma AlwaysWatched(to: string, fr: string, ts: seq<Turn>)
    requires |to| == |fr| == MAXLINE && Run(Step, Init(to, fr), ts).Some?
    ensures var s := Run(Step, Init(to, fr), ts).value;
            && (s.fins == 0 ==> WantsStdin(s) || WantsSocketWrite(s))
            && (WantsSocketRead(s) || WantsStdout(s))
  {
    RunInv(to, fr, ts);
  }

  /** And nothing is asked for in vain: a read has room for a byte and comes before end
      of file, and select reports no descriptor for writing without a byte to write. */
  lemma NoEmptyTransfers(to: string, fr: string, ts: seq<Turn>, t: Turn)
    requires |to| == |fr| == MAXLINE && Run(Step, Init(to, fr), ts).Some?
    ensures var s := Run(Step, Init(to, fr), ts).value;
            Step(s, t).Some? ==>
              && (t.stdinReady ==> !s.stdineof && s.to.iptr < MAXLINE)
              && (t.socketReadable ==> s.fr.iptr < MAXLINE)
              && (t.socketWritable ==> s.to.optr < s.to.iptr)
              && (t.stdoutWritable ==> s.fr.optr < s.fr.iptr)
  {
    RunInv(to, fr, ts);
  }

  /** str_cli returns at end of file on the socket without flushing either buffer:
      what was printed is an initial part of what arrived, and what was sent of what
      was typed; all of it exactly if the buffer was empty, for the bytes sent exactly
      if the FIN has been. */
  lemma OutputAtReturn(to: string, fr: string, ts: seq<Turn>)
    requires |to| == |fr| == MAXLINE && Run(Step, Init(to, fr), ts).Some?
    ensures var s := Run(Step, Init(to, fr), ts).value;
            && s.fr.written <= s.fr.read && s.to.written <= s.to.read
            && (s.fr.written == s.fr.read <==> s.fr.optr == s.fr.iptr)
            && (s.to.written == s.to.read <==> s.to.optr == s.to.iptr)
            && (s.outcome.Returned? ==> s.stdineof && (s.to.written == s.to.read <==> s.fins == 1))
  {
    RunInv(to, fr, ts);
    var same := (s: State) => s.outcome.Returned? ==> s.stdineof;
    forall s, t | same(s) && Step(s, t).Some?
      ensures same(Step(s, t).value)
    {
    }
    Invariant(Step, same, Init(to, fr), ts);
  }

  /** Two turns after which a byte that arrived is lost. */
  lemma LossExample(to: string, fr: string) returns (ts: seq<Turn>)
    requires |to| == |fr| == MAXLINE
    ensures Run(Step, Init(to, fr), ts).Some?
    ensures var s := Run(Step, Init(to, fr), ts).value;
            s.outcome.Returned? && s.fr.read == "x" && s.fr.written == ""
  {
    var t1 := Turn(true, true, false, false, Eof, Data("x"), WriteBlocks, WriteBlocks);
    var t2 := Turn(false, true, false, false, ReadBlocks, Eof, WriteBlocks, WriteBlocks);
    var s0 := Init(to, fr);
    var s1 := s0.(stdineof := true, fins := 1, fr := Fill(s0.fr, "x"));
    ts := [t1] + [t2];
    assert Step(s0, t1) == Some(s1);
    assert Step(s1, t2) == Some(s1.(outcome := Returned));
    assert ts[1..] == [t2] && [t2][1..] == [];
    assert Run(Step, s1, [t2]) == Run(Step, s1.(outcome := Returned), []);
  }

  /** Two turns after which a byte that was typed is lost. */
  lemma UnsentExample(to: string, fr: string) returns (ts: seq<Turn>)
    requires |to| == |fr| == MAXLINE
    ensures Run(Step, Init(to, fr), ts).Some?
    ensures var s := Run(Step, Init(to, fr), ts).value;
            s.outcome.Returned? && s.to.read == "x" && s.to.written == ""
  {
    var t1 := Turn(true, false, false, false, Data("x"), ReadBlocks, WriteBlocks, WriteBlocks);
    var t2 := Turn(true, true, false, false, Eof, Eof, WriteBlocks, WriteBlocks);
    var s0 := Init(to, fr);
    var s1 := s0.(to := Fill(s0.to, "x"));
    ts := [t1] + [t2];
    assert Step(s0, t1) == Some(s1);
    assert Step(s1, t2) == Some(s1.(stdineof := true, outcome := Returned));
    RunOne(Step, s0, t1);
    RunExtend(Step, s0, [t1], s1, t2);
  }

  /* ---- The history, read off the turns alone ---- */

  /** What a turn reads: unless a read fails, or the socket is at its end. */
  function Typed(t: Turn): string {
    if t.stdinReady && t.fromStdin.Data? then t.fromStdin.data else ""
  }

  predicate ReadsSocket(t: Turn) {
    t.socketReadable && !(t.stdinReady && t.fromStdin.ReadFails?)
  }

  function Arrived(t: Turn): string {
    if ReadsSocket(t) && t.fromSocket.Data? then t.fromSocket.data else ""
  }

  /** The function is left before anything is written. */
  predicate LeftReading(t: Turn) {
    (t.stdinReady && t.fromStdin.ReadFails?) || (ReadsSocket(t) && (t.fromSocket.ReadFails? || t.fromSocket.Eof?))
  }

  predicate Prints(t: Turn) {
    !LeftReading(t) && (t.stdoutWritable || Arrived(t) != "")
  }

  predicate Sends(t: Turn) {
    !LeftReading(t) && !(Prints(t) && t.toStdout.WriteFails?) && (t.socketWritable || Typed(t) != "")
  }

  function Count(r: WriteResult): nat {
    if r.Wrote? then r.n else 0
  }

  function AllTyped(ts: seq<Turn>): string {
    if ts == [] then "" else Typed(ts[0]) + AllTyped(ts[1..])
  }

  function AllArrived(ts: seq<Turn>): string {
    if ts == [] then "" else Arrived(ts[0]) + AllArrived(ts[1..])
  }

  function AllPrinted(ts: seq<Turn>): nat {
    if ts == [] then 0 else (if Prints(ts[0]) then Count(ts[0].toStdout) else 0) + AllPrinted(ts[1..])
  }

  function AllSent(ts: seq<Turn>): nat {
    if ts == [] then 0 else (if Sends(ts[0]) then Count(ts[0].toSocket) else 0) + AllSent(ts[1..])
  }

  ghost predicate EofSeen(ts: seq<Turn>) {
    exists i :: 0 <= i < |ts| && ts[i].stdinReady && ts[i].fromStdin.Eof?
  }

  /** How a turn leaves the function, if it does. */
  function TurnOutcome(t: Turn, stdineof: bool): Outcome {
    if t.stdinReady && t.fromStdin.ReadFails? then SystemError
    else if ReadsSocket(t) && t.fromSocket.ReadFails? then SystemError
    else if ReadsSocket(t) && t.fromSocket.Eof? then (if stdineof then Returned else ServerTerminated)
    else if (Prints(t) && t.toStdout.WriteFails?) || (Sends(t) && t.toSocket.WriteFails?) then SystemError
    else Running
  }

  lemma StdinHistory(s: State, t: Turn)
    requires Inv(s) && s.outcome.Running? && AfterStdin(s, t).Some?
    ensures var u := AfterStdin(s, t).value;
            && u.to.read == s.to.read + Typed(t) && u.to.written == s.to.written && u.fr == s.fr
            && (u.stdineof <==> s.stdineof || (t.stdinReady && t.fromStdin.Eof?))
            && u.outcome == (if t.stdinReady && t.fromStdin.ReadFails? then SystemError else Running)
            && (u.to.optr < u.to.iptr <==> s.to.optr < s.to.iptr || Typed(t) != "")
  {
    assert s.to.read + "" == s.to.read;
  }

  lemma SocketHistory(s: State, t: Turn)
    requires Inv(s) && s.outcome.Running? && AfterSocket(s, t).Some?
    ensures var u, data := AfterSocket(s, t).value,
                           if t.socketReadable && t.fromSocket.Data? then t.fromSocket.data else "";
            && u.fr.read == s.fr.read + data && u.fr.written == s.fr.written && u.to == s.to
            && u.stdineof == s.stdineof
            && (u.fr.optr < u.fr.iptr <==> s.fr.optr < s.fr.iptr || data != "")
            && u.outcome == if !t.socketReadable then Running
                            else if t.fromSocket.ReadFails? then SystemError
                            else if t.fromSocket.Eof? then (if s.stdineof then Returned else ServerTerminated)
                            else Running
  {
    assert s.fr.read + "" == s.fr.read;
  }

  lemma StdoutHistory(s: State, t: Turn)
    requires Inv(s) && s.outcome.Running? && AfterStdout(s, t).Some?
    ensures var u := AfterStdout(s, t).value;
            var tried := (t.stdoutWritable || (t.socketReadable && t.fromSocket.Data?)) && s.fr.optr < s.fr.iptr;
            && u.fr.read == s.fr.read && |u.fr.written| == |s.fr.written| + (if tried then Count(t.toStdout) else 0)
            && u.to == s.to && u.stdineof == s.stdineof
            && u.outcome == if tried && t.toStdout.WriteFails? then SystemError else Running
  {
  }

  lemma SendHistory(s: State, t: Turn)
    requires Inv(s) && s.outcome.Running? && AfterSend(s, t).Some?
    ensures var u := AfterSend(s, t).value;
            var tried := (t.socketWritable || (t.stdinReady && t.fromStdin.Data?)) && s.to.optr < s.to.iptr;
            && u.to.read == s.to.read && |u.to.written| == |s.to.written| + (if tried then Count(t.toSocket) else 0)
            && u.fr == s.fr && u.stdineof == s.stdineof
            && u.outcome == if tried && t.toSocket.WriteFails? then SystemError else Running
  {
  }

  /** One turn adds to the history what its system calls say, and nothing else. */
  lemma TurnHistory(s: State, t: Turn)
    requires Inv(s) && Step(s, t).Some?
    ensures var u := Step(s, t).value;
            && u.to.read == s.to.read + Typed(t) && u.fr.read == s.fr.read + Arrived(t)
            && |u.fr.written| == |s.fr.written| + (if Prints(t) then Count(t.toStdout) else 0)
            && |u.to.written| == |s.to.written| + (if Sends(t) then Count(t.toSocket) else 0)
            && (u.stdineof <==> s.stdineof || (t.stdinReady && t.fromStdin.Eof?))
            && u.outcome == TurnOutcome(t, u.stdineof)
  {
    hide Inv, AfterStdin, AfterSocket, AfterStdout, AfterSend;
    Pending(s, t);
    StdinHistory(s, t);
    StdinKeeps(s, t);
    NothingAdded(s.fr.read);
    var s1 := AfterStdin(s, t).value;
    if s1.outcome.Running? {
      SocketHistory(s1, t);
      SocketKeeps(s1, t);
      var s2 := AfterSocket(s1, t).value;
      if s2.outcome.Running? {
        StdoutHistory(s2, t);
        StdoutKeeps(s2, t);
        var s3 := AfterStdout(s2, t).value;
        if s3.outcome.Running? {
          SendHistory(s3, t);
        }
      }
    }
  }

  lemma NothingAdded(s: string)
    ensures s + "" == s
  {
  }

  /** What the turn can find to read and write. */
  lemma Pending(s: State, t: Turn)
    requires Inv(s) && Step(s, t).Some?
    ensures s.outcome.Running? && AfterStdin(s, t).Some? && (t.stdinReady ==> !s.stdineof)
    ensures t.stdoutWritable ==> s.fr.optr < s.fr.iptr
    ensures t.socketWritable ==> s.to.optr < s.to.iptr
    ensures t.stdinReady && t.fromStdin.Data? ==> t.fromStdin.data != ""
    ensures t.socketReadable && t.fromSocket.Data? && !(t.stdinReady && t.fromStdin.ReadFails?) ==> t.fromSocket.data != ""
  {
  }

  lemma {:induction false} RunHistory(s: State, ts: seq<Turn>)
    requires Inv(s) && Run(Step, s, ts).Some?
    ensures var u := Run(Step, s, ts).value;
            && u.to.read == s.to.read + AllTyped(ts) && u.fr.read == s.fr.read + AllArrived(ts)
            && |u.fr.written| == |s.fr.written| + AllPrinted(ts) && |u.to.written| == |s.to.written| + AllSent(ts)
            && (u.stdineof <==> s.stdineof || EofSeen(ts))
            && (ts != [] ==> u.outcome == TurnOutcome(ts[|ts| - 1], u.stdineof))
    decreases |ts|
  {
    hide Inv, Step, Typed, Arrived, Prints, Sends, TurnOutcome;
    NothingAdded(s.to.read);
    NothingAdded(s.fr.read);
    if ts != [] {
      var t := Step(s, ts[0]).value;
      TurnHistory(s, ts[0]);
      StepKeeps(s, ts[0]);
      RunHistory(t, ts[1..]);
      assert (s.to.read + Typed(ts[0])) + AllTyped(ts[1..]) == s.to.read + AllTyped(ts);
      assert (s.fr.read + Arrived(ts[0])) + AllArrived(ts[1..]) == s.fr.read + AllArrived(ts);
      EofSplit(ts);
    }
  }

  lemma EofSplit(ts: seq<Turn>)
    requires ts != []
    ensures EofSeen(ts) <==> (ts[0].stdinReady && ts[0].fromStdin.Eof?) || EofSeen(ts[1..])
  {
    if EofSeen(ts) {
      var i :| 0 <= i < |ts| && ts[i].stdinReady && ts[i].fromStdin.Eof?;
      assert i > 0 ==> ts[1..][i - 1] == ts[i];
    }
    if EofSeen(ts[1..]) {
      var i :| 0 <= i < |ts[1..]| && ts[1..][i].stdinReady && ts[1..][i].fromStdin.Eof?;
      assert ts[i + 1] == ts[1..][i];
    }
  }

  /** For every run: what was sent is the first part of what the reads of standard
      input delivered, as long as the writes to the socket said, and what was printed
      is that of what the reads of the socket delivered; how the function ends is the
      doing of the last turn. */
  lemma RelayedAsTold(to: string, fr: string, ts: seq<Turn>)
    requires |to| == |fr| == MAXLINE && Run(Step, Init(to, fr), ts).Some?
    ensures var s := Run(Step, Init(to, fr), ts).value;
            && AllSent(ts) <= |AllTyped(ts)| && s.to.written == AllTyped(ts)[..AllSent(ts)]
            && AllPrinted(ts) <= |AllArrived(ts)| && s.fr.written == AllArrived(ts)[..AllPrinted(ts)]
            && s.to.read == AllTyped(ts) && s.fr.read == AllArrived(ts)
            && (s.stdineof <==> EofSeen(ts))
            && (s.fins == 1 <==> EofSeen(ts) && AllSent(ts) == |AllTyped(ts)|)
            && (ts != [] ==> s.outcome == TurnOutcome(ts[|ts| - 1], EofSeen(ts)))
  {
    hide AllTyped, AllArrived, AllSent, AllPrinted, EofSeen, Step, TurnOutcome;
    RunHistory(Init(to, fr), ts);
    BytesConserved(to, fr, ts);
    assert "" + AllTyped(ts) == AllTyped(ts) && "" + AllArrived(ts) == AllArrived(ts);
  }

  /* ---- The program ---- */

  class Client {
    var to: array<char>
    var fr: array<char>
    var toiptr: nat
    var tooptr: nat
    var friptr: nat
    var froptr: nat
    var stdineof: bool
    var outcome: Outcome
    ghost var stdin: string
    ghost var sent: string
    ghost var received: string
    ghost var stdout: string
    ghost var fins: nat

    ghost predicate Valid()
      reads this
    {
      && to != fr && to.Length == fr.Length == MAXLINE
      && tooptr <= toiptr <= MAXLINE && froptr <= friptr <= MAXLINE
    }

    ghost function View(): State
      reads this, to, fr
    {
      State(Buffer(to[..], toiptr, tooptr, stdin, sent), Buffer(fr[..], friptr, froptr, received, stdout),
            stdineof, fins, outcome)
    }

    constructor ()
      ensures Valid() && fresh(to) && fresh(fr) && View() == Init(to[..], fr[..])
    {
      to, fr := new char[MAXLINE], new char[MAXLINE];
      toiptr, tooptr, friptr, froptr := 0, 0, 0, 0;
      stdineof, outcome := false, Running;
      stdin, sent, received, stdout, fins := "", "", "", "", 0;
      new;
    }

    /** One turn of the loop, after select. */
    method Move(t: Turn)
      requires Valid() && Step(View(), t).Some?
      modifies this, to, fr
      ensures Valid() && to == old(to) && fr == old(fr)
      ensures View() == Step(old(View()), t).value
    {
      hide AfterStdin, AfterSocket, AfterStdout, AfterSend;
      ReadStdin(t);
      if outcome.Running? {
        ReadSocket(t);
        if outcome.Running? {
          WriteStdout(t);
          if outcome.Running? {
            WriteSocket(t);
          }
        }
      }
    }

    method ReadStdin(t: Turn)
      requires Valid() && AfterStdin(View(), t).Some?
      modifies this, to
      ensures Valid() && to == old(to) && fr == old(fr)
      ensures View() == AfterStdin(old(View()), t).value
    {
      if t.stdinReady {
        match t.fromStdin
        case ReadBlocks =>
        case ReadFails => outcome := SystemError;
        case Eof =>
          stdineof := true;
          if tooptr == toiptr {
            fins := fins + 1;
          }
        case Data(data) =>
          Store(to, toiptr, data);
          toiptr := toiptr + |data|;
          stdin := stdin + data;
      }
    }

    method ReadSocket(t: Turn)
      requires Valid() && AfterSocket(View(), t).Some?
      modifies this, fr
      ensures Valid() && to == old(to) && fr == old(fr)
      ensures View() == AfterSocket(old(View()), t).value
    {
      if t.socketReadable {
        match t.fromSocket
        case ReadBlocks =>
        case ReadFails => outcome := SystemError;
        case Eof => outcome := if stdineof then Returned else ServerTerminated;
        case Data(data) =>
          Store(fr, friptr, data);
          friptr := friptr + |data|;
          received := received + data;
      }
    }

    method WriteStdout(t: Turn)
      requires Valid() && AfterStdout(View(), t).Some?
      modifies this
      ensures Valid() && to == old(to) && fr == old(fr)
      ensures View() == AfterStdout(old(View()), t).value
    {
      if (t.stdoutWritable || (t.socketReadable && t.fromSocket.Data?)) && friptr - froptr > 0 {
        match t.toStdout
        case WriteBlocks =>
        case WriteFails => outcome := SystemError;
        case Wrote(n) =>
          stdout := stdout + fr[froptr..froptr + n];
          froptr := froptr + n;
          if froptr == friptr {
            froptr, friptr := 0, 0;
          }
      }
    }

    method WriteSocket(t: Turn)
      requires Valid() && AfterSend(View(), t).Some?
      modifies this
      ensures Valid() && to == old(to) && fr == old(fr)
      ensures View() == AfterSend(old(View()), t).value
    {
      if (t.socketWritable || (t.stdinReady && t.fromStdin.Data?)) && toiptr - tooptr > 0 {
        match t.toSocket
        case WriteBlocks =>
        case WriteFails => outcome := SystemError;
        case Wrote(n) =>
          sent := sent + to[tooptr..tooptr + n];
          tooptr := tooptr + n;
          if tooptr == toiptr {
            toiptr, tooptr := 0, 0;
            if stdineof {
              fins := fins + 1;
            }
          }
      }
    }
  }

  /** read() puts `data` at `buf + at`. */
  method Store(buf: array<char>, at: nat, data: string)
    requires at + |data| <= buf.Length
    modifies buf
    ensures buf[..] == old(buf[..at]) + data + old(buf[at + |data|..])
  {
    for k := 0 to |data|
      invariant buf[..at] == old(buf[..at])
      invariant buf[at..at + k] == data[..k]
      invariant buf[at + |data|..] == old(buf[at + |data|..])
    {
      buf[at + k] := data[k];
      assert buf[at..at + k + 1] == buf[at..at + k] + [data[k]];
    }
    assert buf[..] == buf[..at] + buf[at..at + |data|] + buf[at + |data|..];
  }

}
