/**
 Reliable request and reply over UDP: dg_send_recv adds a sequence number and a
 timestamp to each datagram, retransmits when the timer expires, and takes the
 first reply with the right sequence number. The network may lose, duplicate,
 delay (into later calls too) and reorder; the server echoes what it gets.
 */
module DgSendRecv {
  import opened Common
  import opened Runs
  import Rtt

  const TWO32 := Rtt.TWO32

  /** A datagram sent; its header has `seqno` and `ts`. `call` and `sentAt` are
      the call it belongs to and the time of day, in milliseconds. */
  datatype Message = Message(call: nat, seqno: nat, ts: nat, payload: string, sentAt: int)

  /** Between calls; at `sendagain`; in the receive loop; or out of the loop with
      `n` bytes of a reply, the echo of `sent[echoed]`, the alarm still running. */
  datatype Pc = Idle | Sending | Receiving | Matched(n: nat, ts: nat, echoed: nat)

  /** What a call did: how many datagrams it sent, for how many seconds in all it
      set the alarm, and how it ended. `ms` is the round trip measured at `now`. */
  datatype Outcome =
    | GaveUp(sends: nat, armed: int)
    | Success(sends: nat, armed: int, request: string, inbuff: string, n: nat, echoed: nat, ms: nat, now: int)

  /** `seqno` is sendhdr.seq; `sends` and `armed` belong to the current call. */
  datatype State = State(
    rttinit: bool, info: Rtt.Info, seqno: nat,
    pc: Pc, calls: nat, request: string, inbuff: string, sends: nat, armed: int,
    sent: seq<Message>, log: seq<Outcome>)

  /** Time passes between events: `sec` and `now` are what gettimeofday says then.
      Receive delivers the echo of any datagram sent so far, any number of times. */
  datatype Event =
    | Call(request: string, inbuff: string, sec: int)
    | Send(now: int)
    | Receive(i: nat)
    | ReceiveShort
    | Expire
    | Finish(now: int)

  function Init(info: Rtt.Info): State {
    State(false, info, 0, Idle, 0, "", "", 0, 0, [], [])
  }

  function Min(a: nat, b: nat): (m: nat)
    ensures m <= a && m <= b && (m == a || m == b)
  {
    if a < b then a else b
  }

  /** Receiving `payload` into a buffer: what does not fit is cut off. */
  function Into(inbuff: string, payload: string): (r: string)
    ensures |r| == |inbuff|
  {
    var n := Min(|payload|, |inbuff|);
    payload[..n] + inbuff[n..]
  }

  /* ---- The steps ---- */

  function CallStep(s: State, request: string, inbuff: string, sec: int): State {
    var info := if s.rttinit then s.info else Rtt.Init(s.info, sec);
    s.(rttinit := true, info := info.(nrexmt := 0), seqno := (s.seqno + 1) % TWO32,
       pc := Sending, calls := s.calls + 1, request := request, inbuff := inbuff, sends := 0, armed := 0)
  }

  function SendStep(s: State, now: int): State {
    s.(pc := Receiving, sends := s.sends + 1, armed := s.armed + Rtt.Start(s.info),
       sent := s.sent + [Message(s.calls, s.seqno, Rtt.Ts(s.info, now), s.request, now)])
  }

  function ReceiveStep(s: State, i: nat): State
    requires i < |s.sent|
  {
    var m := s.sent[i];
    s.(inbuff := Into(s.inbuff, m.payload),
       pc := if m.seqno == s.seqno then Matched(Min(|m.payload|, |s.inbuff|), m.ts, i) else Receiving)
  }

  function ExpireStep(s: State): State {
    var info := Rtt.Timeout(s.info);
    if info.nrexmt > Rtt.MAXNREXMT then
      s.(info := info, rttinit := false, pc := Idle, log := s.log + [GaveUp(s.sends, s.armed)])
    else
      s.(info := info, pc := Sending)
  }

  function FinishStep(s: State, now: int): State
    requires s.pc.Matched?
  {
    var ms := (Rtt.Ts(s.info, now) - s.pc.ts) % TWO32;
    s.(info := Rtt.Stop(s.info, ms), pc := Idle,
       log := s.log + [Success(s.sends, s.armed, s.request, s.inbuff, s.pc.n, s.pc.echoed, ms, now)])
  }

  /** The alarm can expire anywhere in the receive loop and until alarm(0). */
  function Step(s: State, e: Event): Option<State> {
    match e
    case Call(request, inbuff, sec) => if s.pc.Idle? then Some(CallStep(s, request, inbuff, sec)) else None
    case Send(now) => if s.pc.Sending? then Some(SendStep(s, now)) else None
    case Receive(i) => if s.pc.Receiving? && i < |s.sent| then Some(ReceiveStep(s, i)) else None
    case ReceiveShort => if s.pc.Receiving? then Some(s) else None
    case Expire => if s.pc.Receiving? || s.pc.Matched? then Some(ExpireStep(s)) else None
    case Finish(now) => if s.pc.Matched? then Some(FinishStep(s, now)) else None
  }

  /* ---- What every step keeps ---- */

  ghost predicate SentInv(s: State) {
    && s.seqno == s.calls % TWO32 && (s.pc.Idle? || s.calls >= 1)
    && forall i :: 0 <= i < |s.sent| ==> MessageInv(s, s.sent[i])
  }

  ghost predicate MessageInv(s: State, m: Message) {
    && 1 <= m.call <= s.calls
    && m.seqno == m.call % TWO32
    && (m.call == s.calls && !s.pc.Idle? ==> m.payload == s.request && m.ts == Rtt.Ts(s.info, m.sentAt))
  }

  /** Between calls the timeout is in range; within a call it has been doubled
      once per expiry. `sends` datagrams took at most 60 (1 + 2 + 4 + ...) seconds. */
  ghost predicate TimerInv(s: State) {
    if s.pc.Idle? then s.rttinit ==> InRange(s.info.rto, 1)
    else
      && s.rttinit
      && s.info.nrexmt <= Rtt.MAXNREXMT
      && InRange(s.info.rto, Rtt.Pow2(s.info.nrexmt))
      && s.sends == s.info.nrexmt + (if s.pc.Sending? then 0 else 1)
      && AlarmInv(s.sends, s.armed)
  }

  ghost predicate InRange(rto: real, factor: int) {
    2.0 * factor as real <= rto <= 60.0 * factor as real
  }

  ghost predicate AlarmInv(sends: nat, armed: int) {
    2 * (Rtt.Pow2(sends) - 1) <= armed <= 60 * (Rtt.Pow2(sends) - 1)
  }

  ghost predicate MatchInv(s: State) {
    s.pc.Matched? ==>
      && s.pc.echoed < |s.sent|
      && s.sent[s.pc.echoed].seqno == s.seqno
      && s.sent[s.pc.echoed].ts == s.pc.ts
      && Holds(s.inbuff, s.pc.n, s.sent[s.pc.echoed].payload)
  }

  /** The buffer starts with as much of the payload as fits. */
  ghost predicate Holds(inbuff: string, n: nat, payload: string) {
    n == Min(|payload|, |inbuff|) && inbuff[..n] == payload[..n]
  }

  /** `log[k]` is the outcome of call number k + 1. */
  ghost predicate LogInv(s: State) {
    && |s.log| == s.calls - (if s.pc.Idle? then 0 else 1)
    && forall k :: 0 <= k < |s.log| ==> OutcomeInv(s.sent, s.log[k], k + 1)
  }

  ghost predicate OutcomeInv(sent: seq<Message>, o: Outcome, call: nat) {
    && 1 <= o.sends <= 4
    && AlarmInv(o.sends, o.armed)
    && match o {
         case GaveUp(sends, armed) => sends == 4
         case Success(_, _, request, inbuff, n, echoed, ms, now) =>
           && echoed < |sent|
           && sent[echoed].call % TWO32 == call % TWO32
           && Holds(inbuff, n, sent[echoed].payload)
           && (sent[echoed].call == call ==>
                 sent[echoed].payload == request && ms == (now - sent[echoed].sentAt) % TWO32)
       }
  }

  ghost predicate Inv(s: State) {
    SentInv(s) && TimerInv(s) && MatchInv(s) && LogInv(s)
  }

  lemma StartInRange(info: Rtt.Info, factor: nat)
    requires InRange(info.rto, factor)
    ensures 2 * factor <= Rtt.Start(info) <= 60 * factor
  {
    var x := info.rto + 0.5;
    assert (2 * factor) as real <= x < (60 * factor + 1) as real;
  }

  lemma CallTimer(s: State, request: string, inbuff: string, sec: int)
    requires TimerInv(s) && s.pc.Idle?
    ensures TimerInv(CallStep(s, request, inbuff, sec))
  {
  }

  lemma SendTimer(s: State, now: int)
    requires TimerInv(s) && s.pc.Sending?
    ensures TimerInv(SendStep(s, now))
  {
    StartInRange(s.info, Rtt.Pow2(s.info.nrexmt));
  }

  lemma DoubleInRange(rto: real, n: nat)
    requires InRange(rto, Rtt.Pow2(n))
    ensures InRange(rto * 2.0, Rtt.Pow2(n + 1))
  {
    assert Rtt.Pow2(n + 1) as real == 2.0 * Rtt.Pow2(n) as real;
  }

  lemma ExpireTimer(s: State)
    requires TimerInv(s) && (s.pc.Receiving? || s.pc.Matched?)
    ensures TimerInv(ExpireStep(s))
    ensures ExpireStep(s).pc.Idle? ==> s.sends == 4
  {
    hide InRange, AlarmInv;
    DoubleInRange(s.info.rto, s.info.nrexmt);
  }

  lemma StepKeepsTimer(s: State, e: Event)
    requires TimerInv(s) && Step(s, e).Some?
    ensures TimerInv(Step(s, e).value)
  {
    hide TimerInv;
    match e
    case Call(request, inbuff, sec) => CallTimer(s, request, inbuff, sec);
    case Send(now) => SendTimer(s, now);
    case Receive(i) => ReceiveTimer(s, i);
    case ReceiveShort =>
    case Expire => ExpireTimer(s);
    case Finish(now) => FinishTimer(s, now);
  }

  lemma ReceiveTimer(s: State, i: nat)
    requires TimerInv(s) && s.pc.Receiving? && i < |s.sent|
    ensures TimerInv(ReceiveStep(s, i))
  {
  }

  lemma FinishTimer(s: State, now: int)
    requires TimerInv(s) && s.pc.Matched?
    ensures TimerInv(FinishStep(s, now))
  {
  }

  lemma StepKeepsSent(s: State, e: Event)
    requires SentInv(s) && Step(s, e).Some?
    ensures SentInv(Step(s, e).value)
  {
    hide Rtt.Stop, Rtt.Init, Rtt.Start, Into;
    var t := Step(s, e).value;
    forall i | 0 <= i < |t.sent| ensures MessageInv(t, t.sent[i]) {
      assert i < |s.sent| ==> MessageInv(s, s.sent[i]);
    }
  }

  lemma StepKeepsMatch(s: State, e: Event)
    requires MatchInv(s) && Step(s, e).Some?
    ensures MatchInv(Step(s, e).value)
  {
  }

  /** A new datagram changes nothing about the calls already over. */
  lemma OutcomeKept(sent: seq<Message>, m: Message, o: Outcome, call: nat)
    requires OutcomeInv(sent, o, call)
    ensures OutcomeInv(sent + [m], o, call)
  {
  }

  lemma SendLog(s: State, now: int)
    requires LogInv(s) && s.pc.Sending?
    ensures LogInv(SendStep(s, now))
  {
    hide OutcomeInv;
    var t := SendStep(s, now);
    forall k | 0 <= k < |t.log| ensures OutcomeInv(t.sent, t.log[k], k + 1) {
      OutcomeKept(s.sent, t.sent[|s.sent|], s.log[k], k + 1);
    }
  }

  lemma ExpireLog(s: State)
    requires LogInv(s) && TimerInv(s) && (s.pc.Receiving? || s.pc.Matched?)
    ensures LogInv(ExpireStep(s))
  {
    hide AlarmInv, InRange, Rtt.Timeout;
    ExpireTimer(s);
  }

  /** The reply taken makes a good outcome. */
  lemma FinishOutcome(s: State, now: int)
    requires Inv(s) && s.pc.Matched?
    ensures OutcomeInv(s.sent, FinishStep(s, now).log[|s.log|], s.calls)
  {
    hide AlarmInv, InRange, Rtt.Ts, Rtt.Stop, Holds;
    var m := s.sent[s.pc.echoed];
    assert MessageInv(s, m);
    Rtt.Elapsed(s.info, m.sentAt, now);
  }

  lemma FinishLog(s: State, now: int)
    requires Inv(s) && s.pc.Matched?
    ensures LogInv(FinishStep(s, now))
  {
    hide OutcomeInv, SentInv, TimerInv, MatchInv, Rtt.Ts, Rtt.Stop;
    FinishOutcome(s, now);
  }

  lemma StepKeepsLog(s: State, e: Event)
    requires Inv(s) && Step(s, e).Some?
    ensures LogInv(Step(s, e).value)
  {
    hide OutcomeInv;
    match e
    case Send(now) => SendLog(s, now);
    case Expire => ExpireLog(s);
    case Finish(now) => FinishLog(s, now);
    case _ =>
  }

  lemma StepKeepsInv(s: State, e: Event)
    requires Inv(s) && Step(s, e).Some?
    ensures Inv(Step(s, e).value)
  {
    hide Step, SentInv, TimerInv, MatchInv, LogInv;
    StepKeepsSent(s, e);
    StepKeepsTimer(s, e);
    StepKeepsMatch(s, e);
    StepKeepsLog(s, e);
  }

  lemma RunInv(info: Rtt.Info, es: seq<Event>)
    requires Run(Step, Init(info), es).Some?
    ensures Inv(Run(Step, Init(info), es).value)
  {
    forall s, e | Inv(s) && Step(s, e).Some?
      ensures Inv(Step(s, e).value)
    {
      StepKeepsInv(s, e);
    }
    Invariant(Step, Inv, Init(info), es);
  }

  /* ---- What a run does ---- */

  ghost predicate IsRun(info: Rtt.Info, es: seq<Event>, s: State) {
    Run(Step, Init(info), es) == Some(s)
  }

  /** For the first 2^32 calls: a call that succeeds has the echo of its own request,
      as much of it as fits, and measured the round trip of the very datagram
      echoed, retransmitted or not. */
  lemma OwnEcho(info: Rtt.Info, es: seq<Event>, s: State, k: nat)
    requires IsRun(info, es, s)
    requires k < |s.log| && s.log[k].Success? && s.calls <= TWO32
    ensures Holds(s.log[k].inbuff, s.log[k].n, s.log[k].request)
    ensures var o := s.log[k]; o.echoed < |s.sent| && s.sent[o.echoed].call == k + 1
                               && o.ms == (o.now - s.sent[o.echoed].sentAt) % TWO32
  {
    RunInv(info, es);
    var o := s.log[k];
    assert OutcomeInv(s.sent, o, k + 1);
    assert MessageInv(s, s.sent[o.echoed]);
    SameResidue(s.sent[o.echoed].call, k + 1);
  }

  lemma SameResidue(a: nat, b: nat)
    requires 1 <= a <= TWO32 && 1 <= b <= TWO32 && a % TWO32 == b % TWO32
    ensures a == b
  {
  }

  /** In general: the reply is the echo of a call a multiple of 2^32 away. */
  lemma EchoOfCongruentCall(info: Rtt.Info, es: seq<Event>, s: State, k: nat)
    requires IsRun(info, es, s)
    requires k < |s.log| && s.log[k].Success?
    ensures var o := s.log[k]; o.echoed < |s.sent| && s.sent[o.echoed].call % TWO32 == (k + 1) % TWO32
                               && Holds(o.inbuff, o.n, s.sent[o.echoed].payload)
  {
    RunInv(info, es);
    assert OutcomeInv(s.sent, s.log[k], k + 1);
  }

  /** The datagrams that the outcomes tell of. */
  function TotalSends(log: seq<Outcome>): nat {
    if log == [] then 0 else TotalSends(log[..|log| - 1]) + log[|log| - 1].sends
  }

  /** With those of the call under way. */
  function Told(s: State): nat {
    TotalSends(s.log) + if s.pc.Idle? then 0 else s.sends
  }

  function SendEvents(es: seq<Event>): nat {
    if es == [] then 0 else SendEvents(es[1..]) + if es[0].Send? then 1 else 0
  }

  lemma StepSends(s: State, e: Event)
    ensures Step(s, e).Some? ==>
              var t, more := Step(s, e).value, if e.Send? then 1 else 0;
              |t.sent| == |s.sent| + more && Told(t) == Told(s) + more
  {
    hide Rtt.Init, Rtt.Timeout, Rtt.Stop, Rtt.Ts, Rtt.Start, Into, TotalSends;
    if Step(s, e).Some? {
      var t := Step(s, e).value;
      if |t.log| > |s.log| {
        TotalOfMore(s.log, t.log[|s.log|]);
        assert t.log == s.log + [t.log[|s.log|]];
      }
    }
  }

  lemma TotalOfMore(log: seq<Outcome>, o: Outcome)
    ensures TotalSends(log + [o]) == TotalSends(log) + o.sends
  {
    assert (log + [o])[..|log|] == log;
  }

  lemma {:induction false} RunSends(s: State, es: seq<Event>)
    ensures Run(Step, s, es).Some? ==>
              var t := Run(Step, s, es).value;
              |t.sent| == |s.sent| + SendEvents(es) && Told(t) == Told(s) + SendEvents(es)
    decreases |es|
  {
    hide Step, Told;
    if es != [] && Step(s, es[0]).Some? {
      StepSends(s, es[0]);
      RunSends(Step(s, es[0]).value, es[1..]);
    }
  }

  /** The outcomes tell of every datagram sent, in this run, and of no other. */
  lemma SendsAreTold(info: Rtt.Info, es: seq<Event>)
    ensures Run(Step, Init(info), es).Some? ==>
              var s := Run(Step, Init(info), es).value;
              |s.sent| == SendEvents(es) == TotalSends(s.log) + if s.pc.Idle? then 0 else s.sends
  {
    RunSends(Init(info), es);
  }

  /** A call sends at most 4 datagrams and sets the alarm for at most 900 seconds in
      all; it gives up only after 4 datagrams and at least 30 seconds. */
  lemma EffortIsBounded(info: Rtt.Info, es: seq<Event>, s: State, k: nat)
    requires IsRun(info, es, s) && k < |s.log|
    ensures 1 <= s.log[k].sends <= 4 && 2 <= s.log[k].armed <= 900
    ensures s.log[k].GaveUp? ==> s.log[k].sends == 4 && s.log[k].armed >= 30
  {
    RunInv(info, es);
    assert OutcomeInv(s.sent, s.log[k], k + 1);
    Powers();
  }

  lemma Powers()
    ensures Rtt.Pow2(1) == 2 && Rtt.Pow2(2) == 4 && Rtt.Pow2(3) == 8 && Rtt.Pow2(4) == 16
  {
    assert Rtt.Pow2(2) == 4;
    assert Rtt.Pow2(3) == 8;
  }

  /** One transmission and the expiry of its alarm. */
  lemma Retransmit(info: Rtt.Info, es: seq<Event>, s: State, now: int) returns (fs: seq<Event>, t: State)
    requires IsRun(info, es, s) && s.pc.Sending?
    ensures IsRun(info, fs, t) && t == ExpireStep(SendStep(s, now))
  {
    hide Run, SendStep, ExpireStep;
    SendsThenReceives(s, now);
    var u := SendStep(s, now);
    RunExtend(Step, Init(info), es, s, Send(now));
    RunExtend(Step, Init(info), es + [Send(now)], u, Expire);
    fs, t := es + [Send(now)] + [Expire], ExpireStep(u);
  }

  lemma SendsThenReceives(s: State, now: int)
    requires s.pc.Sending?
    ensures SendStep(s, now).pc.Receiving?
  {
  }

  /** One transmission, and the echo of an earlier one of the call at `later`. */
  lemma Answer(info: Rtt.Info, es: seq<Event>, s: State, now: int, i: nat, later: int)
      returns (fs: seq<Event>, t: State)
    requires IsRun(info, es, s) && s.pc.Sending?
    requires i < |s.sent| && s.sent[i].seqno == s.seqno
    ensures IsRun(info, fs, t) && t.pc.Idle? && t.rttinit == s.rttinit && t.seqno == s.seqno
    ensures t.info == Rtt.Stop(s.info, (Rtt.Ts(s.info, later) - s.sent[i].ts) % TWO32)
    ensures |t.sent| == |s.sent| + 1
  {
    hide Run, Rtt.Stop, Rtt.Ts, Rtt.Start, Into, Min;
    var u := SendStep(s, now);
    assert u.sent[i] == s.sent[i];
    var v := ReceiveStep(u, i);
    RunExtend(Step, Init(info), es, s, Send(now));
    RunExtend(Step, Init(info), es + [Send(now)], u, Receive(i));
    RunExtend(Step, Init(info), es + [Send(now)] + [Receive(i)], v, Finish(later));
    fs, t := es + [Send(now)] + [Receive(i)] + [Finish(later)], FinishStep(v, later);
  }

  lemma NewCall(info: Rtt.Info, es: seq<Event>, s: State, sec: int) returns (fs: seq<Event>, t: State)
    requires IsRun(info, es, s) && s.pc.Idle?
    ensures IsRun(info, fs, t) && t == CallStep(s, "", "", sec)
  {
    hide Run, CallStep;
    RunExtend(Step, Init(info), es, s, Call("", "", sec));
    fs, t := es + [Call("", "", sec)], CallStep(s, "", "", sec);
  }

  /** A first call whose first datagram is echoed after 40 seconds, while the alarm of
      the fourth is running: 3 + 6 + 12 seconds have passed with those before. */
  lemma FortySeconds(info: Rtt.Info) returns (es: seq<Event>, s: State)
    ensures IsRun(info, es, s) && s.pc.Idle? && s.rttinit && |s.sent| == 4 && s.seqno == 1
    ensures s.info.srtt == 5.0 && s.info.rttvar == 10.5625 && s.info.rto == 47.25 && s.info.base == 0
  {
    hide Run, SendStep, ExpireStep;
    RunNone(Step, Init(info));
    es, s := NewCall(info, [], Init(info), 0);
    assert s.info == Rtt.Info(0.0, 0.0, 0.75, 3.0, 0, 0) && s.seqno == 1;
    es, s := FirstExpiry(info, es, s, 0);
    es, s := LaterExpiry(info, es, s, 3_000, 0);
    es, s := LaterExpiry(info, es, s, 9_000, 0);
    es, s := Answer(info, es, s, 21_000, 0, 40_000);
  }

  /** Expiries leave the estimates alone and keep the datagrams. */
  lemma FirstExpiry(info: Rtt.Info, es: seq<Event>, s: State, now: int) returns (fs: seq<Event>, t: State)
    requires IsRun(info, es, s) && s.pc.Sending? && s.info.nrexmt < Rtt.MAXNREXMT
    ensures IsRun(info, fs, t) && t.pc.Sending?
    ensures t.info == Rtt.Timeout(s.info) && t.rttinit == s.rttinit && t.seqno == s.seqno
    ensures t.sends == s.sends + 1 && t.armed == s.armed + Rtt.Start(s.info)
    ensures |t.sent| == |s.sent| + 1
    ensures t.sent[|s.sent|].seqno == s.seqno && t.sent[|s.sent|].ts == Rtt.Ts(s.info, now)
  {
    fs, t := Retransmit(info, es, s, now);
  }

  lemma LaterExpiry(info: Rtt.Info, es: seq<Event>, s: State, now: int, i: nat) returns (fs: seq<Event>, t: State)
    requires IsRun(info, es, s) && s.pc.Sending? && s.info.nrexmt < Rtt.MAXNREXMT && i < |s.sent|
    ensures IsRun(info, fs, t) && t.pc.Sending?
    ensures t.info == Rtt.Timeout(s.info) && t.rttinit == s.rttinit && t.seqno == s.seqno
    ensures t.sends == s.sends + 1 && t.armed == s.armed + Rtt.Start(s.info)
    ensures |t.sent| == |s.sent| + 1 && t.sent[i] == s.sent[i]
  {
    fs, t := Retransmit(info, es, s, now);
  }

  /** A second call whose first datagram takes 100 seconds, so that the timeout comes
      to its upper bound: 47 seconds have passed with it. */
  lemma HundredSeconds(info: Rtt.Info) returns (es: seq<Event>, s: State)
    ensures IsRun(info, es, s) && s.pc.Idle? && s.rttinit && s.info.rto == 60.0
  {
    hide Run, SendStep, ExpireStep;
    es, s := FortySeconds(info);
    es, s := NewCall(info, es, s, 40);
    es, s := FirstExpiry(info, es, s, 40_000);
    es, s := Answer(info, es, s, 87_000, 4, 140_000);
  }

  /** The 900 seconds of EffortIsBounded are reached, the last 480 of them with one
      alarm: the third call gets no reply. */
  lemma LongestCall(info: Rtt.Info) returns (es: seq<Event>, s: State, fs: seq<Event>, t: State)
    ensures IsRun(info, es, s) && s.pc.Sending? && s.armed == 420 && Rtt.Start(s.info) == 480
    ensures IsRun(info, fs, t) && t.pc.Idle? && t.log != [] && t.log[|t.log| - 1] == GaveUp(4, 900)
  {
    hide Run, SendStep, ExpireStep;
    es, s := HundredSeconds(info);
    es, s := NewCall(info, es, s, 140);
    es, s := FirstExpiry(info, es, s, 140_000);
    es, s := LaterExpiry(info, es, s, 200_000, 0);
    es, s := LaterExpiry(info, es, s, 320_000, 0);
    fs, t := LastExpiry(info, es, s, 560_000);
  }

  lemma LastExpiry(info: Rtt.Info, es: seq<Event>, s: State, now: int) returns (fs: seq<Event>, t: State)
    requires IsRun(info, es, s) && s.pc.Sending? && s.info.nrexmt == Rtt.MAXNREXMT
    ensures IsRun(info, fs, t) && t.pc.Idle?
    ensures t.log == s.log + [GaveUp(s.sends + 1, s.armed + Rtt.Start(s.info))]
  {
    fs, t := Retransmit(info, es, s, now);
  }

  /** Every call starts with a timeout between 2 and 60 seconds, although
      the doubled one is not cut off: success measures anew, giving up starts over. */
  lemma FirstTimeout(info: Rtt.Info, es: seq<Event>, s: State)
    requires IsRun(info, es, s)
    requires s.pc.Sending? && s.info.nrexmt == 0
    ensures 2 <= Rtt.Start(s.info) <= 60
  {
    RunInv(info, es);
    assert Rtt.Pow2(0) == 1;
    StartInRange(s.info, 1);
  }

  /* ---- More than 2^32 calls ---- */

  /** A call whose first datagram is echoed at once. */
  function AnsweredCall(s: State, request: string, inbuff: string): State
    requires s.pc.Idle?
  {
    FinishStep(ReceiveStep(SendStep(CallStep(s, request, inbuff, 0), 0), |s.sent|), 0)
  }

  lemma AnsweredCallRuns(info: Rtt.Info, es: seq<Event>, s: State, request: string, inbuff: string)
    requires IsRun(info, es, s) && s.pc.Idle?
    ensures var es' := es + [Call(request, inbuff, 0)] + [Send(0)] + [Receive(|s.sent|)] + [Finish(0)];
            IsRun(info, es', AnsweredCall(s, request, inbuff))
    ensures var t := AnsweredCall(s, request, inbuff);
            t.pc.Idle? && t.calls == s.calls + 1 && |t.sent| == |s.sent| + 1 && t.sent[..|s.sent|] == s.sent
  {
    hide Rtt.Init, Rtt.Start, Rtt.Ts, Rtt.Stop, Into, Min, Run;
    var c := CallStep(s, request, inbuff, 0);
    var d := SendStep(c, 0);
    var r := ReceiveStep(d, |s.sent|);
    RunExtend(Step, Init(info), es, s, Call(request, inbuff, 0));
    RunExtend(Step, Init(info), es + [Call(request, inbuff, 0)], c, Send(0));
    RunExtend(Step, Init(info), es + [Call(request, inbuff, 0)] + [Send(0)], d, Receive(|s.sent|));
    RunExtend(Step, Init(info), es + [Call(request, inbuff, 0)] + [Send(0)] + [Receive(|s.sent|)], r, Finish(0));
  }

  /** Calls that are all answered at once: as many as one likes. */
  lemma {:induction false} ManyCalls(info: Rtt.Info, n: nat, request: string) returns (es: seq<Event>, s: State)
    ensures IsRun(info, es, s) && s.pc.Idle? && s.calls == n && |s.sent| == n
    ensures n > 0 ==> s.sent[0].payload == request && s.sent[0].call == 1
  {
    if n == 0 {
      es, s := [], Init(info);
    } else {
      var es0, s0 := ManyCalls(info, n - 1, request);
      RunInv(info, es0);
      AnsweredCallRuns(info, es0, s0, request, "");
      es := es0 + [Call(request, "", 0)] + [Send(0)] + [Receive(|s0.sent|)] + [Finish(0)];
      s := AnsweredCall(s0, request, "");
      if n > 1 {
        assert s.sent[0] == s.sent[..|s0.sent|][0];
      }
    }
  }

  /** The limit of OwnEcho is the right one: call number 2^32 + 1 can take the
      delayed echo of the first call's request for its own. */
  lemma SequenceNumberWraps(info: Rtt.Info, first: string, request: string, inbuff: string) returns (es: seq<Event>, s: State)
    ensures IsRun(info, es, s) && s.calls == TWO32 + 1 && |s.log| == s.calls
    ensures var o := s.log[TWO32]; o.Success? && o.request == request && Holds(o.inbuff, o.n, first) && |o.inbuff| == |inbuff|
  {
    hide Rtt.Init, Rtt.Start, Rtt.Ts, Rtt.Stop, Run;
    var es0, s0 := ManyCalls(info, TWO32, first);
    RunInv(info, es0);
    assert MessageInv(s0, s0.sent[0]);
    var c := CallStep(s0, request, inbuff, 0);
    var d := SendStep(c, 0);
    var r := ReceiveStep(d, 0);
    RunExtend(Step, Init(info), es0, s0, Call(request, inbuff, 0));
    RunExtend(Step, Init(info), es0 + [Call(request, inbuff, 0)], c, Send(0));
    RunExtend(Step, Init(info), es0 + [Call(request, inbuff, 0)] + [Send(0)], d, Receive(0));
    RunExtend(Step, Init(info), es0 + [Call(request, inbuff, 0)] + [Send(0)] + [Receive(0)], r, Finish(0));
    es := es0 + [Call(request, inbuff, 0)] + [Send(0)] + [Receive(0)] + [Finish(0)];
    s := FinishStep(r, 0);
  }

  /* ---- The function as it is written ---- */

  const HEADER := 8

  /** The static variables of dg_send_recv.c, and `sent`, the datagrams the
      network may still deliver the echo of. */
  class Client {
    const rttinfo: Rtt.RttInfo
    var rttinit: bool
    var seqno: nat
    var calls: nat
    var request: string
    var inbuff: array<char>
    var sent: seq<Message>
    ghost var pc: Pc
    ghost var sends: nat
    ghost var armed: int
    ghost var log: seq<Outcome>

    ghost function View(): State
      reads this, rttinfo, inbuff
    {
      State(rttinit, rttinfo.View(), seqno, pc, calls, request, inbuff[..], sends, armed, sent, log)
    }

    constructor ()
      ensures exists info :: View() == Init(info)
    {
      rttinfo := new Rtt.RttInfo();
      rttinit, seqno, calls, request, sent := false, 0, 0, "", [];
      inbuff := new char[0];
      pc, sends, armed, log := Idle, 0, 0, [];
      new;
      assert View() == Init(rttinfo.View());
    }

    method InitTimer(sec: int)
      modifies this`rttinit, rttinfo
      ensures rttinit
      ensures rttinfo.View() == if old(rttinit) then old(rttinfo.View()) else Rtt.Init(old(rttinfo.View()), sec)
    {
      if !rttinit {
        rttinfo.RttInit(sec);
        rttinit := true;
      }
    }

    method Begin(outbuff: string, buffer: array<char>) returns (sec: int)
      requires pc.Idle?
      modifies this, rttinfo
      ensures inbuff == buffer && request == outbuff
      ensures View() == CallStep(old(View()), outbuff, buffer[..], sec)
    {
      sec :| true;
      InitTimer(sec);
      rttinfo.RttNewpack();
      ghost var info := rttinfo.View();
      seqno := (seqno + 1) % TWO32;
      inbuff, request, calls := buffer, outbuff, calls + 1;
      pc, sends, armed := Sending, 0, 0;
      assert rttinfo.View() == info;
    }

    method SendAgain() returns (ghost e: Event)
      requires pc.Sending?
      modifies this
      ensures Step(old(View()), e) == Some(View())
      ensures pc.Receiving? && sent != [] && inbuff == old(inbuff)
    {
      var sec: int, usec: nat :| true;
      var ts := rttinfo.RttTs(sec, usec);
      sent := sent + [Message(calls, seqno, ts, request, sec * 1000 + usec / 1000)];
      var seconds := rttinfo.RttStart();
      pc, sends, armed := Receiving, sends + 1, armed + seconds;
      e := Send(sec * 1000 + usec / 1000);
    }

    /** The size of the datagram that came, and its header if it was that long. */
    method Recvmsg() returns (n: nat, recvseq: nat, recvts: nat, ghost e: Event)
      requires pc.Receiving? && sent != []
      modifies this`pc, inbuff
      ensures Step(old(View()), e) == Some(View())
      ensures pc.Matched? <==> n >= HEADER && recvseq == seqno
      ensures pc.Matched? ==> pc.n == n - HEADER && pc.ts == recvts
      ensures !pc.Matched? ==> pc.Receiving?
    {
      recvseq, recvts, n := 0, 0, 0;
      var short: bool :| true;
      if short {
        n :| n < HEADER;
        e := ReceiveShort;
      } else {
        var i: nat :| i < |sent|;
        var m := sent[i];
        var copied := Min(|m.payload|, inbuff.Length);
        ghost var was := inbuff[..];
        forall j | 0 <= j < copied {
          inbuff[j] := m.payload[j];
        }
        assert inbuff[..] == Into(was, m.payload);
        n, recvseq, recvts := HEADER + copied, m.seqno, m.ts;
        e := Receive(i);
        if m.seqno == seqno {
          pc := Matched(copied, m.ts, i);
        }
      }
    }

    /** The signal handler's jump: rtt_timeout decides whether to try again. */
    method Expired() returns (rc: int, ghost e: Event)
      requires pc.Receiving? || pc.Matched?
      modifies this, rttinfo
      ensures Step(old(View()), e) == Some(View())
      ensures inbuff == old(inbuff) && request == old(request)
      ensures rc < 0 ==> pc.Idle? && log == old(log) + [GaveUp(sends, armed)]
      ensures rc >= 0 ==> pc.Sending? && rttinfo.nrexmt == old(rttinfo.nrexmt) + 1 <= Rtt.MAXNREXMT
      ensures calls == old(calls) && (rc >= 0 ==> log == old(log))
    {
      rc := rttinfo.RttTimeout();
      e := Expire;
      if rc < 0 {
        rttinit := false;
        pc, log := Idle, log + [GaveUp(sends, armed)];
      } else {
        pc := Sending;
      }
    }

    /** alarm(0) and the new measurement. */
    method Stop(recvts: nat) returns (ghost e: Event)
      requires pc.Matched? && pc.ts == recvts
      modifies this, rttinfo
      ensures Step(old(View()), e) == Some(View())
      ensures pc.Idle? && inbuff == old(inbuff) && calls == old(calls)
      ensures |log| == |old(log)| + 1 && log[..|old(log)|] == old(log)
      ensures var o := log[|old(log)|];
              o.Success? && o.n == old(pc.n) && o.request == old(request) && o.inbuff == inbuff[..]
    {
      var sec: int, usec: nat :| true;
      var ts := rttinfo.RttTs(sec, usec);
      var ms := (ts - recvts) % TWO32;
      ghost var now := sec * 1000 + usec / 1000;
      log := log + [Success(sends, armed, request, inbuff[..], pc.n, pc.echoed, ms, now)];
      pc := Idle;
      rttinfo.RttStop(ms);
      e := Finish(now);
    }

    /** The receive loop: until a reply matches or the alarm expires, which it does
        after some number of datagrams. */
    method Await() returns (matched: bool, n: nat, recvts: nat, ghost es: seq<Event>)
      requires pc.Receiving? && sent != []
      modifies this`pc, inbuff
      ensures Run(Step, old(View()), es) == Some(View())
      ensures pc.Receiving? || pc.Matched?
      ensures matched ==> pc.Matched? && pc.n == n && pc.ts == recvts
    {
      hide Step, Run, Into;
      var patience: nat :| true;
      es, matched, n, recvts := [], false, 0, 0;
      ghost var s := View();
      RunNone(Step, s);
      while patience > 0
        invariant pc.Receiving? && Run(Step, s, es) == Some(View())
      {
        ghost var t := View();
        var size, recvseq, ts, e := Recvmsg();
        RunExtend(Step, s, es, t, e);
        es := es + [e];
        if size >= HEADER && recvseq == seqno {
          var expires: bool :| true;
          return !expires, size - HEADER, ts, es;
        }
        patience := patience - 1;
      }
    }

    /** dg_send_recv: a run of the machine above, from the call to its outcome. */
    method DgSendRecv(outbuff: string, buffer: array<char>) returns (n: int, ghost es: seq<Event>)
      requires pc.Idle?
      modifies this, rttinfo, buffer
      ensures Run(Step, old(View()), es) == Some(View())
      ensures pc.Idle? && inbuff == buffer && calls == old(calls) + 1
      ensures |log| == |old(log)| + 1 && log[..|old(log)|] == old(log)
      ensures var o := log[|log| - 1];
              if o.GaveUp? then n == -1 else n == o.n && o.request == outbuff && o.inbuff == buffer[..]
    {
      hide Run;
      ghost var s := View();
      var sec := Begin(outbuff, buffer);
      ghost var e := Call(outbuff, buffer[..], sec);
      RunOne(Step, s, e);
      es := [e];
      while true
        invariant pc.Sending? && inbuff == buffer && request == outbuff && rttinfo.nrexmt <= Rtt.MAXNREXMT
        invariant calls == old(calls) + 1 && log == old(log)
        invariant Run(Step, s, es) == Some(View())
        decreases Rtt.MAXNREXMT - rttinfo.nrexmt
      {
        ghost var t := View();
        e := SendAgain();
        RunExtend(Step, s, es, t, e);
        es := es + [e];
        t := View();
        ghost var more;
        var matched, size, recvts;
        matched, size, recvts, more := Await();
        RunAppend(Step, s, es, more);
        es := es + more;
        t := View();
        if matched {
          e := Stop(recvts);
          RunExtend(Step, s, es, t, e);
          es := es + [e];
          return size, es;
        }
        var rc;
        rc, e := Expired();
        RunExtend(Step, s, es, t, e);
        es := es + [e];
        if rc < 0 {
          return -1, es;
        }
      }
    }
  }

}
