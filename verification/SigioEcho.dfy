/**
 The signal-driven UDP echo server: a SIGIO handler fills an eight-slot ring
 that the main loop empties.  The handler may run whenever SIGIO is not blocked,
 and main stands still while it does.
 */
module SigioEcho {
  import opened Common
  import opened Runs

  const QSIZE := 8

  /** A datagram and its sender, or a slot of the ring. */
  datatype DG = DG(data: string, len: nat, sa: int, salen: nat)

  datatype Main =
    | Starting                              // before SIGIO is first blocked
    | Testing                               // at while (nqueue == 0)
    | Suspended                             // in sigsuspend
    | Unblocking                            // at Sigprocmask(SIG_SETMASK)
    | Calling                               // at Sendto
    | Sending(slot: nat, len: nat, salen: nat)  // in sendto: data and address are read from the slot
    | Bumping                               // at ++iget
    | Wrapping                              // at if (iget >= QSIZE) iget = 0
    | Blocking                              // at Sigprocmask(SIG_BLOCK)
    | Loading                               // at nqueue--: load
    | Storing(v: int)                       // at nqueue--: store

  /** The handler, with its local `nread`. */
  datatype Handler =
    | Idle
    | Top(nread: nat)        // at if (nqueue >= QSIZE)
    | Receiving(nread: nat)  // at recvfrom
    | Leaving(nread: nat)    // at cntread[nread]++
    | Exited                 // err_quit("receive overflow")

  /** `received` and `sent` record the history. */
  datatype State = State(
    dg: seq<DG>, iget: nat, iput: nat, nqueue: int, clilen: nat, cntread: seq<nat>,
    main: Main, handler: Handler, received: seq<DG>, sent: seq<DG>)

  function Init(dg: seq<DG>, clilen: nat): State {
    State(dg, 0, 0, 0, clilen, seq(QSIZE + 1, _ => 0), Starting, Idle, [], [])
  }

  /* ---- One atomic step ---- */

  predicate SigioBlocked(m: Main) {
    m.Testing? || m.Unblocking? || m.Loading? || m.Storing?
  }

  function MainStep(s: State): Option<State> {
    match s.main
    case Starting => Some(s.(main := Testing))
    case Testing => Some(s.(main := if s.nqueue == 0 then Suspended else Unblocking))
    case Suspended => Some(s.(main := Testing))
    case Unblocking => Some(s.(main := Calling))
    case Calling =>
      if s.iget < |s.dg| then Some(s.(main := Sending(s.iget, s.dg[s.iget].len, s.dg[s.iget].salen))) else None
    case Sending(slot, len, salen) =>
      if slot < |s.dg| then
        Some(s.(main := Bumping, sent := s.sent + [DG(s.dg[slot].data, len, s.dg[slot].sa, salen)]))
      else None
    case Bumping => Some(s.(main := Wrapping, iget := s.iget + 1))
    case Wrapping => Some(s.(main := Blocking, iget := if s.iget >= QSIZE then 0 else s.iget))
    case Blocking => Some(s.(main := Loading))
    case Loading => Some(s.(main := Storing(s.nqueue)))
    case Storing(v) => Some(s.(main := Testing, nqueue := v - 1))
  }

  /** A step of the handler; `input` is what recvfrom returns, None standing
      for EWOULDBLOCK. */
  function HandlerStep(s: State, input: Option<DG>): Option<State> {
    match s.handler
    case Idle => if SigioBlocked(s.main) then None else Some(s.(handler := Top(0)))
    case Top(nread) =>
      if s.nqueue >= QSIZE then Some(s.(handler := Exited))
      else if s.iput < |s.dg| then
        Some(s.(handler := Receiving(nread), dg := s.dg[s.iput := s.dg[s.iput].(salen := s.clilen)]))
      else None
    case Receiving(nread) => (
      match input
      case None => Some(s.(handler := Leaving(nread)))
      case Some(d) =>
        if s.iput < |s.dg| then
          Some(s.(handler := Top(nread + 1), dg := s.dg[s.iput := d], nqueue := s.nqueue + 1,
                  iput := if s.iput + 1 >= QSIZE then 0 else s.iput + 1, received := s.received + [d]))
        else None)
    case Leaving(nread) =>
      if nread < |s.cntread| then Some(s.(handler := Idle, cntread := s.cntread[nread := s.cntread[nread] + 1]))
      else None
    case Exited => None
  }

  datatype Event = MainMoves | HandlerMoves(input: Option<DG>)

  function Step(s: State, e: Event): Option<State> {
    match e
    case MainMoves => if s.handler.Idle? then MainStep(s) else None
    case HandlerMoves(input) => HandlerStep(s, input)
  }

  /* ---- The invariant ---- */

  /** `iget` has moved and `nqueue` has not yet. */
  predicate Between(m: Main) {
    m.Wrapping? || m.Blocking? || m.Loading? || m.Storing?
  }

  /** How many datagrams `iget` has passed. */
  function Got(s: State): int {
    |s.sent| - if s.main.Bumping? then 1 else 0
  }

  function Slot(j: nat): (slot: nat)
    ensures slot < QSIZE
  {
    j % QSIZE
  }

  ghost predicate QueueInv(s: State) {
    var put, got := |s.received|, Got(s);
    && |s.dg| == QSIZE && 0 <= got <= put
    && s.nqueue == put - got + (if Between(s.main) then 1 else 0) && s.nqueue <= QSIZE
    && s.iput == Slot(put) && s.iget <= QSIZE
    && (if s.main.Wrapping? then s.iget > 0 && (if s.iget == QSIZE then 0 else s.iget) == Slot(got)
        else s.iget == Slot(got))
    && (s.main.Unblocking? || s.main.Calling? || s.main.Sending? || s.main.Bumping? ==> got < put)
    && (s.main.Storing? ==> s.main.v == s.nqueue)
    && (s.handler.Idle? ==> s.nqueue < QSIZE)
    && (s.handler.Receiving? || s.handler.Leaving? ==> s.nqueue < QSIZE)
    && (s.handler.Exited? ==> s.nqueue == QSIZE)
    && (SigioBlocked(s.main) ==> s.handler.Idle?)
  }

  /** The ring holds the datagrams received and not yet passed by `iget`. */
  ghost predicate RingInv(s: State)
    requires QueueInv(s)
  {
    && (forall j :: Got(s) <= j < |s.received| ==> s.dg[Slot(j)] == s.received[j])
    && (s.main.Sending? ==>
          && s.main.slot == Slot(Got(s))
          && s.main.len == s.received[Got(s)].len && s.main.salen == s.received[Got(s)].salen)
    && s.sent <= s.received
  }

  /** The number of datagrams the histogram accounts for. */
  function Weighted(c: seq<nat>): nat {
    if c == [] then 0 else Weighted(c[..|c| - 1]) + (|c| - 1) * c[|c| - 1]
  }

  /** Every datagram is counted once, by the signal that delivered it. */
  ghost predicate HistogramInv(s: State) {
    && |s.cntread| == QSIZE + 1
    && (s.handler.Top? || s.handler.Receiving? || s.handler.Leaving? ==>
          && s.handler.nread <= s.nqueue
          && Weighted(s.cntread) + s.handler.nread == |s.received|
          && (s.handler.Leaving? ==> s.handler.nread < QSIZE))
    && (s.handler.Idle? ==> Weighted(s.cntread) == |s.received|)
  }

  ghost predicate Inv(s: State) {
    QueueInv(s) && RingInv(s) && HistogramInv(s)
  }

  lemma NextSlot(j: nat)
    ensures Slot(j + 1) == if Slot(j) + 1 >= QSIZE then 0 else Slot(j) + 1
  {
  }

  lemma DistinctSlots(j: nat, p: nat)
    requires j < p < j + QSIZE
    ensures Slot(j) != Slot(p)
  {
  }

  lemma MainQueue(s: State)
    requires QueueInv(s) && s.handler.Idle? && MainStep(s).Some?
    ensures QueueInv(MainStep(s).value)
  {
    hide Slot;
    NextSlot(Got(s));
  }

  lemma MainKeeps(s: State)
    requires Inv(s) && s.handler.Idle? && MainStep(s).Some?
    ensures Inv(MainStep(s).value)
  {
    hide Slot, Weighted;
    MainQueue(s);
    MainRing(s);
  }

  lemma MainRing(s: State)
    requires QueueInv(s) && RingInv(s) && s.handler.Idle? && MainStep(s).Some?
    requires QueueInv(MainStep(s).value)
    ensures RingInv(MainStep(s).value)
  {
    hide Slot;
    if s.main.Sending? {
      assert s.dg[s.main.slot] == s.received[Got(s)];
    }
  }

  /** The handler writes only to the slot at `iput`, which is not in use. */
  lemma FreeSlot(s: State, d: DG)
    requires Inv(s) && s.nqueue < QSIZE
    ensures RingInv(s.(dg := s.dg[s.iput := d]))
  {
    hide Weighted;
    forall j | Got(s) <= j < |s.received|
      ensures Slot(j) != s.iput
    {
      DistinctSlots(j, |s.received|);
    }
  }

  lemma {:induction false} WeightedUpdate(c: seq<nat>, k: nat)
    requires k < |c|
    ensures Weighted(c[k := c[k] + 1]) == Weighted(c) + k
  {
    var last := |c| - 1;
    var c' := c[k := c[k] + 1];
    if k < last {
      assert c'[..last] == c[..last][k := c[k] + 1];
      WeightedUpdate(c[..last], k);
    } else {
      assert c'[..last] == c[..last];
      assert last * (c[last] + 1) == last * c[last] + last;
    }
  }

  lemma HandlerReceives(s: State, d: DG)
    requires Inv(s) && s.handler.Receiving?
    ensures HandlerStep(s, Some(d)).Some? && Inv(HandlerStep(s, Some(d)).value)
  {
    hide Weighted, Slot;
    FreeSlot(s, d);
    NextSlot(|s.received|);
    var s' := HandlerStep(s, Some(d)).value;
    assert s'.received[|s.received|] == d;
  }

  lemma HandlerLeaves(s: State)
    requires Inv(s) && s.handler.Leaving? && HandlerStep(s, None).Some?
    ensures Inv(HandlerStep(s, None).value)
  {
    hide Weighted, Slot;
    WeightedUpdate(s.cntread, s.handler.nread);
  }

  lemma HandlerLooks(s: State)
    requires Inv(s) && s.handler.Top? && HandlerStep(s, None).Some?
    ensures Inv(HandlerStep(s, None).value)
  {
    hide Weighted, Slot;
    if s.nqueue < QSIZE {
      FreeSlot(s, s.dg[s.iput].(salen := s.clilen));
    }
  }

  lemma HandlerKeeps(s: State, input: Option<DG>)
    requires Inv(s) && HandlerStep(s, input).Some?
    ensures Inv(HandlerStep(s, input).value)
  {
    hide Weighted, Slot;
    match s.handler
    case Top(nread) => HandlerLooks(s);
    case Receiving(nread) =>
      if input.Some? {
        HandlerReceives(s, input.value);
      }
    case Leaving(nread) => HandlerLeaves(s);
    case _ =>
  }

  lemma {:induction false} NoneCounted(k: nat)
    ensures Weighted(seq(k, _ => 0)) == 0
  {
    var c: seq<nat> := seq(k, _ => 0);
    if k > 0 {
      assert c[..k - 1] == seq(k - 1, _ => 0);
      NoneCounted(k - 1);
    }
  }

  lemma RunInv(dg: seq<DG>, clilen: nat, es: seq<Event>)
    requires |dg| == QSIZE && Run(Step, Init(dg, clilen), es).Some?
    ensures Inv(Run(Step, Init(dg, clilen), es).value)
  {
    forall s, e | Inv(s) && Step(s, e).Some?
      ensures Inv(Step(s, e).value)
    {
      match e
      case MainMoves => MainKeeps(s);
      case HandlerMoves(input) => HandlerKeeps(s, input);
    }
    NoneCounted(QSIZE + 1);
    Invariant(Step, Inv, Init(dg, clilen), es);
  }

  /* ---- What holds whenever signals arrive ---- */

  /** Between `++iget` and `nqueue--` the count is one ahead of the indices, and
      at no other time are they apart; no update of the count is lost; outside
      the handler the count is at most seven, and the process gives up when it
      is eight. */
  lemma IndicesAgree(dg: seq<DG>, clilen: nat, es: seq<Event>)
    requires |dg| == QSIZE && Run(Step, Init(dg, clilen), es).Some?
    ensures var s := Run(Step, Init(dg, clilen), es).value;
            var ahead := if Between(s.main) then 1 else 0;
            && 0 <= s.nqueue - ahead && s.nqueue <= QSIZE && s.iput < QSIZE
            && s.iput == (s.iget + s.nqueue - ahead) % QSIZE
            && s.nqueue - ahead == |s.received| - Got(s)
            && (s.handler.Idle? ==> s.nqueue < QSIZE)
            && (s.handler.Exited? ==> s.nqueue == QSIZE)
  {
    RunInv(dg, clilen, es);
    var s := Run(Step, Init(dg, clilen), es).value;
    AddSlots(Got(s), |s.received|, s.iget);
  }

  lemma AddSlots(got: nat, put: nat, iget: nat)
    requires got <= put && iget <= QSIZE && (if iget == QSIZE then 0 else iget) == Slot(got)
    ensures Slot(put) == (iget + (put - got)) % QSIZE
  {
  }

  /** The process gives up with all eight slots in use unless main is between
      `++iget` and `nqueue--`: then it does so with seven, and a slot is free. */
  lemma GivesUpFullUnlessBetween(dg: seq<DG>, clilen: nat, es: seq<Event>)
    requires |dg| == QSIZE && Run(Step, Init(dg, clilen), es).Some?
    ensures var s := Run(Step, Init(dg, clilen), es).value;
            s.handler.Exited? ==>
              && |s.received| - Got(s) == (if Between(s.main) then QSIZE - 1 else QSIZE)
              && (|s.received| - Got(s) == QSIZE <==> !Between(s.main))
  {
    RunInv(dg, clilen, es);
  }

  /** The handler takes `k` datagrams in a row. */
  function Burst(d: DG, k: nat): seq<Event> {
    if k == 0 then [] else Burst(d, k - 1) + [HandlerMoves(None)] + [HandlerMoves(Some(d))]
  }

  lemma {:induction false} BurstRuns(dg: seq<DG>, clilen: nat, es: seq<Event>, s: State, d: DG, k: nat) returns (t: State)
    requires |dg| == QSIZE && Run(Step, Init(dg, clilen), es) == Some(s)
    requires s.handler == Top(0) && s.nqueue + k <= QSIZE
    ensures Run(Step, Init(dg, clilen), es + Burst(d, k)) == Some(t)
    ensures t.handler == Top(k) && t.nqueue == s.nqueue + k && |t.received| == |s.received| + k
    ensures t.main == s.main && t.sent == s.sent
  {
    hide Run;
    var init := Init(dg, clilen);
    if k == 0 {
      t := s;
      assert es + Burst(d, 0) == es;
    } else {
      var u := BurstRuns(dg, clilen, es, s, d, k - 1);
      var fs := es + Burst(d, k - 1);
      RunInv(dg, clilen, fs);
      RunExtend(Step, init, fs, u, HandlerMoves(None));
      var v := Step(u, HandlerMoves(None)).value;
      RunExtend(Step, init, fs + [HandlerMoves(None)], v, HandlerMoves(Some(d)));
      t := Step(v, HandlerMoves(Some(d))).value;
      assert es + Burst(d, k) == fs + [HandlerMoves(None)] + [HandlerMoves(Some(d))];
    }
  }

  /** Main's steps from the start of a turn with a datagram queued until `++iget` is done. */
  lemma {:induction false} MainRuns(dg: seq<DG>, clilen: nat, es: seq<Event>, s: State, k: nat) returns (fs: seq<Event>, t: State)
    requires |dg| == QSIZE && Run(Step, Init(dg, clilen), es) == Some(s)
    requires s.handler.Idle? && s.main.Testing? && s.nqueue > 0 && k <= 5
    ensures Run(Step, Init(dg, clilen), fs) == Some(t)
    ensures t.handler.Idle? && t.nqueue == s.nqueue && t.received == s.received
    ensures t.main.Testing? <==> k == 0
    ensures t.main.Unblocking? <==> k == 1
    ensures t.main.Calling? <==> k == 2
    ensures t.main.Sending? <==> k == 3
    ensures t.main.Bumping? <==> k == 4
    ensures t.main.Wrapping? <==> k == 5
    ensures |t.sent| == |s.sent| + if k >= 4 then 1 else 0
    decreases k
  {
    hide Run;
    if k == 0 {
      fs, t := es, s;
    } else {
      var gs, u := MainRuns(dg, clilen, es, s, k - 1);
      RunInv(dg, clilen, gs);
      RunExtend(Step, Init(dg, clilen), gs, u, MainMoves);
      fs, t := gs + [MainMoves], Step(u, MainMoves).value;
    }
  }

  /** One datagram comes while main waits, and the handler returns. */
  lemma FirstDatagram(dg: seq<DG>, clilen: nat, d: DG) returns (es: seq<Event>, s: State)
    requires |dg| == QSIZE
    ensures Run(Step, Init(dg, clilen), es) == Some(s)
    ensures s.handler.Idle? && s.main.Testing? && s.nqueue == 1 && |s.received| == 1 && s.sent == []
  {
    hide Run;
    var init := Init(dg, clilen);
    RunNone(Step, init);
    RunExtend(Step, init, [], init, MainMoves);
    var s1 := init.(main := Testing);
    RunExtend(Step, init, [] + [MainMoves], s1, MainMoves);
    var s2 := init.(main := Suspended);
    es := [] + [MainMoves] + [MainMoves];
    RunExtend(Step, init, es, s2, HandlerMoves(None));
    es := es + [HandlerMoves(None)];
    s := BurstRuns(dg, clilen, es, s2.(handler := Top(0)), d, 1);
    es := es + Burst(d, 1);
    RunInv(dg, clilen, es);
    es, s := LeaveHandler(dg, clilen, es, s);
    RunExtend(Step, init, es, s, MainMoves);
    es, s := es + [MainMoves], Step(s, MainMoves).value;
  }

  lemma LeaveHandler(dg: seq<DG>, clilen: nat, es: seq<Event>, s: State) returns (fs: seq<Event>, t: State)
    requires |dg| == QSIZE && Run(Step, Init(dg, clilen), es) == Some(s)
    requires s.handler.Top? && s.nqueue < QSIZE
    ensures Run(Step, Init(dg, clilen), fs) == Some(t)
    ensures t.handler.Idle? && t.main == s.main && t.nqueue == s.nqueue && t.received == s.received && t.sent == s.sent
  {
    hide Run;
    var init := Init(dg, clilen);
    fs, t := es, s;
    var k := 0;
    while k < 3
      invariant 0 <= k <= 3 && Run(Step, init, fs) == Some(t)
      invariant t.main == s.main && t.nqueue == s.nqueue && t.received == s.received && t.sent == s.sent
      invariant k == 0 ==> t.handler.Top?
      invariant k == 1 ==> t.handler.Receiving?
      invariant k == 2 ==> t.handler.Leaving?
      invariant k == 3 ==> t.handler.Idle?
    {
      RunInv(dg, clilen, fs);
      RunExtend(Step, init, fs, t, HandlerMoves(None));
      fs, t := fs + [HandlerMoves(None)], Step(t, HandlerMoves(None)).value;
      k := k + 1;
    }
  }

  /** A run that ends that way: eight datagrams received, the first one sent. */
  lemma GivesUpWithSeven(dg: seq<DG>, clilen: nat, d: DG) returns (es: seq<Event>, s: State)
    requires |dg| == QSIZE
    ensures Run(Step, Init(dg, clilen), es) == Some(s)
    ensures s.handler.Exited? && |s.received| == QSIZE && |s.sent| == 1 && |s.received| - Got(s) == QSIZE - 1
  {
    hide Run;
    var init := Init(dg, clilen);
    es, s := FirstDatagram(dg, clilen, d);
    es, s := MainRuns(dg, clilen, es, s, 5);
    RunExtend(Step, init, es, s, HandlerMoves(None));
    es, s := es + [HandlerMoves(None)], Step(s, HandlerMoves(None)).value;
    var t := BurstRuns(dg, clilen, es, s, d, 7);
    es, s := es + Burst(d, 7), t;
    RunExtend(Step, init, es, s, HandlerMoves(None));
    es, s := es + [HandlerMoves(None)], Step(s, HandlerMoves(None)).value;
  }

  /** While a datagram is being sent the handler does not touch its slot, and
      what is echoed is, in order, an initial part of what was received: same
      data, same length, back to the same sender. */
  lemma EchoedInOrder(dg: seq<DG>, clilen: nat, es: seq<Event>)
    requires |dg| == QSIZE && Run(Step, Init(dg, clilen), es).Some?
    ensures var s := Run(Step, Init(dg, clilen), es).value;
            && s.sent <= s.received
            && (s.main.Sending? ==>
                  && s.main.slot < |s.dg| && |s.sent| < |s.received|
                  && s.dg[s.main.slot] == s.received[|s.sent|]
                  && (s.handler.Receiving? ==> s.iput != s.main.slot))
  {
    hide Slot;
    RunInv(dg, clilen, es);
    var s := Run(Step, Init(dg, clilen), es).value;
    if s.main.Sending? && s.handler.Receiving? {
      DistinctSlots(Got(s), |s.received|);
    }
  }

  /** The histogram indexed by datagrams per signal accounts for every datagram
      received, and its index never leaves the array. */
  lemma HistogramComplete(dg: seq<DG>, clilen: nat, es: seq<Event>)
    requires |dg| == QSIZE && Run(Step, Init(dg, clilen), es).Some?
    ensures var s := Run(Step, Init(dg, clilen), es).value;
            && (s.handler.Idle? ==> Weighted(s.cntread) == |s.received|)
            && (s.handler.Leaving? ==> s.handler.nread < |s.cntread|)
  {
    RunInv(dg, clilen, es);
  }

  /* ---- What the events say, and who can move ---- */

  /** recvfrom returns a datagram when the handler moves from there. */
  function ReceiveNote(s: State, e: Event): seq<DG> {
    if s.handler.Receiving? && e.HandlerMoves? && e.input.Some? then [e.input.value] else []
  }

  /** The datagrams received are those recvfrom returned. */
  lemma ReceivedAsTold(dg: seq<DG>, clilen: nat, es: seq<Event>)
    requires Run(Step, Init(dg, clilen), es).Some?
    ensures Run(Step, Init(dg, clilen), es).value.received == Trace(Step, ReceiveNote, Init(dg, clilen), es)
  {
    var log := (s: State) => s.received;
    forall s, e | Step(s, e).Some?
      ensures log(Step(s, e).value) == log(s) + ReceiveNote(s, e)
    {
      assert s.received + [] == s.received;
    }
    LogIsTrace(Step, ReceiveNote, log, Init(dg, clilen), es);
    assert [] + Trace(Step, ReceiveNote, Init(dg, clilen), es) == Trace(Step, ReceiveNote, Init(dg, clilen), es);
  }

  /** Until the process gives up, the handler can move while it runs, and main while
      it does not. */
  lemma SomeoneMoves(dg: seq<DG>, clilen: nat, es: seq<Event>, input: Option<DG>)
    requires |dg| == QSIZE && Run(Step, Init(dg, clilen), es).Some?
    ensures var s := Run(Step, Init(dg, clilen), es).value;
            && (Step(s, MainMoves).Some? <==> s.handler.Idle?)
            && (Step(s, HandlerMoves(input)).Some?
                <==> !s.handler.Exited? && (s.handler.Idle? ==> !SigioBlocked(s.main)))
  {
    hide Weighted, Slot;
    RunInv(dg, clilen, es);
  }

  lemma TurnStart(s: State)
    requires Inv(s) && s.main.Testing?
    ensures s.iget < |s.dg|
  {
    hide Weighted;
  }

  lemma TurnSends(s: State, k: nat)
    requires s.handler.Idle? && s.main.Testing? && s.nqueue > 0 && s.iget < |s.dg|
    ensures Run(Step, s, Repeat(MainMoves, k + 4))
         == Run(Step, s.(main := Sending(s.iget, s.dg[s.iget].len, s.dg[s.iget].salen)), Repeat(MainMoves, k + 1))
  {
    hide Run, Repeat;
    RunRepeat(Step, s, MainMoves, k + 3);
    RunRepeat(Step, s.(main := Unblocking), MainMoves, k + 2);
    RunRepeat(Step, s.(main := Calling), MainMoves, k + 1);
  }

  lemma TurnAdvances(s: State, k: nat)
    requires s.handler.Idle? && s.main.Sending? && s.main.slot < |s.dg|
    ensures var d := DG(s.dg[s.main.slot].data, s.main.len, s.dg[s.main.slot].sa, s.main.salen);
            Run(Step, s, Repeat(MainMoves, k + 3))
            == Run(Step, s.(main := Blocking, sent := s.sent + [d], iget := if s.iget + 1 >= QSIZE then 0 else s.iget + 1),
                   Repeat(MainMoves, k))
  {
    hide Run, Repeat;
    var t := Step(s, MainMoves).value;
    RunRepeat(Step, s, MainMoves, k + 2);
    RunRepeat(Step, t, MainMoves, k + 1);
    RunRepeat(Step, t.(main := Wrapping, iget := s.iget + 1), MainMoves, k);
  }

  lemma TurnEnds(s: State)
    requires s.handler.Idle? && s.main.Blocking?
    ensures Run(Step, s, Repeat(MainMoves, 3)) == Some(s.(main := Testing, nqueue := s.nqueue - 1))
  {
    hide Run, Repeat;
    RunRepeat(Step, s, MainMoves, 2);
    RunRepeat(Step, s.(main := Loading), MainMoves, 1);
    RunRepeat(Step, s.(main := Storing(s.nqueue)), MainMoves, 0);
    RunRepeat(Step, s.(main := Testing, nqueue := s.nqueue - 1), MainMoves, 0);
  }

  /** A turn of the main loop, undisturbed: the datagram at `iget` is echoed to its
      sender and leaves the queue. */
  lemma MainTurn(s: State)
    requires Inv(s) && s.handler.Idle? && s.main.Testing? && s.nqueue > 0
    ensures s.iget < |s.dg|
    ensures Run(Step, s, Repeat(MainMoves, 9))
         == Some(s.(sent := s.sent + [s.dg[s.iget]], iget := if s.iget + 1 >= QSIZE then 0 else s.iget + 1,
                    nqueue := s.nqueue - 1))
  {
    hide Run, Repeat, Inv, Step;
    TurnStart(s);
    var d, next := s.dg[s.iget], if s.iget + 1 >= QSIZE then 0 else s.iget + 1;
    TurnSends(s, 5);
    TurnAdvances(s.(main := Sending(s.iget, d.len, d.salen)), 3);
    TurnEnds(s.(main := Blocking, sent := s.sent + [d], iget := next));
  }

  /* ---- The program ---- */

  class Server {
    var dg: array<DG>
    var iget: nat
    var iput: nat
    var nqueue: int
    const clilen: nat
    var cntread: array<nat>
    var main: Main
    var handler: Handler
    ghost var received: seq<DG>
    ghost var sent: seq<DG>

    ghost function View(): State
      reads this, dg, cntread
    {
      State(dg[..], iget, iput, nqueue, clilen, cntread[..], main, handler, received, sent)
    }

    constructor (clilen: nat)
      ensures fresh(dg) && dg.Length == QSIZE && fresh(cntread) && cntread.Length == QSIZE + 1
      ensures View() == Init(dg[..], clilen)
    {
      this.clilen := clilen;
      dg := new DG[QSIZE](_ => DG("", 0, 0, clilen));
      iget, iput, nqueue := 0, 0, 0;
      cntread := new nat[QSIZE + 1](_ => 0);
      main, handler := Starting, Idle;
      received, sent := [], [];
    }

    /** main runs the statement at which it stands. */
    method MainMove()
      requires Step(View(), MainMoves).Some?
      modifies this
      ensures dg == old(dg) && cntread == old(cntread)
      ensures View() == Step(old(View()), MainMoves).value
    {
      match main
      case Starting =>
        main := Testing;
      case Testing =>
        main := if nqueue == 0 then Suspended else Unblocking;
      case Suspended =>
        main := Testing;
      case Unblocking =>
        main := Calling;
      case Calling =>
        main := Sending(iget, dg[iget].len, dg[iget].salen);
      case Sending(slot, len, salen) =>
        sent := sent + [DG(dg[slot].data, len, dg[slot].sa, salen)];
        main := Bumping;
      case Bumping =>
        iget := iget + 1;
        main := Wrapping;
      case Wrapping =>
        if iget >= QSIZE {
          iget := 0;
        }
        main := Blocking;
      case Blocking =>
        main := Loading;
      case Loading =>
        main := Storing(nqueue);
      case Storing(v) =>
        nqueue := v - 1;
        main := Testing;
    }

    /** sig_io runs the statement at which it stands. */
    method HandlerMove(input: Option<DG>)
      requires Step(View(), HandlerMoves(input)).Some?
      modifies this, dg, cntread
      ensures dg == old(dg) && cntread == old(cntread)
      ensures View() == Step(old(View()), HandlerMoves(input)).value
    {
      match handler
      case Idle =>
        handler := Top(0);
      case Top(nread) =>
        if nqueue >= QSIZE {
          handler := Exited;
        } else {
          dg[iput] := dg[iput].(salen := clilen);
          handler := Receiving(nread);
        }
      case Receiving(nread) =>
        if input.None? {
          handler := Leaving(nread);
        } else {
          dg[iput] := input.value;
          received := received + [input.value];
          nqueue := nqueue + 1;
          iput := iput + 1;
          if iput >= QSIZE {
            iput := 0;
          }
          handler := Top(nread + 1);
        }
      case Leaving(nread) =>
        cntread[nread] := cntread[nread] + 1;
        handler := Idle;
    }
  }

}
