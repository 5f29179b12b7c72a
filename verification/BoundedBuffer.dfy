/**
 Producer and consumer around a bounded buffer with one mutex and two condition
 variables (Mesa semantics, spurious wakeups allowed).  Each thread makes
 `n` turns; the producer stores 0, 1, 2, ...
 */
module BoundedBuffer {
  import opened Common
  import opened Runs

  const BUFFSIZE := 10

  datatype Producer =
    | PLocking | PTesting | PAsleep | PWoken
    | PStoring              // at b_buf[b_nextput] = val
    | PAdvancing            // at ++b_nextput
    | PCounting             // at b_nitems++
    | PSignalling | PUnlocking | PDone

  datatype Consumer =
    | CLocking | CTesting | CAsleep | CWoken
    | CFetching             // at val = b_buf[b_nextget]
    | CAdvancing | CCounting | CSignalling | CUnlocking | CDone

  datatype Owner = Free | ByProducer | ByConsumer

  /** `i` and `k` are the loop variables of the two threads; `produced` and
      `consumed` record what was stored and fetched. */
  datatype State = State(
    buf: seq<int>, nitems: int, nextget: nat, nextput: nat, owner: Owner,
    producer: Producer, consumer: Consumer, i: nat, k: nat,
    produced: seq<int>, consumed: seq<int>)

  function Init(n: nat, buf: seq<int>): State {
    State(buf, 0, 0, 0, Free, if n == 0 then PDone else PLocking, if n == 0 then CDone else CLocking, 0, 0, [], [])
  }

  /* ---- One atomic step ---- */

  function Next(i: nat): nat {
    if i + 1 >= BUFFSIZE then 0 else i + 1
  }

  function ProducerStep(n: nat, s: State): Option<State> {
    match s.producer
    case PLocking => if s.owner.Free? then Some(s.(owner := ByProducer, producer := PTesting)) else None
    case PTesting =>
      if s.nitems >= BUFFSIZE then Some(s.(owner := Free, producer := PAsleep))
      else Some(s.(producer := PStoring))
    case PAsleep => None
    case PWoken => if s.owner.Free? then Some(s.(owner := ByProducer, producer := PTesting)) else None
    case PStoring =>
      if s.nextput < |s.buf| then
        Some(s.(buf := s.buf[s.nextput := s.i], producer := PAdvancing, produced := s.produced + [s.i]))
      else None
    case PAdvancing => Some(s.(nextput := Next(s.nextput), producer := PCounting))
    case PCounting => Some(s.(nitems := s.nitems + 1, producer := PSignalling))
    case PSignalling =>
      Some(s.(consumer := if s.consumer.CAsleep? then CWoken else s.consumer, producer := PUnlocking))
    case PUnlocking =>
      Some(s.(owner := Free, i := s.i + 1, producer := if s.i + 1 < n then PLocking else PDone))
    case PDone => None
  }

  function ConsumerStep(n: nat, s: State): Option<State> {
    match s.consumer
    case CLocking => if s.owner.Free? then Some(s.(owner := ByConsumer, consumer := CTesting)) else None
    case CTesting =>
      if s.nitems <= 0 then Some(s.(owner := Free, consumer := CAsleep))
      else Some(s.(consumer := CFetching))
    case CAsleep => None
    case CWoken => if s.owner.Free? then Some(s.(owner := ByConsumer, consumer := CTesting)) else None
    case CFetching =>
      if s.nextget < |s.buf| then
        Some(s.(consumer := CAdvancing, consumed := s.consumed + [s.buf[s.nextget]]))
      else None
    case CAdvancing => Some(s.(nextget := Next(s.nextget), consumer := CCounting))
    case CCounting => Some(s.(nitems := s.nitems - 1, consumer := CSignalling))
    case CSignalling =>
      Some(s.(producer := if s.producer.PAsleep? then PWoken else s.producer, consumer := CUnlocking))
    case CUnlocking =>
      Some(s.(owner := Free, k := s.k + 1, consumer := if s.k + 1 < n then CLocking else CDone))
    case CDone => None
  }

  datatype Event = ProducerMoves | ConsumerMoves | ProducerWakes | ConsumerWakes

  function Step(n: nat, s: State, e: Event): Option<State> {
    match e
    case ProducerMoves => ProducerStep(n, s)
    case ConsumerMoves => ConsumerStep(n, s)
    case ProducerWakes => if s.producer.PAsleep? then Some(s.(producer := PWoken)) else None
    case ConsumerWakes => if s.consumer.CAsleep? then Some(s.(consumer := CWoken)) else None
  }

  function Steps(n: nat): (State, Event) -> Option<State> {
    (s, e) => Step(n, s, e)
  }

  /** The state after the events `es` of a run of `n` turns a thread. */
  function After(n: nat, buf: seq<int>, es: seq<Event>): Option<State> {
    Run(Steps(n), Init(n, buf), es)
  }

  /* ---- The invariant ---- */

  predicate ProducerHolds(p: Producer) {
    p.PTesting? || p.PStoring? || p.PAdvancing? || p.PCounting? || p.PSignalling? || p.PUnlocking?
  }

  predicate ConsumerHolds(c: Consumer) {
    c.CTesting? || c.CFetching? || c.CAdvancing? || c.CCounting? || c.CSignalling? || c.CUnlocking?
  }

  predicate ProducerStored(p: Producer) {
    p.PAdvancing? || p.PCounting? || p.PSignalling? || p.PUnlocking?
  }

  predicate ConsumerFetched(c: Consumer) {
    c.CAdvancing? || c.CCounting? || c.CSignalling? || c.CUnlocking?
  }

  ghost predicate ControlInv(n: nat, s: State) {
    && (s.owner.ByProducer? <==> ProducerHolds(s.producer))
    && (s.owner.ByConsumer? <==> ConsumerHolds(s.consumer))
    && s.i == |s.produced| - (if ProducerStored(s.producer) then 1 else 0)
    && s.k == |s.consumed| - (if ConsumerFetched(s.consumer) then 1 else 0)
    && (if s.producer.PDone? then s.i == n else s.i < n)
    && (if s.consumer.CDone? then s.k == n else s.k < n)
  }

  function Slot(j: nat): (slot: nat)
    ensures slot < BUFFSIZE
  {
    j % BUFFSIZE
  }

  /** How many values `b_nextput` and `b_nextget` have passed. */
  function PutIndex(s: State): int {
    if s.producer.PAdvancing? then |s.produced| - 1 else |s.produced|
  }

  function GetIndex(s: State): int {
    if s.consumer.CAdvancing? then |s.consumed| - 1 else |s.consumed|
  }

  lemma NextSlot(j: nat)
    ensures Next(Slot(j)) == Slot(j + 1)
  {
  }

  /** The ring holds the produced values not yet consumed. */
  ghost predicate RingInv(s: State) {
    var put, got := |s.produced|, |s.consumed|;
    && |s.buf| == BUFFSIZE && got <= put <= got + BUFFSIZE
    && s.nitems == put - got - (if s.producer.PAdvancing? || s.producer.PCounting? then 1 else 0)
                             + (if s.consumer.CAdvancing? || s.consumer.CCounting? then 1 else 0)
    && 0 <= s.nitems <= BUFFSIZE
    && PutIndex(s) >= 0 && s.nextput == Slot(PutIndex(s))
    && GetIndex(s) >= 0 && s.nextget == Slot(GetIndex(s))
    && (s.producer.PStoring? || s.producer.PAdvancing? || s.producer.PCounting? ==> s.nitems < BUFFSIZE)
    && (s.consumer.CFetching? || s.consumer.CAdvancing? || s.consumer.CCounting? ==> s.nitems > 0)
    && (s.producer.PSignalling? ==> s.nitems > 0)
    && (s.consumer.CSignalling? ==> s.nitems < BUFFSIZE)
    && (forall j :: got <= j < put ==> s.buf[Slot(j)] == s.produced[j])
  }

  ghost predicate HistoryInv(s: State) {
    && (forall j :: 0 <= j < |s.produced| ==> s.produced[j] == j)
    && s.consumed <= s.produced
  }

  /** A sleeper has a reason, or is about to be signalled. */
  ghost predicate WakeupInv(s: State) {
    && (s.producer.PAsleep? ==> s.nitems == BUFFSIZE || s.consumer.CSignalling?)
    && (s.consumer.CAsleep? ==> s.nitems == 0 || s.producer.PSignalling?)
  }

  ghost predicate Inv(n: nat, s: State) {
    ControlInv(n, s) && RingInv(s) && HistoryInv(s) && WakeupInv(s)
  }

  lemma StoreStep(n: nat, s: State)
    requires Inv(n, s) && s.producer.PStoring?
    ensures ProducerStep(n, s).Some? && Inv(n, ProducerStep(n, s).value)
  {
    var s' := ProducerStep(n, s).value;
    var put, got := |s.produced|, |s.consumed|;
    assert s'.produced[put] == put;
    forall j | got <= j < put + 1
      ensures s'.buf[Slot(j)] == s'.produced[j]
    {
      if j < put {
        DistinctSlots(j, put);
      }
    }
  }

  lemma DistinctSlots(j: nat, p: nat)
    requires j < p < j + BUFFSIZE
    ensures Slot(j) != Slot(p)
  {
  }

  lemma ProducerRing(n: nat, s: State)
    requires ControlInv(n, s) && RingInv(s) && !s.producer.PStoring? && ProducerStep(n, s).Some?
    ensures RingInv(ProducerStep(n, s).value)
  {
    hide Next, Slot;
    NextSlot(PutIndex(s));
  }

  lemma ProducerOther(n: nat, s: State)
    requires ControlInv(n, s) && RingInv(s) && HistoryInv(s) && WakeupInv(s)
    requires !s.producer.PStoring? && ProducerStep(n, s).Some?
    ensures var s' := ProducerStep(n, s).value;
            ControlInv(n, s') && HistoryInv(s') && WakeupInv(s')
  {
    hide Next, Slot;
  }

  lemma FetchStep(n: nat, s: State)
    requires Inv(n, s) && s.consumer.CFetching?
    ensures ConsumerStep(n, s).Some? && Inv(n, ConsumerStep(n, s).value)
  {
    assert s.buf[s.nextget] == s.produced[|s.consumed|];
  }

  lemma ConsumerRing(n: nat, s: State)
    requires ControlInv(n, s) && RingInv(s) && !s.consumer.CFetching? && ConsumerStep(n, s).Some?
    ensures RingInv(ConsumerStep(n, s).value)
  {
    hide Next, Slot;
    NextSlot(GetIndex(s));
  }

  lemma ConsumerOther(n: nat, s: State)
    requires ControlInv(n, s) && RingInv(s) && HistoryInv(s) && WakeupInv(s)
    requires !s.consumer.CFetching? && ConsumerStep(n, s).Some?
    ensures var s' := ConsumerStep(n, s).value;
            ControlInv(n, s') && HistoryInv(s') && WakeupInv(s')
  {
    hide Next, Slot;
  }

  lemma InvStep(n: nat, s: State, e: Event)
    requires Inv(n, s) && Step(n, s, e).Some?
    ensures Inv(n, Step(n, s, e).value)
  {
    hide Next;
    match e
    case ProducerMoves =>
      if s.producer.PStoring? {
        StoreStep(n, s);
      } else {
        ProducerRing(n, s);
        ProducerOther(n, s);
      }
    case ConsumerMoves =>
      if s.consumer.CFetching? {
        FetchStep(n, s);
      } else {
        ConsumerRing(n, s);
        ConsumerOther(n, s);
      }
    case _ =>
  }

  lemma RunInv(n: nat, buf: seq<int>, es: seq<Event>)
    requires |buf| == BUFFSIZE && After(n, buf, es).Some?
    ensures Inv(n, After(n, buf, es).value)
  {
    var step := Steps(n);
    forall s, e | Inv(n, s) && step(s, e).Some?
      ensures Inv(n, step(s, e).value)
    {
      InvStep(n, s, e);
    }
    Invariant(step, s => Inv(n, s), Init(n, buf), es);
  }

  /* ---- What holds in every run ---- */

  /** The values consumed are the first ones produced, 0, 1, 2, ...; the count
      stays within the buffer; the two threads are never both asleep. */
  lemma ConsumedInOrder(n: nat, buf: seq<int>, es: seq<Event>)
    requires |buf| == BUFFSIZE && After(n, buf, es).Some?
    ensures var s := After(n, buf, es).value;
            && s.consumed <= s.produced && (forall j :: 0 <= j < |s.produced| ==> s.produced[j] == j)
            && 0 <= s.nitems <= BUFFSIZE
            && (s.owner.Free? ==> s.nitems == |s.produced| - |s.consumed|)
            && !(s.producer.PAsleep? && s.consumer.CAsleep?)
  {
    RunInv(n, buf, es);
  }

  /** No deadlock: until both threads are done, one of them can move without a
      spurious wakeup. */
  lemma SomeoneMoves(n: nat, buf: seq<int>, es: seq<Event>)
    requires |buf| == BUFFSIZE && After(n, buf, es).Some?
    ensures var s := After(n, buf, es).value;
            (s.producer.PDone? && s.consumer.CDone?) || ProducerStep(n, s).Some? || ConsumerStep(n, s).Some?
  {
    RunInv(n, buf, es);
  }

  /* ---- Every run is short ---- */

  /** Steps the producer has left in its turn, when nobody wakes it in vain. */
  function ProducerRank(p: Producer, full: bool): nat {
    match p
    case PLocking => 10
    case PTesting => if full then 9 else 6
    case PAsleep => 8
    case PWoken => if full then 10 else 7
    case PStoring => 5
    case PAdvancing => 4
    case PCounting => 3
    case PSignalling => 2
    case PUnlocking => 1
    case PDone => 0
  }

  function ConsumerRank(c: Consumer, empty: bool): nat {
    match c
    case CLocking => 10
    case CTesting => if empty then 9 else 6
    case CAsleep => 8
    case CWoken => if empty then 10 else 7
    case CFetching => 5
    case CAdvancing => 4
    case CCounting => 3
    case CSignalling => 2
    case CUnlocking => 1
    case CDone => 0
  }

  function Measure(n: nat, s: State): int {
    10 * (n - s.i) + ProducerRank(s.producer, s.nitems >= BUFFSIZE)
    + 10 * (n - s.k) + ConsumerRank(s.consumer, s.nitems <= 0)
  }

  lemma MeasureProducer(n: nat, s: State)
    requires ControlInv(n, s) && RingInv(s) && ProducerStep(n, s).Some?
    ensures Measure(n, ProducerStep(n, s).value) < Measure(n, s)
  {
    hide Next, Slot;
  }

  lemma MeasureConsumer(n: nat, s: State)
    requires ControlInv(n, s) && RingInv(s) && ConsumerStep(n, s).Some?
    ensures Measure(n, ConsumerStep(n, s).value) < Measure(n, s)
  {
    hide Next, Slot;
  }

  lemma MeasureStep(n: nat, s: State, e: Event)
    requires Inv(n, s) && Step(n, s, e).Some?
    ensures Measure(n, Step(n, s, e).value) <= Measure(n, s) + if e.ProducerWakes? || e.ConsumerWakes? then 2 else -1
  {
    match e
    case ProducerMoves => MeasureProducer(n, s);
    case ConsumerMoves => MeasureConsumer(n, s);
    case _ =>
  }

  function SpuriousCount(es: seq<Event>): nat {
    if es == [] then 0
    else SpuriousCount(es[1..]) + if es[0].ProducerWakes? || es[0].ConsumerWakes? then 1 else 0
  }

  lemma {:induction false} RunLength(n: nat, s: State, es: seq<Event>)
    requires Inv(n, s) && Run(Steps(n), s, es).Some?
    ensures |es| <= Measure(n, s) + 3 * SpuriousCount(es)
    decreases |es|
  {
    if es != [] {
      var s' := Step(n, s, es[0]).value;
      InvStep(n, s, es[0]);
      MeasureStep(n, s, es[0]);
      RunLength(n, s', es[1..]);
    } else {
      assert s.i <= n && s.k <= n;
    }
  }

  /** However the threads are scheduled, a run has at most 20n + 20 steps, and
      three more for each spurious wakeup; so, since somebody can always move,
      both threads finish. */
  lemma RunsAreShort(n: nat, buf: seq<int>, es: seq<Event>)
    requires |buf| == BUFFSIZE && After(n, buf, es).Some?
    ensures |es| <= 20 * n + 20 + 3 * SpuriousCount(es)
  {
    RunLength(n, Init(n, buf), es);
  }

  /** When both are done, everything produced was consumed: 0 up to n - 1. */
  lemma CompleteWhenDone(n: nat, buf: seq<int>, es: seq<Event>)
    requires |buf| == BUFFSIZE && After(n, buf, es).Some?
    requires After(n, buf, es).value.producer.PDone? && After(n, buf, es).value.consumer.CDone?
    ensures var s := After(n, buf, es).value;
            s.consumed == s.produced == seq(n, j => j) && s.nitems == 0
  {
    RunInv(n, buf, es);
  }

  /* ---- The program ---- */

  /** `buf_t` and the two threads; each method runs the statement at which its
      thread stands as one atomic step. */
  class Buffer {
    const n: nat
    var buf: array<int>
    var nitems: int
    var nextget: nat
    var nextput: nat
    var owner: Owner
    var producer: Producer
    var consumer: Consumer
    var i: nat
    var k: nat
    ghost var produced: seq<int>
    ghost var consumed: seq<int>

    ghost function View(): State
      reads this, buf
    {
      State(buf[..], nitems, nextget, nextput, owner, producer, consumer, i, k, produced, consumed)
    }

    constructor (n: nat)
      ensures this.n == n && fresh(buf) && buf.Length == BUFFSIZE && View() == Init(n, buf[..])
    {
      this.n := n;
      buf := new int[BUFFSIZE];
      nitems, nextget, nextput, owner := 0, 0, 0, Free;
      producer := if n == 0 then PDone else PLocking;
      consumer := if n == 0 then CDone else CLocking;
      i, k, produced, consumed := 0, 0, [], [];
    }

    method ProducerMove()
      requires ProducerStep(n, View()).Some?
      modifies this, buf
      ensures buf == old(buf) && View() == ProducerStep(n, old(View())).value
    {
      match producer
      case PLocking =>
        owner := ByProducer;
        producer := PTesting;
      case PTesting =>
        if nitems >= BUFFSIZE {
          owner := Free;
          producer := PAsleep;
        } else {
          producer := PStoring;
        }
      case PWoken =>
        owner := ByProducer;
        producer := PTesting;
      case PStoring =>
        buf[nextput] := i;
        produced := produced + [i];
        producer := PAdvancing;
      case PAdvancing =>
        nextput := nextput + 1;
        if nextput >= BUFFSIZE {
          nextput := 0;
        }
        producer := PCounting;
      case PCounting =>
        nitems := nitems + 1;
        producer := PSignalling;
      case PSignalling =>
        if consumer.CAsleep? {
          consumer := CWoken;
        }
        producer := PUnlocking;
      case PUnlocking =>
        owner := Free;
        i := i + 1;
        producer := if i < n then PLocking else PDone;
    }

    method ConsumerMove()
      requires ConsumerStep(n, View()).Some?
      modifies this
      ensures buf == old(buf) && View() == ConsumerStep(n, old(View())).value
    {
      match consumer
      case CLocking =>
        owner := ByConsumer;
        consumer := CTesting;
      case CTesting =>
        if nitems <= 0 {
          owner := Free;
          consumer := CAsleep;
        } else {
          consumer := CFetching;
        }
      case CWoken =>
        owner := ByConsumer;
        consumer := CTesting;
      case CFetching =>
        consumed := consumed + [buf[nextget]];
        consumer := CAdvancing;
      case CAdvancing =>
        nextget := nextget + 1;
        if nextget >= BUFFSIZE {
          nextget := 0;
        }
        consumer := CCounting;
      case CCounting =>
        nitems := nitems - 1;
        consumer := CSignalling;
      case CSignalling =>
        if producer.PAsleep? {
          producer := PWoken;
        }
        consumer := CUnlocking;
      case CUnlocking =>
        owner := Free;
        k := k + 1;
        consumer := if k < n then CLocking else CDone;
    }
  }

}
