/**
 The preforked server whose parent passes descriptors to its children.  The
 parent keeps a status and a counter for each child and a count of the idle
 ones; a stream pipe to each child carries descriptors one way and single
 "ready" bytes the other way.
 */
module Dispatcher {
  import opened Common
  import opened Runs

  datatype Parent =
    | Selecting               // at Select
    | TestingListen           // at if (FD_ISSET(listenfd, &rset))
    | Finding(fd: int, i: nat)  // in the search for a child with status 0
    | Writing(fd: int, i: nat)  // at Write_fd
    | Closing                 // at Close(connfd) and --nsel
    | Scanning(i: nat)        // in the loop over the children
    | Freeing(i: nat)         // the ready byte of child i has been read
    | NoneAvailable           // err_quit("no available children")
    | ChildGone               // err_quit: a child terminated

  datatype Child =
    | Receiving               // in Read_fd
    | Serving(fd: int)        // in web_child
    | Acknowledging           // at Write of the ready byte

  datatype Dispatch = Dispatch(fd: int, child: nat)

  /** `listen` and `ready` are what select left in rset.  `accepted`, `log`,
      `got` and `freed` record the history: the descriptors accepted, who was
      given which, what each child received, and the children freed since the
      last select. */
  datatype State = State(
    parent: Parent, navail: int, status: seq<nat>, count: seq<nat>,
    nsel: int, listen: bool, ready: set<nat>,
    children: seq<Child>, toChild: seq<seq<int>>, toParent: seq<nat>,
    accepted: seq<int>, log: seq<Dispatch>, got: seq<seq<int>>, freed: set<nat>)

  function Init(n: nat): State {
    State(Selecting, n, seq(n, _ => 0), seq(n, _ => 0), 0, false, {},
          seq(n, _ => Receiving), seq(n, _ => []), seq(n, _ => 0),
          [], [], seq(n, _ => []), {})
  }

  ghost predicate Sized(s: State) {
    |s.status| == |s.count| == |s.children| == |s.toChild| == |s.toParent| == |s.got|
  }

  /* ---- One atomic step ---- */

  /** What select may report: the listening socket only if its bit was left in,
      and children whose ready byte has arrived; at least one descriptor. */
  predicate Selectable(s: State, listen: bool, ready: set<nat>) {
    && (listen ==> s.navail > 0)
    && (forall i :: i in ready ==> i < |s.toParent| && s.toParent[i] > 0)
    && (listen || ready != {})
  }

  /** A step of the parent; `listen` and `ready` are what select reports, `fd`
      what accept returns. */
  function ParentStep(s: State, listen: bool, ready: set<nat>, fd: int): Option<State> {
    match s.parent
    case Selecting =>
      if !Selectable(s, listen, ready) then None
      else Some(s.(parent := TestingListen, nsel := (if listen then 1 else 0) + |ready|,
                   listen := listen, ready := ready, freed := {}))
    case TestingListen =>
      Some(if s.listen then s.(parent := Finding(fd, 0), accepted := s.accepted + [fd])
           else s.(parent := Scanning(0)))
    case Finding(c, i) =>
      if i >= |s.status| then Some(s.(parent := NoneAvailable))
      else if s.status[i] != 0 then Some(s.(parent := Finding(c, i + 1)))
      else if i < |s.count| then
        Some(s.(parent := Writing(c, i), status := s.status[i := 1],
                count := s.count[i := s.count[i] + 1], navail := s.navail - 1,
                log := s.log + [Dispatch(c, i)]))
      else None
    case Writing(c, i) =>
      if i < |s.toChild| then Some(s.(parent := Closing, toChild := s.toChild[i := s.toChild[i] + [c]]))
      else None
    case Closing =>
      Some(s.(nsel := s.nsel - 1, parent := if s.nsel - 1 == 0 then Selecting else Scanning(0)))
    case Scanning(i) =>
      if i >= |s.status| then Some(s.(parent := Selecting))
      else if i !in s.ready then Some(s.(parent := Scanning(i + 1)))
      else if i >= |s.toParent| then None
      else if s.toParent[i] == 0 then Some(s.(parent := ChildGone))
      else Some(s.(parent := Freeing(i), toParent := s.toParent[i := s.toParent[i] - 1]))
    case Freeing(i) =>
      if i < |s.status| then
        Some(s.(parent := if s.nsel - 1 == 0 then Selecting else Scanning(i + 1), nsel := s.nsel - 1,
                status := s.status[i := 0], navail := s.navail + 1, freed := s.freed + {i}))
      else None
    case NoneAvailable => None
    case ChildGone => None
  }

  function ChildStep(s: State, i: nat): Option<State> {
    if i >= |s.children| || i >= |s.toChild| || i >= |s.toParent| || i >= |s.got| then None
    else
      match s.children[i]
      case Receiving =>
        if s.toChild[i] == [] then None
        else
          var fd := s.toChild[i][0];
          Some(s.(children := s.children[i := Serving(fd)], toChild := s.toChild[i := s.toChild[i][1..]],
                  got := s.got[i := s.got[i] + [fd]]))
      case Serving(fd) => Some(s.(children := s.children[i := Acknowledging]))
      case Acknowledging =>
        Some(s.(children := s.children[i := Receiving], toParent := s.toParent[i := s.toParent[i] + 1]))
  }

  datatype Event =
    | ParentMoves(listen: bool, ready: set<nat>, fd: int)
    | ChildMoves(i: nat)

  function Step(s: State, e: Event): Option<State> {
    match e
    case ParentMoves(listen, ready, fd) => ParentStep(s, listen, ready, fd)
    case ChildMoves(i) => ChildStep(s, i)
  }

  /* ---- The invariant ---- */

  /** Children with status 0. */
  function IdleCount(status: seq<nat>): nat {
    if status == [] then 0
    else IdleCount(status[..|status| - 1]) + if status[|status| - 1] == 0 then 1 else 0
  }

  /** Where child `i`'s current connection is: a descriptor about to be written
      or in flight, a request being served, a ready byte in flight or just read. */
  function Tokens(s: State, i: nat): nat
    requires i < |s.children| && i < |s.toChild| && i < |s.toParent|
  {
    (if s.parent.Writing? && s.parent.i == i then 1 else 0) + |s.toChild[i]|
    + (if s.children[i].Receiving? then 0 else 1) + s.toParent[i]
    + (if s.parent == Freeing(i) then 1 else 0)
  }

  /** A busy child has exactly one token, an idle child none. */
  ghost predicate TokenInv(s: State) {
    && Sized(s)
    && forall i :: 0 <= i < |s.status| ==> Tokens(s, i) == s.status[i] <= 1
  }

  /** The children reported by select and not yet looked at. */
  function Remaining(ready: set<nat>, i: nat): set<nat> {
    set j | j in ready && i <= j
  }

  /** How far the scan has come. */
  function Scanned(s: State): nat {
    match s.parent
    case Scanning(i) => i
    case Freeing(i) => i
    case _ => 0
  }

  predicate InPass(p: Parent) {
    p.TestingListen? || p.Finding? || p.Writing? || p.Closing? || p.Scanning? || p.Freeing?
  }

  /** The listening socket was reported and is not yet dealt with. */
  predicate WithConnection(s: State) {
    (s.parent.TestingListen? && s.listen) || s.parent.Finding? || s.parent.Writing? || s.parent.Closing?
  }

  predicate HasByte(s: State, j: nat) {
    j < |s.toParent| && s.toParent[j] > 0
  }

  /** `nsel` counts what select reported and nobody has dealt with. */
  ghost predicate PassInv(s: State) {
    && (forall j :: j in s.ready ==> j < |s.toParent|)
    && (InPass(s.parent) ==>
          && s.nsel == |Remaining(s.ready, Scanned(s))| + (if WithConnection(s) then 1 else 0)
          && s.nsel > 0
          && s.freed == s.ready - Remaining(s.ready, Scanned(s))
          && (forall j :: j in Remaining(s.ready, Scanned(s)) ==> s.parent == Freeing(j) || HasByte(s, j))
          && (s.parent.Freeing? ==> s.parent.i in s.ready))
    && (s.parent.Selecting? ==> s.freed == s.ready)
    && !s.parent.ChildGone?
  }

  /** navail counts the idle children, and a search has one to find. */
  ghost predicate AvailInv(s: State) {
    && Sized(s)
    && s.navail == IdleCount(s.status)
    && (WithConnection(s) && !s.parent.Writing? && !s.parent.Closing? ==> s.navail > 0)
    && (s.parent.Finding? ==> s.parent.i <= |s.status| && forall j :: 0 <= j < s.parent.i ==> s.status[j] != 0)
    && (s.parent.Writing? || s.parent.Freeing? ==> s.parent.i < |s.status|)
    && !s.parent.NoneAvailable?
  }

  ghost predicate SelectInv(s: State) {
    PassInv(s) && AvailInv(s)
  }

  /** The descriptors of a log, and those given to child `i`. */
  function Descriptors(log: seq<Dispatch>): seq<int> {
    if log == [] then [] else Descriptors(log[..|log| - 1]) + [log[|log| - 1].fd]
  }

  function GivenTo(log: seq<Dispatch>, i: nat): seq<int> {
    if log == [] then []
    else GivenTo(log[..|log| - 1], i) + if log[|log| - 1].child == i then [log[|log| - 1].fd] else []
  }

  /** A descriptor marked for child `i` and not yet written to its pipe. */
  function Unwritten(s: State, i: nat): seq<int> {
    if s.parent.Writing? && s.parent.i == i then [s.parent.fd] else []
  }

  function Sum(c: seq<nat>): nat {
    if c == [] then 0 else Sum(c[..|c| - 1]) + c[|c| - 1]
  }

  /** Every accepted descriptor goes to one child, in order, and is counted. */
  ghost predicate HistoryInv(s: State) {
    && Sized(s)
    && s.accepted == Descriptors(s.log) + (if s.parent.Finding? then [s.parent.fd] else [])
    && Sum(s.count) == |s.log|
    && (forall i :: 0 <= i < |s.got| ==>
          && s.got[i] + s.toChild[i] + Unwritten(s, i) == GivenTo(s.log, i)
          && s.count[i] == |GivenTo(s.log, i)|)
    && (forall i :: 0 <= i < |s.got| && s.children[i].Serving? ==>
          s.got[i] != [] && s.got[i][|s.got[i]| - 1] == s.children[i].fd)
    && (forall k :: 0 <= k < |s.log| ==> s.log[k].child < |s.status|)
  }

  ghost predicate Inv(s: State) {
    TokenInv(s) && SelectInv(s) && HistoryInv(s)
  }

  /* ---- Every step keeps it ---- */

  lemma {:induction false} IdleUpdate(status: seq<nat>, i: nat, v: nat)
    requires i < |status|
    ensures IdleCount(status[i := v])
         == IdleCount(status) - (if status[i] == 0 then 1 else 0) + if v == 0 then 1 else 0
    decreases |status|
  {
    var last := |status| - 1;
    if i == last {
      assert status[i := v][..last] == status[..last];
    } else {
      assert status[i := v][..last] == status[..last][i := v];
      IdleUpdate(status[..last], i, v);
    }
  }

  lemma {:induction false} NoneIdle(status: seq<nat>)
    requires forall j :: 0 <= j < |status| ==> status[j] != 0
    ensures IdleCount(status) == 0
  {
    if status != [] {
      NoneIdle(status[..|status| - 1]);
    }
  }

  lemma RemainingStep(ready: set<nat>, i: nat)
    ensures forall j :: j in Remaining(ready, i + 1) <==> j in Remaining(ready, i) && j != i
    ensures i !in ready ==> Remaining(ready, i + 1) == Remaining(ready, i)
    ensures i in ready ==> |Remaining(ready, i)| == |Remaining(ready, i + 1)| + 1
    ensures i in ready ==> ready - Remaining(ready, i + 1) == ready - Remaining(ready, i) + {i}
    ensures |Remaining(ready, i + 1)| == 0 ==> ready - Remaining(ready, i + 1) == ready
    ensures i in ready <==> i in Remaining(ready, i)
  {
    if i in ready {
      assert Remaining(ready, i) == Remaining(ready, i + 1) + {i};
    } else {
      assert Remaining(ready, i + 1) == Remaining(ready, i);
    }
  }

  lemma RemainingEnds(ready: set<nat>, n: nat)
    requires forall j :: j in ready ==> j < n
    ensures Remaining(ready, n) == {}
  {
  }

  lemma TokenParent(s: State, listen: bool, ready: set<nat>, fd: int)
    requires TokenInv(s) && SelectInv(s) && ParentStep(s, listen, ready, fd).Some?
    ensures TokenInv(ParentStep(s, listen, ready, fd).value)
  {
    hide IdleCount, Remaining;
  }

  lemma TokenChild(s: State, i: nat)
    requires TokenInv(s) && ChildStep(s, i).Some?
    ensures TokenInv(ChildStep(s, i).value)
  {
  }

  /** The search for an idle child cannot fail. */
  lemma SearchSucceeds(s: State)
    requires AvailInv(s) && s.parent.Finding?
    ensures s.parent.i < |s.status|
  {
    if s.parent.i == |s.status| {
      NoneIdle(s.status);
    }
  }

  lemma AvailFinding(s: State, listen: bool, ready: set<nat>, fd: int)
    requires AvailInv(s) && s.parent.Finding? && ParentStep(s, listen, ready, fd).Some?
    ensures AvailInv(ParentStep(s, listen, ready, fd).value)
  {
    SearchSucceeds(s);
    hide IdleCount;
    IdleUpdate(s.status, s.parent.i, 1);
  }

  lemma AvailFreeing(s: State, listen: bool, ready: set<nat>, fd: int)
    requires TokenInv(s) && AvailInv(s) && s.parent.Freeing? && ParentStep(s, listen, ready, fd).Some?
    ensures AvailInv(ParentStep(s, listen, ready, fd).value)
  {
    hide IdleCount;
    IdleUpdate(s.status, s.parent.i, 0);
    assert Tokens(s, s.parent.i) == s.status[s.parent.i];
  }

  lemma AvailParent(s: State, listen: bool, ready: set<nat>, fd: int)
    requires TokenInv(s) && SelectInv(s) && ParentStep(s, listen, ready, fd).Some?
    ensures AvailInv(ParentStep(s, listen, ready, fd).value)
  {
    hide IdleCount, Remaining, PassInv, TokenInv;
    match s.parent
    case Finding(c, i) => AvailFinding(s, listen, ready, fd);
    case Freeing(i) => AvailFreeing(s, listen, ready, fd);
    case _ =>
  }

  lemma RemainingAll(ready: set<nat>)
    ensures Remaining(ready, 0) == ready
  {
  }

  lemma PassParent(s: State, listen: bool, ready: set<nat>, fd: int)
    requires SelectInv(s) && ParentStep(s, listen, ready, fd).Some?
    ensures PassInv(ParentStep(s, listen, ready, fd).value)
  {
    hide IdleCount, Remaining;
    match s.parent
    case Selecting => RemainingAll(ready);
    case Scanning(i) => PassScanning(s, listen, ready, fd);
    case Freeing(i) => PassFreeing(s, listen, ready, fd);
    case _ => RemainingAll(s.ready);
  }

  lemma PassScanning(s: State, listen: bool, ready: set<nat>, fd: int)
    requires PassInv(s) && Sized(s) && s.parent.Scanning? && ParentStep(s, listen, ready, fd).Some?
    ensures PassInv(ParentStep(s, listen, ready, fd).value)
  {
    hide IdleCount, Remaining;
    RemainingStep(s.ready, s.parent.i);
    if s.parent.i >= |s.status| {
      RemainingEnds(s.ready, s.parent.i);
      assert false;
    }
  }

  lemma PassFreeing(s: State, listen: bool, ready: set<nat>, fd: int)
    requires PassInv(s) && s.parent.Freeing? && ParentStep(s, listen, ready, fd).Some?
    ensures PassInv(ParentStep(s, listen, ready, fd).value)
  {
    hide IdleCount, Remaining;
    RemainingStep(s.ready, s.parent.i);
  }

  lemma SelectChild(s: State, i: nat)
    requires TokenInv(s) && SelectInv(s) && ChildStep(s, i).Some?
    ensures SelectInv(ChildStep(s, i).value)
  {
    hide IdleCount, Remaining;
  }

  lemma LogGrows(log: seq<Dispatch>, d: Dispatch)
    ensures Descriptors(log + [d]) == Descriptors(log) + [d.fd]
    ensures forall i :: GivenTo(log + [d], i) == GivenTo(log, i) + if d.child == i then [d.fd] else []
  {
    assert (log + [d])[..|log|] == log;
  }

  lemma {:induction false} SumUpdate(c: seq<nat>, i: nat)
    requires i < |c|
    ensures Sum(c[i := c[i] + 1]) == Sum(c) + 1
    decreases |c|
  {
    var last := |c| - 1;
    var c' := c[i := c[i] + 1];
    if i == last {
      assert c'[..last] == c[..last];
    } else {
      assert c'[..last] == c[..last][i := c[i] + 1];
      SumUpdate(c[..last], i);
    }
  }

  lemma HistoryMark(s: State, listen: bool, ready: set<nat>, fd: int)
    requires TokenInv(s) && SelectInv(s) && HistoryInv(s) && s.parent.Finding?
    requires s.parent.i < |s.status| && s.status[s.parent.i] == 0
    ensures ParentStep(s, listen, ready, fd).Some? && HistoryInv(ParentStep(s, listen, ready, fd).value)
  {
    hide IdleCount, Remaining, Sum, Descriptors, GivenTo;
    var c, i := s.parent.fd, s.parent.i;
    LogGrows(s.log, Dispatch(c, i));
    SumUpdate(s.count, i);
    assert Tokens(s, i) == 0;
  }

  lemma HistoryWrite(s: State, listen: bool, ready: set<nat>, fd: int)
    requires TokenInv(s) && SelectInv(s) && HistoryInv(s) && s.parent.Writing?
    ensures ParentStep(s, listen, ready, fd).Some? && HistoryInv(ParentStep(s, listen, ready, fd).value)
  {
    hide IdleCount, Remaining, Sum, Descriptors, GivenTo;
    var c, i := s.parent.fd, s.parent.i;
    assert s.got[i] + s.toChild[i] + [c] == s.got[i] + (s.toChild[i] + [c]) + [];
  }

  lemma HistoryFinding(s: State, listen: bool, ready: set<nat>, fd: int)
    requires TokenInv(s) && SelectInv(s) && HistoryInv(s) && s.parent.Finding? && ParentStep(s, listen, ready, fd).Some?
    ensures HistoryInv(ParentStep(s, listen, ready, fd).value)
  {
    hide IdleCount, Remaining, Sum, Descriptors, GivenTo, TokenInv;
    SearchSucceeds(s);
    if s.status[s.parent.i] == 0 {
      HistoryMark(s, listen, ready, fd);
    }
  }

  /** The other steps of the parent touch no descriptor but an accepted one. */
  lemma HistoryOther(s: State, listen: bool, ready: set<nat>, fd: int)
    requires HistoryInv(s) && !s.parent.Finding? && !s.parent.Writing? && ParentStep(s, listen, ready, fd).Some?
    ensures HistoryInv(ParentStep(s, listen, ready, fd).value)
  {
    hide Sum, Descriptors, GivenTo;
  }

  lemma HistoryParent(s: State, listen: bool, ready: set<nat>, fd: int)
    requires TokenInv(s) && SelectInv(s) && HistoryInv(s) && ParentStep(s, listen, ready, fd).Some?
    ensures HistoryInv(ParentStep(s, listen, ready, fd).value)
  {
    hide TokenInv, SelectInv, HistoryInv, ParentStep;
    match s.parent
    case Finding(c, i) => HistoryFinding(s, listen, ready, fd);
    case Writing(c, i) => HistoryWrite(s, listen, ready, fd);
    case _ => HistoryOther(s, listen, ready, fd);
  }

  lemma HistoryChild(s: State, i: nat)
    requires TokenInv(s) && HistoryInv(s) && ChildStep(s, i).Some?
    ensures HistoryInv(ChildStep(s, i).value)
  {
    hide TokenInv, HistoryInv;
    if s.children[i].Receiving? {
      HistoryReceive(s, i);
    } else {
      HistoryServe(s, i);
    }
  }

  lemma HistoryServe(s: State, i: nat)
    requires HistoryInv(s) && ChildStep(s, i).Some? && !s.children[i].Receiving?
    ensures HistoryInv(ChildStep(s, i).value)
  {
    hide Sum, Descriptors, GivenTo;
  }

  lemma HistoryReceive(s: State, i: nat)
    requires TokenInv(s) && HistoryInv(s) && ChildStep(s, i).Some? && s.children[i].Receiving?
    ensures HistoryInv(ChildStep(s, i).value)
  {
    hide Sum, Descriptors, GivenTo, TokenInv;
    var q := s.toChild[i];
    assert s.got[i] + q == s.got[i] + [q[0]] + q[1..];
  }

  lemma InvStep(s: State, e: Event)
    requires Inv(s) && Step(s, e).Some?
    ensures Inv(Step(s, e).value)
  {
    hide TokenInv, PassInv, AvailInv, HistoryInv, ParentStep, ChildStep;
    match e
    case ParentMoves(listen, ready, fd) =>
      TokenParent(s, listen, ready, fd);
      PassParent(s, listen, ready, fd);
      AvailParent(s, listen, ready, fd);
      HistoryParent(s, listen, ready, fd);
    case ChildMoves(i) =>
      TokenChild(s, i);
      SelectChild(s, i);
      HistoryChild(s, i);
  }

  lemma {:induction false} AllIdle(n: nat)
    ensures IdleCount(seq(n, _ => 0)) == n && Sum(seq(n, _ => 0)) == 0
  {
    var c: seq<nat> := seq(n, _ => 0);
    if n > 0 {
      assert c[..n - 1] == seq(n - 1, _ => 0);
      AllIdle(n - 1);
    }
  }

  lemma RunInv(n: nat, es: seq<Event>)
    requires Run(Step, Init(n), es).Some?
    ensures Inv(Run(Step, Init(n), es).value)
  {
    forall s, e | Inv(s) && Step(s, e).Some?
      ensures Inv(Step(s, e).value)
    {
      InvStep(s, e);
    }
    InitInv(n);
    Invariant(Step, Inv, Init(n), es);
  }

  lemma InitInv(n: nat)
    ensures Inv(Init(n))
  {
    AllIdle(n);
    assert forall i :: 0 <= i < n ==> Tokens(Init(n), i) == 0;
  }

  /* ---- What holds in every interleaving of parent and children ---- */

  /** navail is the number of children with status 0; a busy child has exactly
      one of: a descriptor about to be written or in flight, a request being
      served, a ready byte in flight or just read; an idle child has none.  The
      parent never fails to find a child and never reads end of file. */
  lemma BookkeepingAgrees(n: nat, es: seq<Event>)
    requires Run(Step, Init(n), es).Some?
    ensures var s := Run(Step, Init(n), es).value;
            && s.navail == IdleCount(s.status) && TokenInv(s)
            && !s.parent.NoneAvailable? && !s.parent.ChildGone?
            && (s.parent.Selecting? ==> s.freed == s.ready)
  {
    RunInv(n, es);
  }

  /** Every accepted descriptor is given to exactly one child, which receives
      its descriptors in the order they were given; the counters add up. */
  lemma DescriptorsConserved(n: nat, es: seq<Event>)
    requires Run(Step, Init(n), es).Some?
    ensures var s := Run(Step, Init(n), es).value;
            && s.accepted == Descriptors(s.log) + (if s.parent.Finding? then [s.parent.fd] else [])
            && Sum(s.count) == |s.log| && HistoryInv(s)
  {
    RunInv(n, es);
  }

  /** Nothing gets stuck: with a connection pending and at least one child,
      the parent or some child can always move. */
  lemma NeverStuck(n: nat, es: seq<Event>) returns (e: Event)
    requires 0 < n && Run(Step, Init(n), es).Some?
    ensures Step(Run(Step, Init(n), es).value, e).Some?
  {
    RunInv(n, es);
    RunSize(n, es);
    var s := Run(Step, Init(n), es).value;
    if !s.parent.Selecting? || s.navail > 0 {
      e := ParentMoves(true, {}, 0);
      ParentEnabled(s);
    } else {
      if s.status[0] == 0 {
        SomeIdle(s.status, 0);
      }
      assert Tokens(s, 0) == 1;
      e := if s.toParent[0] > 0 then ParentMoves(false, {0}, 0) else ChildMoves(0);
    }
  }

  lemma ParentEnabled(s: State)
    requires Inv(s) && (!s.parent.Selecting? || s.navail > 0)
    ensures ParentStep(s, true, {}, 0).Some?
  {
    if s.parent.Finding? {
      SearchSucceeds(s);
    }
  }

  lemma {:induction false} SomeIdle(status: seq<nat>, i: nat)
    requires i < |status| && status[i] == 0
    ensures IdleCount(status) > 0
    decreases |status|
  {
    if i < |status| - 1 {
      SomeIdle(status[..|status| - 1], i);
    }
  }

  lemma RunSize(n: nat, es: seq<Event>)
    requires Run(Step, Init(n), es).Some?
    ensures |Run(Step, Init(n), es).value.status| == n
  {
    var same := (s: State) => |s.status| == n;
    forall s, e | same(s) && Step(s, e).Some?
      ensures same(Step(s, e).value)
    {
    }
    Invariant(Step, same, Init(n), es);
  }

  /* ---- What the events say ---- */

  /** accept returns a descriptor when select has reported the listening socket. */
  function AcceptNote(s: State, e: Event): seq<int> {
    if s.parent.TestingListen? && s.listen && e.ParentMoves? then [e.fd] else []
  }

  /** The descriptors accepted are those accept returned. */
  lemma AcceptedAsTold(n: nat, es: seq<Event>)
    requires Run(Step, Init(n), es).Some?
    ensures Run(Step, Init(n), es).value.accepted == Trace(Step, AcceptNote, Init(n), es)
  {
    var log := (s: State) => s.accepted;
    forall s, e | Step(s, e).Some?
      ensures log(Step(s, e).value) == log(s) + AcceptNote(s, e)
    {
      assert s.accepted + [] == s.accepted;
    }
    LogIsTrace(Step, AcceptNote, log, Init(n), es);
    assert [] + Trace(Step, AcceptNote, Init(n), es) == Trace(Step, AcceptNote, Init(n), es);
  }

  /* ---- A connection's way through, undisturbed ---- */

  lemma ChildTakes(s: State, i: nat)
    requires Sized(s) && i < |s.children| && s.children[i].Receiving? && s.toChild[i] != []
    ensures Step(s, ChildMoves(i))
         == Some(s.(children := s.children[i := Serving(s.toChild[i][0])], toChild := s.toChild[i := s.toChild[i][1..]],
                    got := s.got[i := s.got[i] + [s.toChild[i][0]]]))
  {
  }

  lemma ChildFinishes(s: State, i: nat)
    requires Sized(s) && i < |s.children| && s.children[i].Serving?
    ensures Run(Step, s, Repeat(ChildMoves(i), 2))
         == Some(s.(children := s.children[i := Receiving], toParent := s.toParent[i := s.toParent[i] + 1]))
  {
    hide Run, Repeat;
    var e := ChildMoves(i);
    RunRepeat(Step, s, e, 1);
    SetAgain(s.children, i, Acknowledging, Receiving);
    var t := s.(children := s.children[i := Acknowledging]);
    RunRepeat(Step, t, e, 0);
    RunRepeat(Step, s.(children := s.children[i := Receiving], toParent := s.toParent[i := s.toParent[i] + 1]), e, 0);
  }

  /** A child takes the descriptor at the head of its pipe, serves it, says it is ready
      and waits for the next. */
  lemma ChildRound(s: State, i: nat)
    requires Sized(s) && i < |s.children| && s.children[i].Receiving? && s.toChild[i] != []
    ensures Run(Step, s, Repeat(ChildMoves(i), 3))
         == Some(s.(toChild := s.toChild[i := s.toChild[i][1..]], got := s.got[i := s.got[i] + [s.toChild[i][0]]],
                    toParent := s.toParent[i := s.toParent[i] + 1]))
  {
    hide Run, Repeat, Step;
    var e, fd := ChildMoves(i), s.toChild[i][0];
    var t := s.(toChild := s.toChild[i := s.toChild[i][1..]], got := s.got[i := s.got[i] + [fd]]);
    var u := t.(children := s.children[i := Serving(fd)]);
    SetAgain(s.children, i, Serving(fd), Receiving);
    ChildTakes(s, i);
    RunRepeat(Step, s, e, 2);
    ChildFinishes(u, i);
  }

  /** The search passes the busy children. */
  lemma {:induction false} Finds(s: State, e: Event, c: int, i: nat, k: nat)
    requires Sized(s) && e.ParentMoves? && i <= k < |s.status|
    requires s.parent == Finding(c, i) && forall j :: i <= j < k ==> s.status[j] != 0
    ensures Run(Step, s, Repeat(e, k - i)) == Some(s.(parent := Finding(c, k)))
    decreases k - i
  {
    hide Run, Repeat;
    if i == k {
      RunRepeat(Step, s, e, 0);
    } else {
      RunRepeat(Step, s, e, k - i - 1);
      Finds(s.(parent := Finding(c, i + 1)), e, c, i + 1, k);
    }
  }

  /** A connection goes to the first idle child: marked, counted, and the descriptor in
      its pipe. */
  lemma Dispatched(s: State, e: Event, k: nat) returns (u: State)
    requires Sized(s) && e.ParentMoves? && s.parent.TestingListen? && s.listen && s.nsel == 1
    requires k < |s.status| && s.status[k] == 0 && forall j :: 0 <= j < k ==> s.status[j] != 0
    ensures Run(Step, s, Repeat(e, 1) + Repeat(e, k) + Repeat(e, 3)) == Some(u)
    ensures u == s.(parent := Selecting, nsel := 0, status := s.status[k := 1], count := s.count[k := s.count[k] + 1],
                    navail := s.navail - 1, toChild := s.toChild[k := s.toChild[k] + [e.fd]],
                    accepted := s.accepted + [e.fd], log := s.log + [Dispatch(e.fd, k)])
  {
    hide Run, Repeat;
    RunRepeat(Step, s, e, 0);
    var s1 := Step(s, e).value;
    RunRepeat(Step, s1, e, 0);
    Finds(s1, e, e.fd, 0, k);
    var s2 := s1.(parent := Finding(e.fd, k));
    RunAppend(Step, s, Repeat(e, 1), Repeat(e, k));
    RunAppend(Step, s, Repeat(e, 1) + Repeat(e, k), Repeat(e, 3));
    RunRepeat(Step, s2, e, 2);
    var s3 := Step(s2, e).value;
    RunRepeat(Step, s3, e, 1);
    var s4 := Step(s3, e).value;
    RunRepeat(Step, s4, e, 0);
    u := Step(s4, e).value;
    RunRepeat(Step, u, e, 0);
  }

  lemma {:induction false} Scans(s: State, e: Event, i: nat, k: nat)
    requires Sized(s) && e.ParentMoves? && i <= k < |s.status|
    requires s.parent == Scanning(i) && forall j :: i <= j < k ==> j !in s.ready
    ensures Run(Step, s, Repeat(e, k - i)) == Some(s.(parent := Scanning(k)))
    decreases k - i
  {
    hide Run, Repeat;
    if i == k {
      RunRepeat(Step, s, e, 0);
    } else {
      RunRepeat(Step, s, e, k - i - 1);
      Scans(s.(parent := Scanning(i + 1)), e, i + 1, k);
    }
  }

  /** A child's ready byte, alone in the report, makes it idle again. */
  lemma Freed(s: State, e: Event, k: nat) returns (u: State)
    requires Sized(s) && e.ParentMoves? && s.parent.TestingListen? && !s.listen && s.nsel == 1
    requires k < |s.status| && s.ready == {k} && s.toParent[k] > 0
    ensures Run(Step, s, Repeat(e, 1) + Repeat(e, k) + Repeat(e, 2)) == Some(u)
    ensures u == s.(parent := Selecting, nsel := 0, status := s.status[k := 0], navail := s.navail + 1,
                    toParent := s.toParent[k := s.toParent[k] - 1], freed := s.freed + {k})
  {
    hide Run, Repeat;
    RunRepeat(Step, s, e, 0);
    var s1 := Step(s, e).value;
    RunRepeat(Step, s1, e, 0);
    Scans(s1, e, 0, k);
    var s2 := s1.(parent := Scanning(k));
    RunAppend(Step, s, Repeat(e, 1), Repeat(e, k));
    RunAppend(Step, s, Repeat(e, 1) + Repeat(e, k), Repeat(e, 2));
    RunRepeat(Step, s2, e, 1);
    var s3 := Step(s2, e).value;
    RunRepeat(Step, s3, e, 0);
    u := Step(s3, e).value;
    RunRepeat(Step, u, e, 0);
  }

  /* ---- The program ---- */

  /** The parent's variables, the children and the pipes between them. */
  class Server {
    var parent: Parent
    var navail: int
    var status: array<nat>
    var count: array<nat>
    var nsel: int
    var listen: bool
    var ready: set<nat>
    var children: seq<Child>
    var toChild: seq<seq<int>>
    var toParent: seq<nat>
    ghost var accepted: seq<int>
    ghost var log: seq<Dispatch>
    ghost var got: seq<seq<int>>
    ghost var freed: set<nat>

    ghost function View(): State
      reads this, status, count
    {
      State(parent, navail, status[..], count[..], nsel, listen, ready,
            children, toChild, toParent, accepted, log, got, freed)
    }

    constructor (nchildren: nat)
      ensures fresh(status) && fresh(count) && status != count && View() == Init(nchildren)
    {
      parent, navail := Selecting, nchildren;
      status := new nat[nchildren](_ => 0);
      count := new nat[nchildren](_ => 0);
      nsel, listen, ready := 0, false, {};
      children := seq(nchildren, _ => Receiving);
      toChild := seq(nchildren, _ => []);
      toParent := seq(nchildren, _ => 0);
      accepted, log, got, freed := [], [], seq(nchildren, _ => []), {};
    }

    /** The parent runs the statement at which it stands. */
    method ParentMove(listen: bool, ready: set<nat>, fd: int)
      requires status != count && ParentStep(View(), listen, ready, fd).Some?
      modifies this, status, count
      ensures status == old(status) && count == old(count)
      ensures View() == ParentStep(old(View()), listen, ready, fd).value
    {
      hide Selectable;
      match parent
      case Finding(connfd, i) =>
        if i >= status.Length {
          parent := NoneAvailable;
        } else if status[i] != 0 {
          parent := Finding(connfd, i + 1);
        } else {
          MarkBusy(connfd, i);
        }
      case Freeing(i) => MarkIdle(i);
      case Scanning(i) => Scan(i);
      case _ => Converse(listen, ready, fd);
    }

    /** Select, accept, and passing the descriptor on. */
    method Converse(listen: bool, ready: set<nat>, fd: int)
      requires parent.Selecting? || parent.TestingListen? || parent.Writing? || parent.Closing?
      requires ParentStep(View(), listen, ready, fd).Some?
      modifies this
      ensures status == old(status) && count == old(count)
      ensures View() == ParentStep(old(View()), listen, ready, fd).value
    {
      match parent
      case Selecting =>
        this.listen, this.ready := listen, ready;
        nsel := (if listen then 1 else 0) + |ready|;
        freed := {};
        parent := TestingListen;
      case TestingListen =>
        if this.listen {
          accepted := accepted + [fd];
          parent := Finding(fd, 0);
        } else {
          parent := Scanning(0);
        }
      case Writing(connfd, i) =>
        toChild := toChild[i := toChild[i] + [connfd]];
        parent := Closing;
      case Closing =>
        nsel := nsel - 1;
        parent := if nsel == 0 then Selecting else Scanning(0);
    }

    /** The loop over the children looks at child `i`. */
    method Scan(i: nat)
      requires parent == Scanning(i) && ParentStep(View(), false, {}, 0).Some?
      modifies this
      ensures status == old(status) && count == old(count)
      ensures View() == ParentStep(old(View()), false, {}, 0).value
    {
      if i >= status.Length {
        parent := Selecting;
      } else if i !in ready {
        parent := Scanning(i + 1);
      } else if toParent[i] == 0 {
        parent := ChildGone;
      } else {
        toParent := toParent[i := toParent[i] - 1];
        parent := Freeing(i);
      }
    }

    /** Child `i` takes the new connection. */
    method MarkBusy(connfd: int, i: nat)
      requires status != count && i < status.Length && i < count.Length && status[i] == 0
      requires parent == Finding(connfd, i)
      modifies this, status, count
      ensures status == old(status) && count == old(count)
      ensures View() == ParentStep(old(View()), false, {}, 0).value
    {
      status[i] := 1;
      count[i] := count[i] + 1;
      navail := navail - 1;
      log := log + [Dispatch(connfd, i)];
      parent := Writing(connfd, i);
    }

    /** Child `i` is ready again. */
    method MarkIdle(i: nat)
      requires status != count && i < status.Length && parent == Freeing(i)
      modifies this, status
      ensures status == old(status) && count == old(count)
      ensures View() == ParentStep(old(View()), false, {}, 0).value
    {
      status[i] := 0;
      navail := navail + 1;
      freed := freed + {i};
      nsel := nsel - 1;
      parent := if nsel == 0 then Selecting else Scanning(i + 1);
    }

    /** Child `i` runs the statement at which it stands. */
    method ChildMove(i: nat)
      requires ChildStep(View(), i).Some?
      modifies this
      ensures status == old(status) && count == old(count)
      ensures View() == ChildStep(old(View()), i).value
    {
      match children[i]
      case Receiving =>
        var connfd := toChild[i][0];
        toChild := toChild[i := toChild[i][1..]];
        got := got[i := got[i] + [connfd]];
        children := children[i := Serving(connfd)];
      case Serving(connfd) =>
        children := children[i := Acknowledging];
      case Acknowledging =>
        toParent := toParent[i := toParent[i] + 1];
        children := children[i := Receiving];
    }
  }

}
