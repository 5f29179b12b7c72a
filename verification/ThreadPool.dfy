/**
 The prethreaded server: main accepts connections and puts their descriptors
 in a ring, a pool of threads takes them out.  One mutex, one condition
 variable with Mesa semantics: a signal wakes a sleeper, if there is one, and
 sleepers may also wake spuriously; a woken thread competes for the mutex.
 */
module ThreadPool {
  import opened Common
  import opened Runs

  const MAXNCLI := 32

  /** Where a thread of the pool is. */
  datatype Consumer =
    | Locking               // at pthread_mutex_lock
    | Testing               // at the while condition, holding the mutex
    | Asleep                // in pthread_cond_wait
    | Woken                 // in pthread_cond_wait, about to reacquire the mutex
    | Taking                // at connfd = clifd[iget]
    | Advancing(fd: int)    // at ++iget
    | Unlocking(fd: int)    // at pthread_mutex_unlock
    | Counting(fd: int)     // at thread_count++
    | Serving(fd: int)      // in web_child

  /** Where main is. */
  datatype Main =
    | Accepting
    | MainLocking(fd: int)
    | Putting(fd: int)      // at clifd[iput] = connfd
    | MainAdvancing         // at ++iput
    | Checking              // at the test for a full ring
    | Signalling
    | MainUnlocking
    | Quit                  // err_quit ended the process

  datatype Owner = Free | MainThread | Pool(t: nat)

  /** `accepted`, `taken` and `takenBy` record the history: the descriptors
      accept returned, those read from the ring, and by which thread. */
  datatype State = State(
    clifd: seq<int>, iget: nat, iput: nat, owner: Owner,
    main: Main, threads: seq<Consumer>, counts: seq<nat>,
    accepted: seq<int>, taken: seq<int>, takenBy: seq<nat>)

  function Init(n: nat, clifd: seq<int>): State {
    State(clifd, 0, 0, Free, Accepting, seq(n, _ => Locking), seq(n, _ => 0), [], [], [])
  }

  /* ---- One atomic step ---- */

  /** Incrementing a ring index. */
  function Next(i: nat): nat {
    if i + 1 == MAXNCLI then 0 else i + 1
  }

  predicate SomeoneSleeps(threads: seq<Consumer>) {
    exists t :: 0 <= t < |threads| && threads[t].Asleep?
  }

  /** A step of main: `fd` is what accept returns, `wake` whom a signal wakes. */
  function MainStep(s: State, fd: int, wake: nat): Option<State> {
    match s.main
    case Accepting => Some(s.(main := MainLocking(fd), accepted := s.accepted + [fd]))
    case MainLocking(c) =>
      if s.owner.Free? then Some(s.(main := Putting(c), owner := MainThread)) else None
    case Putting(c) =>
      if s.iput < |s.clifd| then Some(s.(main := MainAdvancing, clifd := s.clifd[s.iput := c])) else None
    case MainAdvancing => Some(s.(main := Checking, iput := Next(s.iput)))
    case Checking => Some(s.(main := if s.iput == s.iget then Quit else Signalling))
    case Signalling =>
      if !SomeoneSleeps(s.threads) then Some(s.(main := MainUnlocking))
      else if wake < |s.threads| && s.threads[wake].Asleep? then
        Some(s.(main := MainUnlocking, threads := s.threads[wake := Woken]))
      else None
    case MainUnlocking => Some(s.(main := Accepting, owner := Free))
    case Quit => None
  }

  /** A step of thread `t` of the pool. */
  function ThreadStep(s: State, t: nat): Option<State>
    requires t < |s.threads|
  {
    match s.threads[t]
    case Locking =>
      if s.owner.Free? then Some(s.(threads := s.threads[t := Testing], owner := Pool(t))) else None
    case Testing =>
      if s.iget == s.iput then Some(s.(threads := s.threads[t := Asleep], owner := Free))
      else Some(s.(threads := s.threads[t := Taking]))
    case Asleep => None
    case Woken =>
      if s.owner.Free? then Some(s.(threads := s.threads[t := Testing], owner := Pool(t))) else None
    case Taking =>
      if s.iget < |s.clifd| then
        var fd := s.clifd[s.iget];
        Some(s.(threads := s.threads[t := Advancing(fd)], taken := s.taken + [fd], takenBy := s.takenBy + [t]))
      else None
    case Advancing(fd) => Some(s.(threads := s.threads[t := Unlocking(fd)], iget := Next(s.iget)))
    case Unlocking(fd) => Some(s.(threads := s.threads[t := Counting(fd)], owner := Free))
    case Counting(fd) =>
      if t < |s.counts| then
        Some(s.(threads := s.threads[t := Serving(fd)], counts := s.counts[t := s.counts[t] + 1]))
      else None
    case Serving(fd) => Some(s.(threads := s.threads[t := Locking]))
  }

  datatype Event = MainMoves(fd: int, wake: nat) | ThreadMoves(t: nat) | SpuriousWakeup(t: nat)

  function Step(s: State, e: Event): Option<State> {
    if s.main.Quit? then None
    else
      match e
      case MainMoves(fd, wake) => MainStep(s, fd, wake)
      case ThreadMoves(t) => if t < |s.threads| then ThreadStep(s, t) else None
      case SpuriousWakeup(t) =>
        if t < |s.threads| && s.threads[t].Asleep? then Some(s.(threads := s.threads[t := Woken])) else None
  }

  /* ---- The invariant ---- */

  /** Threads about to compete for the mutex again. */
  function WokenCount(threads: seq<Consumer>): nat {
    if threads == [] then 0
    else WokenCount(threads[..|threads| - 1]) + if threads[|threads| - 1].Woken? then 1 else 0
  }

  function Times(t: nat, log: seq<nat>): nat {
    if log == [] then 0
    else Times(t, log[..|log| - 1]) + if log[|log| - 1] == t then 1 else 0
  }

  predicate HoldsMutex(c: Consumer) {
    c.Testing? || c.Taking? || c.Advancing? || c.Unlocking?
  }

  /** Has the mutex and has not yet moved `iget`. */
  predicate BeforeGet(s: State) {
    s.owner.Pool? && s.owner.t < |s.threads| && !s.threads[s.owner.t].Unlocking?
  }

  /** How many descriptors `iput` and `iget` have passed. */
  function PutCount(s: State): int {
    |s.accepted| - if s.main.MainLocking? || s.main.Putting? || s.main.MainAdvancing? then 1 else 0
  }

  function GotCount(s: State): int {
    |s.taken| - if s.owner.Pool? && s.owner.t < |s.threads| && s.threads[s.owner.t].Advancing? then 1 else 0
  }

  /** The mutex is held exactly by the one whose place in the code says so. */
  ghost predicate MutexInv(s: State) {
    && (s.owner.MainThread? <==>
        s.main.Putting? || s.main.MainAdvancing? || s.main.Checking? || s.main.Signalling?
        || s.main.MainUnlocking? || s.main.Quit?)
    && (s.owner.Pool? ==> s.owner.t < |s.threads|)
    && forall t :: 0 <= t < |s.threads| ==> (HoldsMutex(s.threads[t]) <==> s.owner == Pool(t))
  }

  /** The ring holds, in order, the descriptors put and not yet got. */
  ghost predicate RingInv(s: State) {
    && |s.clifd| == MAXNCLI
    && 0 <= GotCount(s) <= PutCount(s)
    && PutCount(s) - GotCount(s) <= (if s.main.Checking? || s.main.Quit? then MAXNCLI else MAXNCLI - 1)
    && s.iput == PutCount(s) % MAXNCLI && s.iget == GotCount(s) % MAXNCLI
    && (forall j :: GotCount(s) <= j < PutCount(s) ==> s.clifd[j % MAXNCLI] == s.accepted[j])
    && (s.main.MainLocking? || s.main.Putting? ==> s.main.fd == s.accepted[|s.accepted| - 1])
    && (s.main.MainAdvancing? ==> s.clifd[s.iput] == s.accepted[|s.accepted| - 1])
    && (s.owner.Pool? && s.owner.t < |s.threads| && (s.threads[s.owner.t].Taking? || s.threads[s.owner.t].Advancing?) ==>
          GotCount(s) < PutCount(s))
    && (s.main.Checking? ==> GotCount(s) < PutCount(s))
    && (s.main.Quit? ==> s.iput == s.iget)
    && (s.main.Signalling? ==> s.iput != s.iget)
  }

  /** What has been taken is an initial part of what was accepted. */
  ghost predicate HistoryInv(s: State) {
    && |s.takenBy| == |s.taken| && s.taken <= s.accepted
  }

  predicate TookOne(c: Consumer) {
    c.Advancing? || c.Unlocking? || c.Counting?
  }

  predicate HasDescriptor(c: Consumer) {
    TookOne(c) || c.Serving?
  }

  /** The descriptor thread `t` took last. */
  function LastTaken(t: nat, taken: seq<int>, takenBy: seq<nat>): Option<int>
    requires |taken| == |takenBy|
  {
    if taken == [] then None
    else if takenBy[|takenBy| - 1] == t then Some(taken[|taken| - 1])
    else LastTaken(t, taken[..|taken| - 1], takenBy[..|takenBy| - 1])
  }

  /** Each thread has counted the connections it took, the current one aside,
      and serves the one it took last. */
  ghost predicate CountInv(s: State) {
    && |s.counts| == |s.threads| && |s.takenBy| == |s.taken|
    && (forall t :: 0 <= t < |s.threads| ==>
          Times(t, s.takenBy) == s.counts[t] + if TookOne(s.threads[t]) then 1 else 0)
    && (forall t :: 0 <= t < |s.threads| && HasDescriptor(s.threads[t]) ==>
          LastTaken(t, s.taken, s.takenBy) == Some(s.threads[t].fd))
    && (forall k :: 0 <= k < |s.takenBy| ==> s.takenBy[k] < |s.threads|)
  }

  /** While someone sleeps, everything queued has somebody on the way. */
  ghost predicate WakeupInv(s: State) {
    SomeoneSleeps(s.threads) ==>
      PutCount(s) - GotCount(s) <= WokenCount(s.threads)
        + (if s.main.Checking? || s.main.Signalling? || s.main.Quit? then 1 else 0)
        + (if BeforeGet(s) then 1 else 0)
  }

  ghost predicate Inv(s: State) {
    MutexInv(s) && RingInv(s) && HistoryInv(s) && CountInv(s) && WakeupInv(s)
  }

  /* ---- Every step keeps it ---- */

  lemma {:induction false} WokenUpdate(threads: seq<Consumer>, t: nat, c: Consumer)
    requires t < |threads|
    ensures WokenCount(threads[t := c])
         == WokenCount(threads) - (if threads[t].Woken? then 1 else 0) + if c.Woken? then 1 else 0
    decreases |threads|
  {
    var last := |threads| - 1;
    if t == last {
      assert threads[t := c][..last] == threads[..last];
    } else {
      assert threads[t := c][..last] == threads[..last][t := c];
      WokenUpdate(threads[..last], t, c);
    }
  }

  lemma MutexStep(s: State, e: Event)
    requires Inv(s) && Step(s, e).Some?
    ensures MutexInv(Step(s, e).value)
  {
    hide WokenCount, Times, LastTaken, RingInv, HistoryInv, CountInv, WakeupInv;
  }

  lemma DistinctSlots(j: nat, p: nat)
    requires j < p < j + MAXNCLI
    ensures j % MAXNCLI != p % MAXNCLI
  {
  }

  lemma RingPut(s: State, fd: int, wake: nat)
    requires MutexInv(s) && RingInv(s) && HistoryInv(s) && s.main.Putting?
    ensures MainStep(s, fd, wake).Some? && RingInv(MainStep(s, fd, wake).value)
  {
    var s' := MainStep(s, fd, wake).value;
    var got, put := GotCount(s), PutCount(s);
    assert GotCount(s') == got && PutCount(s') == put;
    forall j | got <= j < put
      ensures s'.clifd[j % MAXNCLI] == s.accepted[j]
    {
      DistinctSlots(j, put);
    }
  }

  lemma RingAccept(s: State, fd: int, wake: nat)
    requires RingInv(s) && s.main.Accepting?
    ensures MainStep(s, fd, wake).Some? && RingInv(MainStep(s, fd, wake).value)
  {
    var s' := MainStep(s, fd, wake).value;
    assert GotCount(s') == GotCount(s) && PutCount(s') == PutCount(s);
    assert s'.accepted[|s.accepted|] == fd;
  }

  lemma RingAdvancePut(s: State, fd: int, wake: nat)
    requires RingInv(s) && s.main.MainAdvancing?
    ensures MainStep(s, fd, wake).Some? && RingInv(MainStep(s, fd, wake).value)
  {
    var s' := MainStep(s, fd, wake).value;
    assert GotCount(s') == GotCount(s) && PutCount(s') == PutCount(s) + 1;
  }

  lemma RingMainOther(s: State, fd: int, wake: nat)
    requires MutexInv(s) && RingInv(s) && MainStep(s, fd, wake).Some?
    requires s.main.MainLocking? || s.main.Checking? || s.main.Signalling? || s.main.MainUnlocking?
    ensures RingInv(MainStep(s, fd, wake).value)
  {
    var s' := MainStep(s, fd, wake).value;
    assert PutCount(s') == PutCount(s) && GotCount(s') == GotCount(s);
    DistinctUnlessEmpty(GotCount(s), PutCount(s));
  }

  lemma RingMain(s: State, fd: int, wake: nat)
    requires MutexInv(s) && RingInv(s) && HistoryInv(s) && !s.main.Quit? && MainStep(s, fd, wake).Some?
    ensures RingInv(MainStep(s, fd, wake).value) && HistoryInv(MainStep(s, fd, wake).value)
  {
    hide RingInv, MutexInv;
    match s.main
    case Putting(c) => RingPut(s, fd, wake);
    case Accepting => RingAccept(s, fd, wake);
    case MainAdvancing => RingAdvancePut(s, fd, wake);
    case _ => RingMainOther(s, fd, wake);
  }

  lemma RingTake(s: State, t: nat)
    requires MutexInv(s) && RingInv(s) && HistoryInv(s)
    requires t < |s.threads| && s.threads[t].Taking?
    ensures ThreadStep(s, t).Some?
    ensures RingInv(ThreadStep(s, t).value) && HistoryInv(ThreadStep(s, t).value)
  {
    var s' := ThreadStep(s, t).value;
    assert GotCount(s') == GotCount(s) == |s.taken| && PutCount(s') == PutCount(s);
    assert s.clifd[s.iget] == s.accepted[|s.taken|];
  }

  lemma RingAdvance(s: State, t: nat)
    requires MutexInv(s) && RingInv(s) && t < |s.threads| && s.threads[t].Advancing?
    ensures ThreadStep(s, t).Some? && RingInv(ThreadStep(s, t).value)
  {
    var s' := ThreadStep(s, t).value;
    assert GotCount(s') == GotCount(s) + 1 && PutCount(s') == PutCount(s);
  }

  /** The other steps of a thread leave the ring alone. */
  lemma RingOther(s: State, t: nat)
    requires MutexInv(s) && RingInv(s) && !s.main.Quit? && t < |s.threads|
    requires !s.threads[t].Taking? && !s.threads[t].Advancing? && ThreadStep(s, t).Some?
    ensures RingInv(ThreadStep(s, t).value)
  {
    hide Next;
    var s' := ThreadStep(s, t).value;
    DistinctUnlessEmpty(GotCount(s), PutCount(s));
    assert GotCount(s') == GotCount(s) && PutCount(s') == PutCount(s);
  }

  lemma RingThread(s: State, t: nat)
    requires MutexInv(s) && RingInv(s) && HistoryInv(s) && !s.main.Quit?
    requires t < |s.threads| && ThreadStep(s, t).Some?
    ensures RingInv(ThreadStep(s, t).value) && HistoryInv(ThreadStep(s, t).value)
  {
    hide RingInv, MutexInv;
    match s.threads[t]
    case Taking => RingTake(s, t);
    case Advancing(fd) => RingAdvance(s, t);
    case _ => RingOther(s, t);
  }

  lemma DistinctUnlessEmpty(got: nat, put: nat)
    requires got <= put <= got + MAXNCLI
    ensures put < got + MAXNCLI ==> (got % MAXNCLI == put % MAXNCLI <==> got == put)
    ensures put == got + MAXNCLI ==> got % MAXNCLI == put % MAXNCLI
  {
  }

  lemma RingStep(s: State, e: Event)
    requires Inv(s) && Step(s, e).Some?
    ensures RingInv(Step(s, e).value) && HistoryInv(Step(s, e).value)
  {
    match e
    case MainMoves(fd, wake) => RingMain(s, fd, wake);
    case ThreadMoves(t) => RingThread(s, t);
    case SpuriousWakeup(t) =>
  }

  lemma WakeupMain(s: State, fd: int, wake: nat)
    requires Inv(s) && !s.main.Quit? && MainStep(s, fd, wake).Some?
    ensures WakeupInv(MainStep(s, fd, wake).value)
  {
    hide WokenCount, CountInv, HistoryInv, Next;
    var s' := MainStep(s, fd, wake).value;
    assert GotCount(s') == GotCount(s);
    assert PutCount(s') == PutCount(s) + if s.main.MainAdvancing? then 1 else 0;
    if s.main.Signalling? && SomeoneSleeps(s.threads) {
      WokenUpdate(s.threads, wake, Woken);
    }
  }

  lemma WakeupThread(s: State, t: nat)
    requires Inv(s) && !s.main.Quit? && t < |s.threads| && ThreadStep(s, t).Some?
    ensures WakeupInv(ThreadStep(s, t).value)
  {
    hide WokenCount, CountInv, HistoryInv, Next;
    var s' := ThreadStep(s, t).value;
    WokenUpdate(s.threads, t, s'.threads[t]);
    DistinctUnlessEmpty(GotCount(s), PutCount(s));
    if !s'.threads[t].Asleep? {
      StillAsleep(s.threads, t, s'.threads[t]);
    }
  }

  lemma StillAsleep(threads: seq<Consumer>, t: nat, c: Consumer)
    requires t < |threads| && !c.Asleep?
    ensures SomeoneSleeps(threads[t := c]) ==> SomeoneSleeps(threads)
  {
    if SomeoneSleeps(threads[t := c]) {
      var u :| 0 <= u < |threads| && threads[t := c][u].Asleep?;
      assert threads[u].Asleep?;
    }
  }

  lemma WakeupStep(s: State, e: Event)
    requires Inv(s) && Step(s, e).Some?
    ensures WakeupInv(Step(s, e).value)
  {
    hide Inv, WokenCount;
    match e
    case MainMoves(fd, wake) => WakeupMain(s, fd, wake);
    case ThreadMoves(t) => WakeupThread(s, t);
    case SpuriousWakeup(t) => WakeupSpurious(s, t);
  }

  lemma WakeupSpurious(s: State, t: nat)
    requires Inv(s) && t < |s.threads| && s.threads[t].Asleep?
    ensures WakeupInv(s.(threads := s.threads[t := Woken]))
  {
    hide WokenCount, CountInv, HistoryInv, RingInv;
    WokenUpdate(s.threads, t, Woken);
  }

  /** One more entry in the log. */
  lemma LogGrows(t: nat, taken: seq<int>, takenBy: seq<nat>, fd: int, u: nat)
    requires |taken| == |takenBy|
    ensures Times(t, takenBy + [u]) == Times(t, takenBy) + if t == u then 1 else 0
    ensures LastTaken(t, taken + [fd], takenBy + [u])
         == if t == u then Some(fd) else LastTaken(t, taken, takenBy)
  {
    assert (takenBy + [u])[..|takenBy|] == takenBy && (taken + [fd])[..|taken|] == taken;
  }

  lemma CountTake(s: State, t: nat)
    requires Inv(s) && t < |s.threads| && s.threads[t].Taking? && ThreadStep(s, t).Some?
    ensures CountInv(ThreadStep(s, t).value)
  {
    hide Times, LastTaken, RingInv, WakeupInv, MutexInv;
    var s' := ThreadStep(s, t).value;
    var fd := s'.threads[t].fd;
    forall u | 0 <= u < |s.threads|
      ensures Times(u, s'.takenBy) == Times(u, s.takenBy) + if u == t then 1 else 0
      ensures LastTaken(u, s'.taken, s'.takenBy)
           == if u == t then Some(fd) else LastTaken(u, s.taken, s.takenBy)
    {
      LogGrows(u, s.taken, s.takenBy, fd, t);
    }
  }

  lemma CountThread(s: State, t: nat)
    requires Inv(s) && t < |s.threads| && !s.threads[t].Taking? && ThreadStep(s, t).Some?
    ensures CountInv(ThreadStep(s, t).value)
  {
    hide Times, LastTaken, RingInv, WakeupInv, MutexInv, HistoryInv, Next;
  }

  lemma CountMain(s: State, fd: int, wake: nat)
    requires Inv(s) && MainStep(s, fd, wake).Some?
    ensures CountInv(MainStep(s, fd, wake).value)
  {
    hide Times, LastTaken, RingInv, WakeupInv, MutexInv, HistoryInv, Next;
  }

  lemma CountStep(s: State, e: Event)
    requires Inv(s) && Step(s, e).Some?
    ensures CountInv(Step(s, e).value)
  {
    hide Times, LastTaken, RingInv, WakeupInv, MutexInv, HistoryInv, Next;
    match e
    case MainMoves(fd, wake) => CountMain(s, fd, wake);
    case ThreadMoves(t) =>
      if s.threads[t].Taking? {
        CountTake(s, t);
      } else {
        CountThread(s, t);
      }
    case SpuriousWakeup(t) =>
  }

  /* ---- Every run ---- */

  lemma InvStep(s: State, e: Event)
    requires Inv(s) && Step(s, e).Some?
    ensures Inv(Step(s, e).value)
  {
    hide *;
    MutexStep(s, e);
    RingStep(s, e);
    CountStep(s, e);
    WakeupStep(s, e);
    AllOfInv(Step(s, e).value);
  }

  lemma AllOfInv(s: State)
    requires MutexInv(s) && RingInv(s) && HistoryInv(s) && CountInv(s) && WakeupInv(s)
    ensures Inv(s)
  {
  }

  lemma RunInv(n: nat, clifd: seq<int>, es: seq<Event>)
    requires |clifd| == MAXNCLI && Run(Step, Init(n, clifd), es).Some?
    ensures Inv(Run(Step, Init(n, clifd), es).value)
  {
    forall s, e | Inv(s) && Step(s, e).Some?
      ensures Inv(Step(s, e).value)
    {
      InvStep(s, e);
    }
    Invariant(Step, Inv, Init(n, clifd), es);
  }

  /** The descriptors in the ring, as the two indices tell. */
  function Queued(s: State): int {
    if s.iget <= s.iput then s.iput - s.iget else s.iput - s.iget + MAXNCLI
  }

  /** No wakeup is lost: with the mutex free and somebody still asleep, there
      are at least as many threads awake and on their way as descriptors queued,
      for any number of threads and any schedule. */
  lemma NoLostWakeup(n: nat, clifd: seq<int>, es: seq<Event>)
    requires |clifd| == MAXNCLI && Run(Step, Init(n, clifd), es).Some?
    ensures var s := Run(Step, Init(n, clifd), es).value;
            s.owner.Free? && SomeoneSleeps(s.threads) ==> Queued(s) <= WokenCount(s.threads)
  {
    hide Init;
    RunInv(n, clifd, es);
    var s := Run(Step, Init(n, clifd), es).value;
    if s.owner.Free? {
      QueuedIsDifference(GotCount(s), PutCount(s), s);
    }
  }

  lemma QueuedIsDifference(got: nat, put: nat, s: State)
    requires got <= put < got + MAXNCLI && s.iget == got % MAXNCLI && s.iput == put % MAXNCLI
    ensures Queued(s) == put - got
  {
  }

  /** Nothing queued is stranded: as long as main does not hold the mutex and
      the pool is not empty, some thread of the pool can move. */
  lemma PoolMoves(n: nat, clifd: seq<int>, es: seq<Event>) returns (t: nat)
    requires |clifd| == MAXNCLI && 0 < n && Run(Step, Init(n, clifd), es).Some?
    requires var s := Run(Step, Init(n, clifd), es).value;
             !s.owner.MainThread? && Queued(s) > 0
    ensures var s := Run(Step, Init(n, clifd), es).value;
            t < |s.threads| && ThreadStep(s, t).Some?
  {
    RunInv(n, clifd, es);
    RunSize(n, clifd, es);
    var s := Run(Step, Init(n, clifd), es).value;
    if s.owner.Pool? {
      t := s.owner.t;
    } else {
      QueuedIsDifference(GotCount(s), PutCount(s), s);
      var first := s.threads[0];
      if forall u :: 0 <= u < |s.threads| ==> s.threads[u].Asleep? {
        NoneWoken(s.threads);
        assert false;
      }
      t :| 0 <= t < |s.threads| && !s.threads[t].Asleep?;
    }
  }

  lemma {:induction false} NoneWoken(threads: seq<Consumer>)
    requires forall u :: 0 <= u < |threads| ==> threads[u].Asleep?
    ensures WokenCount(threads) == 0
  {
    if threads != [] {
      NoneWoken(threads[..|threads| - 1]);
    }
  }

  lemma RunSize(n: nat, clifd: seq<int>, es: seq<Event>)
    requires Run(Step, Init(n, clifd), es).Some?
    ensures |Run(Step, Init(n, clifd), es).value.threads| == n
  {
    Invariant(Step, (s: State) => |s.threads| == n, Init(n, clifd), es);
  }

  /** The descriptors taken from the ring are, in order and without repetition,
      an initial part of those accepted; each thread's count is the number it
      took, and it serves the one it took last. */
  lemma ServedInOrder(n: nat, clifd: seq<int>, es: seq<Event>)
    requires |clifd| == MAXNCLI && Run(Step, Init(n, clifd), es).Some?
    ensures var s := Run(Step, Init(n, clifd), es).value;
            && s.taken <= s.accepted && |s.accepted| - |s.taken| <= MAXNCLI
            && HistoryInv(s) && CountInv(s)
  {
    RunInv(n, clifd, es);
  }

  /** err_quit happens exactly when the ring has no place left: the process is
      never stopped early, and no descriptor still queued is overwritten. */
  lemma QuitsExactlyWhenFull(n: nat, clifd: seq<int>, es: seq<Event>, fd: int, wake: nat)
    requires |clifd| == MAXNCLI && Run(Step, Init(n, clifd), es).Some?
    ensures var s := Run(Step, Init(n, clifd), es).value;
            s.main.Checking? ==>
              && MainStep(s, fd, wake).Some?
              && (MainStep(s, fd, wake).value.main.Quit? <==> PutCount(s) - GotCount(s) == MAXNCLI)
  {
    RunInv(n, clifd, es);
    var s := Run(Step, Init(n, clifd), es).value;
    DistinctUnlessEmpty(GotCount(s), PutCount(s));
  }

  /* ---- What the events say, and who can move ---- */

  /** accept returns a descriptor when main moves from there. */
  function AcceptNote(s: State, e: Event): seq<int> {
    if s.main.Accepting? && e.MainMoves? then [e.fd] else []
  }

  /** The descriptors accepted are those accept returned. */
  lemma AcceptedAsTold(n: nat, clifd: seq<int>, es: seq<Event>)
    requires Run(Step, Init(n, clifd), es).Some?
    ensures Run(Step, Init(n, clifd), es).value.accepted == Trace(Step, AcceptNote, Init(n, clifd), es)
  {
    var log := (s: State) => s.accepted;
    forall s, e | Step(s, e).Some?
      ensures log(Step(s, e).value) == log(s) + AcceptNote(s, e)
    {
      if e.MainMoves? && s.main.Accepting? {
      } else {
        assert s.accepted + [] == s.accepted;
      }
    }
    LogIsTrace(Step, AcceptNote, log, Init(n, clifd), es);
    assert [] + Trace(Step, AcceptNote, Init(n, clifd), es) == Trace(Step, AcceptNote, Init(n, clifd), es);
  }

  /** Main can always move, whatever accept returns, unless it has quit or waits for
      the mutex. */
  lemma MainEnabled(n: nat, clifd: seq<int>, es: seq<Event>, fd: int)
    requires |clifd| == MAXNCLI && Run(Step, Init(n, clifd), es).Some?
    ensures var s := Run(Step, Init(n, clifd), es).value;
            (exists wake: nat :: Step(s, MainMoves(fd, wake)).Some?)
            <==> !s.main.Quit? && (s.main.MainLocking? ==> s.owner.Free?)
  {
    RunInv(n, clifd, es);
    var s := Run(Step, Init(n, clifd), es).value;
    var wake: nat := 0;
    if SomeoneSleeps(s.threads) {
      wake :| 0 <= wake < |s.threads| && s.threads[wake].Asleep?;
    }
    assert !s.main.Quit? && (s.main.MainLocking? ==> s.owner.Free?) ==> Step(s, MainMoves(fd, wake)).Some?;
  }

  /** So can every thread, unless it sleeps or waits for the mutex. */
  lemma ThreadEnabled(n: nat, clifd: seq<int>, es: seq<Event>, t: nat)
    requires |clifd| == MAXNCLI && t < n && Run(Step, Init(n, clifd), es).Some?
    ensures var s := Run(Step, Init(n, clifd), es).value;
            && |s.threads| == n
            && (Step(s, ThreadMoves(t)).Some?
                <==> !s.main.Quit? && !s.threads[t].Asleep?
                     && (s.threads[t].Locking? || s.threads[t].Woken? ==> s.owner.Free?))
  {
    hide Times, LastTaken, WokenCount;
    RunInv(n, clifd, es);
    RunSize(n, clifd, es);
  }

  /* ---- A round of main, and one of a thread, undisturbed ---- */

  lemma MainStart(s: State)
    requires Inv(s)
    ensures s.iput < |s.clifd|
  {
    hide Times, LastTaken, WokenCount;
  }

  /** Main puts its descriptor in the ring, wakes a sleeper if there is one, leaves the
      mutex free and goes back to accept. */
  lemma MainRound(s: State, fd: int, wake: nat)
    requires Inv(s) && s.main.MainLocking? && s.owner.Free? && Next(s.iput) != s.iget
    requires SomeoneSleeps(s.threads) ==> wake < |s.threads| && s.threads[wake].Asleep?
    ensures s.iput < |s.clifd|
    ensures Run(Step, s, Repeat(MainMoves(fd, wake), 6))
         == Some(s.(main := Accepting, clifd := s.clifd[s.iput := s.main.fd], iput := Next(s.iput),
                    threads := if SomeoneSleeps(s.threads) then s.threads[wake := Woken] else s.threads))
  {
    hide Run, Repeat, Next, Inv;
    MainStart(s);
    var e, c := MainMoves(fd, wake), s.main.fd;
    RunRepeat(Step, s, e, 5);
    var s1 := s.(main := Putting(c), owner := MainThread);
    RunRepeat(Step, s1, e, 4);
    var s2 := s1.(main := MainAdvancing, clifd := s.clifd[s.iput := c]);
    RunRepeat(Step, s2, e, 3);
    var s3 := s2.(main := Checking, iput := Next(s.iput));
    RunRepeat(Step, s3, e, 2);
    var s4 := s3.(main := Signalling);
    RunRepeat(Step, s4, e, 1);
    var s5 := s4.(main := MainUnlocking,
                  threads := if SomeoneSleeps(s.threads) then s.threads[wake := Woken] else s.threads);
    assert Step(s4, e) == Some(s5);
    RunRepeat(Step, s5, e, 0);
    RunRepeat(Step, s5.(main := Accepting, owner := Free), e, 0);
  }

  lemma RoundStart(s: State, t: nat)
    requires Inv(s) && t < |s.threads|
    ensures s.iget < |s.clifd| && t < |s.counts|
  {
    hide Times, LastTaken, WokenCount;
  }

  /** A thread takes the descriptor at the head of the ring, leaves the mutex free,
      counts the connection and serves it; then it starts again. */
  lemma ThreadRound(s: State, t: nat)
    requires Inv(s) && !s.main.Quit? && s.owner.Free? && s.iget != s.iput
    requires t < |s.threads| && (s.threads[t].Locking? || s.threads[t].Woken?)
    ensures s.iget < |s.clifd| && t < |s.counts|
    ensures var fd := s.clifd[s.iget];
            var u := s.(threads := s.threads[t := Serving(fd)], iget := Next(s.iget),
                        counts := s.counts[t := s.counts[t] + 1], taken := s.taken + [fd], takenBy := s.takenBy + [t]);
            && Run(Step, s, Repeat(ThreadMoves(t), 6)) == Some(u)
            && Step(u, ThreadMoves(t)) == Some(u.(threads := u.threads[t := Locking]))
  {
    hide Run, Repeat, Next, Inv;
    RoundStart(s, t);
    var e, ts, fd := ThreadMoves(t), s.threads, s.clifd[s.iget];
    var s1 := s.(threads := ts[t := Testing], owner := Pool(t));
    RunRepeat(Step, s, e, 5);
    SetAgain(ts, t, Testing, Taking);
    var s2 := s1.(threads := ts[t := Taking]);
    assert Step(s1, e) == Some(s2);
    RunRepeat(Step, s1, e, 4);
    SetAgain(ts, t, Taking, Advancing(fd));
    var s3 := s2.(threads := ts[t := Advancing(fd)], taken := s.taken + [fd], takenBy := s.takenBy + [t]);
    assert Step(s2, e) == Some(s3);
    RunRepeat(Step, s2, e, 3);
    SetAgain(ts, t, Advancing(fd), Unlocking(fd));
    var s4 := s3.(threads := ts[t := Unlocking(fd)], iget := Next(s.iget));
    assert Step(s3, e) == Some(s4);
    RunRepeat(Step, s3, e, 2);
    SetAgain(ts, t, Unlocking(fd), Counting(fd));
    var s5 := s4.(threads := ts[t := Counting(fd)], owner := Free);
    assert Step(s4, e) == Some(s5);
    RunRepeat(Step, s4, e, 1);
    SetAgain(ts, t, Counting(fd), Serving(fd));
    var s6 := s5.(threads := ts[t := Serving(fd)], counts := s.counts[t := s.counts[t] + 1]);
    assert Step(s5, e) == Some(s6);
    RunRepeat(Step, s5, e, 0);
    RunRepeat(Step, s6, e, 0);
  }

  /** With nothing queued it goes to sleep and leaves the mutex free. */
  lemma ThreadSleeps(s: State, t: nat)
    requires Inv(s) && !s.main.Quit? && s.owner.Free? && s.iget == s.iput
    requires t < |s.threads| && (s.threads[t].Locking? || s.threads[t].Woken?)
    ensures Run(Step, s, Repeat(ThreadMoves(t), 2)) == Some(s.(threads := s.threads[t := Asleep]))
  {
    hide Run, Repeat, Next, Inv;
    var e, ts := ThreadMoves(t), s.threads;
    var s1 := s.(threads := ts[t := Testing], owner := Pool(t));
    RunRepeat(Step, s, e, 1);
    SetAgain(ts, t, Testing, Asleep);
    assert Step(s1, e) == Some(s.(threads := ts[t := Asleep]));
    RunRepeat(Step, s1, e, 0);
    RunRepeat(Step, s.(threads := ts[t := Asleep]), e, 0);
  }

  /* ---- The program ---- */

  /** The server's memory.  Each method is the statement at which main or a
      thread stands, run as one atomic step. */
  class Server {
    var clifd: array<int>
    var iget: nat
    var iput: nat
    var owner: Owner
    var main: Main
    var threads: seq<Consumer>
    var counts: seq<nat>
    ghost var accepted: seq<int>
    ghost var taken: seq<int>
    ghost var takenBy: seq<nat>

    ghost function View(): State
      reads this, clifd
    {
      State(clifd[..], iget, iput, owner, main, threads, counts, accepted, taken, takenBy)
    }

    constructor (n: nat)
      ensures fresh(clifd) && clifd.Length == MAXNCLI && View() == Init(n, clifd[..])
    {
      clifd := new int[MAXNCLI];
      iget, iput, owner, main := 0, 0, Free, Accepting;
      threads := seq(n, _ => Locking);
      counts := seq(n, _ => 0);
      accepted, taken, takenBy := [], [], [];
    }

    /** main moves; `fd` is what accept returns, `wake` whom a signal wakes. */
    method MainMove(fd: int, wake: nat)
      requires Step(View(), MainMoves(fd, wake)).Some?
      modifies this, clifd
      ensures clifd == old(clifd)
      ensures View() == Step(old(View()), MainMoves(fd, wake)).value
    {
      match main
      case Accepting =>
        main := MainLocking(fd);
        accepted := accepted + [fd];
      case MainLocking(connfd) =>
        owner := MainThread;
        main := Putting(connfd);
      case Putting(connfd) =>
        clifd[iput] := connfd;
        main := MainAdvancing;
      case MainAdvancing =>
        iput := iput + 1;
        if iput == MAXNCLI {
          iput := 0;
        }
        main := Checking;
      case Checking =>
        main := if iput == iget then Quit else Signalling;
      case Signalling =>
        if wake < |threads| && threads[wake].Asleep? {
          threads := threads[wake := Woken];
        }
        main := MainUnlocking;
      case MainUnlocking =>
        owner := Free;
        main := Accepting;
    }

    /** Thread `t` moves. */
    method ThreadMove(t: nat)
      requires t < |threads| && Step(View(), ThreadMoves(t)).Some?
      modifies this
      ensures clifd == old(clifd)
      ensures View() == Step(old(View()), ThreadMoves(t)).value
    {
      match threads[t]
      case Locking =>
        owner := Pool(t);
        threads := threads[t := Testing];
      case Testing =>
        if iget == iput {
          owner := Free;
          threads := threads[t := Asleep];
        } else {
          threads := threads[t := Taking];
        }
      case Woken =>
        owner := Pool(t);
        threads := threads[t := Testing];
      case Taking =>
        var connfd := clifd[iget];
        threads := threads[t := Advancing(connfd)];
        taken, takenBy := taken + [connfd], takenBy + [t];
      case Advancing(connfd) =>
        iget := iget + 1;
        if iget == MAXNCLI {
          iget := 0;
        }
        threads := threads[t := Unlocking(connfd)];
      case Unlocking(connfd) =>
        owner := Free;
        threads := threads[t := Counting(connfd)];
      case Counting(connfd) =>
        counts := counts[t := counts[t] + 1];
        threads := threads[t := Serving(connfd)];
      case Serving(connfd) =>
        threads := threads[t := Locking];
    }
  }

}
