/**
 The single-process server around select: a table of client descriptors, the
 descriptor set handed to select, and the two bounds `maxi` and `maxfd`.
 */
module SelectServer {
  import opened Common
  import opened Runs

  const FD_SETSIZE := 1024

  datatype Table = Table(listenfd: int, client: seq<int>, allset: set<int>, maxi: int, maxfd: int)

  function Init(listenfd: int): Table {
    Table(listenfd, seq(FD_SETSIZE, _ => -1), {listenfd}, -1, listenfd)
  }

  /** The descriptors in the table. */
  function Clients(client: seq<int>): set<int> {
    set i | 0 <= i < |client| && client[i] >= 0 :: client[i]
  }

  /** The set, the table and the bounds tell one story. */
  ghost predicate Consistent(t: Table) {
    && |t.client| == FD_SETSIZE && -1 <= t.maxi < FD_SETSIZE && t.listenfd >= 0
    && (forall i :: 0 <= i < FD_SETSIZE ==> t.client[i] >= -1)
    && (forall i, j :: 0 <= i < j < FD_SETSIZE && t.client[i] >= 0 ==> t.client[i] != t.client[j])
    && (forall i :: t.maxi < i < FD_SETSIZE ==> t.client[i] == -1)
    && t.listenfd !in Clients(t.client)
    && t.allset == {t.listenfd} + Clients(t.client)
    && (forall fd :: fd in t.allset ==> fd <= t.maxfd)
  }

  /* ---- What an iteration should do, without loops or early exits ---- */

  /** The first available entry, or the length of the table. */
  function FirstFree(client: seq<int>, i: nat): (k: nat)
    requires i <= |client|
    ensures i <= k <= |client|
    ensures forall j :: i <= j < k ==> client[j] >= 0
    ensures k < |client| ==> client[k] < 0
    decreases |client| - i
  {
    if i == |client| || client[i] < 0 then i else FirstFree(client, i + 1)
  }

  function Max(a: int, b: int): int {
    if a < b then b else a
  }

  /** A new connection enters the table; None is "too many clients". */
  function Admit(t: Table, connfd: int): Option<Table> {
    var k := FirstFree(t.client, 0);
    if k == |t.client| then None
    else Some(t.(client := t.client[k := connfd], allset := t.allset + {connfd},
                 maxi := Max(t.maxi, k), maxfd := Max(t.maxfd, connfd)))
  }

  /** The connections in `closed` leave. */
  function Drop(t: Table, closed: set<int>): Table {
    t.(client := seq(|t.client|, i requires 0 <= i < |t.client| => if t.client[i] in closed then -1 else t.client[i]),
       allset := t.allset - closed)
  }

  /** `rset` is what select reports, `connfd` what accept returns, and `eof`
      the connections on which read returns 0. */
  datatype Event = Event(rset: set<int>, connfd: int, eof: set<int>)

  /** select reports something it was asked about, and accept returns a
      descriptor that is not open. */
  predicate Possible(t: Table, e: Event) {
    && e.rset != {} && e.rset <= t.allset
    && (t.listenfd in e.rset ==> e.connfd >= 0 && e.connfd !in t.allset)
  }

  /** The connections that close. */
  function Closed(t: Table, e: Event): set<int> {
    e.rset * e.eof - {t.listenfd}
  }

  /** One turn of the loop; None also stands for "too many clients". */
  function Step(t: Table, e: Event): Option<Table> {
    if !Possible(t, e) then None
    else if t.listenfd !in e.rset then Some(Drop(t, Closed(t, e)))
    else
      match Admit(t, e.connfd)
      case None => None
      case Some(u) => Some(Drop(u, Closed(t, e)))
  }

  lemma AdmitKeeps(t: Table, connfd: int)
    requires Consistent(t) && connfd >= 0 && connfd !in t.allset && Admit(t, connfd).Some?
    ensures Consistent(Admit(t, connfd).value)
  {
    var k := FirstFree(t.client, 0);
    var u := Admit(t, connfd).value;
    forall i | 0 <= i < FD_SETSIZE && t.client[i] >= 0
      ensures t.client[i] in t.allset
    {
    }
    assert forall i :: 0 <= i < FD_SETSIZE && i != k ==> u.client[i] == t.client[i];
    assert u.client[k] == connfd;
    forall fd | fd in Clients(t.client)
      ensures fd in Clients(u.client)
    {
      var i :| 0 <= i < FD_SETSIZE && t.client[i] >= 0 && t.client[i] == fd;
      assert u.client[i] == fd;
    }
    assert Clients(u.client) == Clients(t.client) + {connfd};
  }

  lemma DropKeeps(t: Table, closed: set<int>)
    requires Consistent(t) && t.listenfd !in closed
    ensures Consistent(Drop(t, closed))
  {
    var u := Drop(t, closed);
    forall fd | fd in Clients(t.client) - closed
      ensures fd in Clients(u.client)
    {
      var i :| 0 <= i < FD_SETSIZE && t.client[i] >= 0 && t.client[i] == fd;
      assert u.client[i] == fd;
    }
    assert Clients(u.client) == Clients(t.client) - closed;
  }

  /** At every select, for every history of connections, data and closes: the
      set is the listening descriptor plus the table, the entries are distinct,
      nothing lies above `maxi`, and `maxfd` bounds the set. */
  lemma AlwaysConsistent(listenfd: int, es: seq<Event>)
    requires listenfd >= 0 && Run(Step, Init(listenfd), es).Some?
    ensures Consistent(Run(Step, Init(listenfd), es).value)
  {
    forall t, e | Consistent(t) && Step(t, e).Some?
      ensures Consistent(Step(t, e).value)
    {
      if t.listenfd in e.rset {
        AdmitKeeps(t, e.connfd);
        DropKeeps(Admit(t, e.connfd).value, Closed(t, e));
      } else {
        DropKeeps(t, Closed(t, e));
      }
    }
    assert Clients(Init(listenfd).client) == {};
    Invariant(Step, Consistent, Init(listenfd), es);
  }

  /* ---- The connections, read off the events alone ---- */

  ghost predicate FirstNegative(client: seq<int>, k: nat) {
    k < |client| && client[k] < 0 && forall i :: 0 <= i < k ==> client[i] >= 0
  }

  ghost predicate NoneNegative(client: seq<int>) {
    forall i :: 0 <= i < |client| ==> client[i] >= 0
  }

  /** Admitting fails exactly if every entry is taken; else the first free entry, and no
      other, becomes the new descriptor, which joins the set. */
  lemma AdmitTakesFirst(t: Table, connfd: int)
    ensures Admit(t, connfd).None? <==> NoneNegative(t.client)
    ensures Admit(t, connfd).Some? ==>
              var u := Admit(t, connfd).value;
              && (exists k: nat :: FirstNegative(t.client, k) && u.client == t.client[k := connfd] && u.maxi == Max(t.maxi, k))
              && u.allset == t.allset + {connfd} && u.maxfd == Max(t.maxfd, connfd) && u.listenfd == t.listenfd
  {
    var k := FirstFree(t.client, 0);
    if k < |t.client| {
      assert FirstNegative(t.client, k);
    }
  }

  /** What select reported, the listening descriptor aside, and read found closed. */
  function Ended(listenfd: int, e: Event): set<int> {
    set fd | fd in e.rset && fd in e.eof && fd != listenfd
  }

  function Accepted(listenfd: int, e: Event): set<int> {
    if listenfd in e.rset then {e.connfd} else {}
  }

  lemma AdmitAdds(t: Table, connfd: int)
    requires Consistent(t) && connfd >= 0 && connfd !in t.allset && Admit(t, connfd).Some?
    ensures Clients(Admit(t, connfd).value.client) == Clients(t.client) + {connfd}
  {
    AdmitKeeps(t, connfd);
    var u := Admit(t, connfd).value;
    assert u.allset == t.allset + {connfd};
    assert Clients(u.client) == u.allset - {t.listenfd};
    assert Clients(t.client) == t.allset - {t.listenfd};
  }

  lemma DropTakes(t: Table, closed: set<int>)
    requires Consistent(t) && t.listenfd !in closed
    ensures Clients(Drop(t, closed).client) == Clients(t.client) - closed
  {
    DropKeeps(t, closed);
    var u := Drop(t, closed);
    assert Clients(u.client) == u.allset - {t.listenfd};
    assert Clients(t.client) == t.allset - {t.listenfd};
  }

  /** One turn: the new connection comes in, those at end of file go. */
  lemma StepConnections(t: Table, e: Event)
    requires Consistent(t) && Step(t, e).Some?
    ensures Clients(Step(t, e).value.client) == Clients(t.client) + Accepted(t.listenfd, e) - Ended(t.listenfd, e)
    ensures Step(t, e).value.listenfd == t.listenfd
  {
    hide Consistent, Clients, Admit, Drop;
    assert Closed(t, e) == Ended(t.listenfd, e);
    if t.listenfd in e.rset {
      AdmitAdds(t, e.connfd);
      AdmitKeeps(t, e.connfd);
      AdmitTakesFirst(t, e.connfd);
      var u := Admit(t, e.connfd).value;
      DropTakes(u, Closed(t, e));
      DropListens(u, Closed(t, e));
    } else {
      DropTakes(t, Closed(t, e));
      DropListens(t, Closed(t, e));
    }
  }

  lemma DropListens(t: Table, closed: set<int>)
    ensures Drop(t, closed).listenfd == t.listenfd
  {
  }

  /** What a turn needs of its parts. */
  lemma TurnSteps(t: Table, e: Event)
    requires Consistent(t) && Possible(t, e)
    ensures |t.client| == FD_SETSIZE && t.listenfd !in Closed(t, e)
    ensures Admit(t, e.connfd).None? <==> NoneNegative(t.client)
    ensures Step(t, e).None? <==> t.listenfd in e.rset && NoneNegative(t.client)
    ensures var u := if t.listenfd in e.rset then Admit(t, e.connfd) else Some(t);
            u.Some? ==>
              && Consistent(u.value) && u.value.listenfd == t.listenfd
              && e.rset - {t.listenfd} <= Clients(u.value.client)
              && Step(t, e) == Some(Drop(u.value, Closed(t, e))) && Closed(u.value, e) == Closed(t, e)
              && Consistent(Step(t, e).value)
              && Clients(Step(t, e).value.client) == Clients(t.client) + Accepted(t.listenfd, e) - Ended(t.listenfd, e)
  {
    hide Clients, Drop;
    AdmitTakesFirst(t, e.connfd);
    WithinTable(t, e.rset);
    if t.listenfd !in e.rset {
      DropKeeps(t, Closed(t, e));
      StepConnections(t, e);
    } else if Admit(t, e.connfd).Some? {
      var u := Admit(t, e.connfd).value;
      AdmitKeeps(t, e.connfd);
      WithinTable(u, e.rset);
      DropKeeps(u, Closed(t, e));
      StepConnections(t, e);
    }
  }

  lemma WithinTable(t: Table, rset: set<int>)
    requires Consistent(t) && rset <= t.allset
    ensures rset - {t.listenfd} <= Clients(t.client)
  {
    hide Clients;
  }

  /** The connections open after these events, by the events alone. */
  function Open(listenfd: int, es: seq<Event>): set<int> {
    if es == [] then {}
    else
      var e := es[|es| - 1];
      Open(listenfd, es[..|es| - 1]) + Accepted(listenfd, e) - Ended(listenfd, e)
  }

  lemma {:induction false} RunConnections(listenfd: int, es: seq<Event>)
    requires listenfd >= 0 && Run(Step, Init(listenfd), es).Some?
    ensures var t := Run(Step, Init(listenfd), es).value;
            t.listenfd == listenfd && Clients(t.client) == Open(listenfd, es)
  {
    hide Step, Consistent, Clients, Accepted, Ended;
    if es == [] {
      FirstConnections(listenfd);
    } else {
      var init, e := es[..|es| - 1], es[|es| - 1];
      assert es == init + [e];
      RunSplit(Step, Init(listenfd), init, [e]);
      RunConnections(listenfd, init);
      AlwaysConsistent(listenfd, init);
      var t := Run(Step, Init(listenfd), init).value;
      RunOne(Step, t, e);
      StepConnections(t, e);
    }
  }

  lemma FirstConnections(listenfd: int)
    ensures Run(Step, Init(listenfd), []) == Some(Init(listenfd))
    ensures Init(listenfd).listenfd == listenfd && Clients(Init(listenfd).client) == {}
  {
  }

  /** At every select the set is the listening descriptor and the connections accepted
      and not yet found closed. */
  lemma WatchesOpenConnections(listenfd: int, es: seq<Event>)
    requires listenfd >= 0 && Run(Step, Init(listenfd), es).Some?
    ensures Run(Step, Init(listenfd), es).value.allset == {listenfd} + Open(listenfd, es)
  {
    AlwaysConsistent(listenfd, es);
    RunConnections(listenfd, es);
  }

  /* ---- The program ---- */

  class Server {
    const listenfd: int
    var client: array<int>
    var allset: set<int>
    var maxi: int
    var maxfd: int

    ghost function View(): Table
      reads this, client
    {
      Table(listenfd, client[..], allset, maxi, maxfd)
    }

    constructor (listenfd: int)
      ensures fresh(client) && client.Length == FD_SETSIZE && View() == Init(listenfd)
    {
      this.listenfd := listenfd;
      maxfd, maxi := listenfd, -1;
      client := new int[FD_SETSIZE](_ => -1);
      allset := {listenfd};
    }

    /** One turn of the loop.  `served` lists the connections that were read,
        `full` is "too many clients". */
    method Turn(e: Event) returns (full: bool, served: seq<int>)
      requires Consistent(View()) && Possible(View(), e)
      modifies this, client
      ensures client == old(client)
      ensures full <==> listenfd in e.rset && NoneNegative(old(client[..]))
      ensures full ==> View() == old(View()) && served == []
      ensures !full ==> View() == Step(old(View()), e).value && Consistent(View())
      ensures !full ==>
                Clients(client[..]) == Clients(old(client[..])) + Accepted(listenfd, e) - Ended(listenfd, e)
      ensures !full ==> forall fd :: fd in served <==> fd in e.rset && fd != listenfd
      ensures forall j, k :: 0 <= j < k < |served| ==> served[j] != served[k]
    {
      hide Consistent, Clients, Admit, Drop, NoneNegative, Accepted, Ended;
      var nready := |e.rset|;
      served := [];
      ghost var before := View();
      TurnSteps(before, e);
      if listenfd in e.rset {
        full := Accept(e.connfd);
        if full {
          return;
        }
        nready := nready - 1;
        if nready <= 0 {
          OnlyListening(e.rset, listenfd);
          DropNothing(View(), Closed(before, e));
          return;
        }
      }
      served := ServeClients(e, nready);
      full := false;
    }

    /** The new connection takes the first available entry. */
    method Accept(connfd: int) returns (full: bool)
      requires client.Length == FD_SETSIZE
      modifies this, client
      ensures client == old(client)
      ensures full <==> NoneNegative(old(client[..]))
      ensures !full ==> exists k: nat :: FirstNegative(old(client[..]), k) && client[..] == old(client[..])[k := connfd]
      ensures !full ==> allset == old(allset) + {connfd}
      ensures full == Admit(old(View()), connfd).None?
      ensures View() == if full then old(View()) else Admit(old(View()), connfd).value
    {
      var i := 0;
      while i < FD_SETSIZE
        invariant 0 <= i <= FD_SETSIZE && unchanged(this) && unchanged(client)
        invariant FirstFree(client[..], 0) == FirstFree(client[..], i)
      {
        if client[i] < 0 {
          client[i] := connfd;
          break;
        }
        i := i + 1;
      }
      AdmitTakesFirst(old(View()), connfd);
      if i == FD_SETSIZE {
        return true;
      }
      allset := allset + {connfd};
      if connfd > maxfd {
        maxfd := connfd;
      }
      if i > maxi {
        maxi := i;
      }
      full := false;
    }

    /** The loop over the table, which stops after `nready` descriptors. */
    method ServeClients(e: Event, nready: int) returns (served: seq<int>)
      requires Consistent(View()) && 0 < nready == |e.rset - {listenfd}|
      requires e.rset - {listenfd} <= Clients(client[..])
      modifies this, client
      ensures client == old(client)
      ensures View() == Drop(old(View()), Closed(old(View()), e))
      ensures forall fd :: fd in served <==> fd in e.rset && fd != listenfd
      ensures forall j, k :: 0 <= j < k < |served| ==> served[j] != served[k]
    {
      hide Progress, Lists, Consistent, Drop, Clients;
      served := [];
      ghost var t := View();
      ghost var wanted, done := e.rset - {listenfd}, {};
      ProgressStart(t, e);
      var left, i := nready, 0;
      while i <= maxi
        invariant client == old(client) && client.Length == FD_SETSIZE
        invariant 0 <= i <= maxi + 1 <= FD_SETSIZE && View() == t.(client := client[..], allset := allset)
        invariant left == |wanted| - |done| && left > 0
        invariant Progress(t, e, client[..], allset, i, done)
        invariant Lists(served, done)
      {
        var sockfd := client[i];
        ghost var c := client[..];
        if sockfd >= 0 && sockfd in e.rset {
          ServeOne(t, e, c, allset, i, done);
          served := served + [sockfd];
          ListsMore(served, done);
          if sockfd in e.eof {
            allset := allset - {sockfd};
            client[i] := -1;
          }
          assert client[..] == if sockfd in e.eof then c[i := -1] else c;
          done := done + {sockfd};
          left := left - 1;
          if left <= 0 {
            i := i + 1;
            ProgressWithin(t, e, client[..], allset, i, done);
            SameSize(done, wanted);
            break;
          }
        } else {
          SkipOne(t, e, c, allset, i, done);
        }
        i := i + 1;
      }
      if left > 0 {
        AllSeen(t, e, client[..], allset, i, done);
      }
      Finished(t, e, client[..], allset, i, done);
      ListsAll(served, done);
    }
  }

  /** `served` lists the elements of `done`, each once. */
  ghost predicate Lists(served: seq<int>, done: set<int>) {
    && (forall fd :: fd in served <==> fd in done)
    && forall j, k :: 0 <= j < k < |served| ==> served[j] != served[k]
  }

  /** The scan of table `t` has passed `i` entries and read those in `done`. */
  ghost predicate Progress(t: Table, e: Event, client: seq<int>, allset: set<int>, i: int, done: set<int>) {
    && Consistent(t) && |client| == FD_SETSIZE && 0 <= i <= FD_SETSIZE
    && done <= e.rset - {t.listenfd}
    && (forall k :: 0 <= k < i ==> (t.client[k] in e.rset && t.client[k] >= 0 <==> t.client[k] in done))
    && (forall k :: i <= k < FD_SETSIZE ==> t.client[k] !in done && client[k] == t.client[k])
    && (forall k :: 0 <= k < i ==> client[k] == if t.client[k] in Closed(t, e) then -1 else t.client[k])
    && allset == t.allset - done * e.eof
  }

  lemma ProgressStart(t: Table, e: Event)
    requires Consistent(t)
    ensures Progress(t, e, t.client, t.allset, 0, {}) && Lists([], {})
    ensures |t.client| == FD_SETSIZE && -1 <= t.maxi < FD_SETSIZE
  {
  }

  /** Entry `i` was reported: it is read, and cleared at end of file. */
  lemma ServeOne(t: Table, e: Event, client: seq<int>, allset: set<int>, i: int, done: set<int>)
    requires Progress(t, e, client, allset, i, done) && i < FD_SETSIZE
    requires client[i] >= 0 && client[i] in e.rset
    ensures client[i] !in done && client[i] != t.listenfd
    ensures var fd := client[i];
            if fd in e.eof then Progress(t, e, client[i := -1], allset - {fd}, i + 1, done + {fd})
            else Progress(t, e, client, allset, i + 1, done + {fd})
  {
    assert client[i] in Clients(t.client);
  }

  /** Entry `i` is free or was not reported. */
  lemma SkipOne(t: Table, e: Event, client: seq<int>, allset: set<int>, i: int, done: set<int>)
    requires Progress(t, e, client, allset, i, done) && i < FD_SETSIZE
    requires client[i] < 0 || client[i] !in e.rset
    ensures Progress(t, e, client, allset, i + 1, done)
  {
    assert client[i] < 0 ==> client[i] == -1 && client[i] !in t.allset;
  }

  lemma ProgressWithin(t: Table, e: Event, client: seq<int>, allset: set<int>, i: int, done: set<int>)
    requires Progress(t, e, client, allset, i, done)
    ensures done <= e.rset - {t.listenfd}
  {
  }

  lemma ListsMore(served: seq<int>, done: set<int>)
    requires served != [] && Lists(served[..|served| - 1], done) && served[|served| - 1] !in done
    ensures Lists(served, done + {served[|served| - 1]})
  {
    var rest := served[..|served| - 1];
    assert served == rest + [served[|served| - 1]];
  }

  lemma ListsAll(served: seq<int>, done: set<int>)
    requires Lists(served, done)
    ensures forall fd :: fd in served <==> fd in done
    ensures forall j, k :: 0 <= j < k < |served| ==> served[j] != served[k]
  {
  }

  lemma SameSize(a: set<int>, b: set<int>)
    requires a <= b && |a| >= |b|
    ensures a == b
  {
    assert b == a + (b - a);
  }

  /** Past `maxi` nothing is left to serve. */
  lemma AllSeen(t: Table, e: Event, client: seq<int>, allset: set<int>, i: int, done: set<int>)
    requires Progress(t, e, client, allset, i, done) && i == t.maxi + 1
    requires e.rset - {t.listenfd} <= Clients(t.client)
    ensures done == e.rset - {t.listenfd}
  {
    forall fd | fd in e.rset - {t.listenfd}
      ensures fd in done
    {
      var k :| 0 <= k < FD_SETSIZE && t.client[k] >= 0 && t.client[k] == fd;
      assert k < i;
    }
  }

  /** Once everything reported is read, the rest of the table needs no change. */
  lemma Finished(t: Table, e: Event, client: seq<int>, allset: set<int>, i: int, done: set<int>)
    requires Progress(t, e, client, allset, i, done) && done == e.rset - {t.listenfd}
    ensures t.(client := client, allset := allset) == Drop(t, Closed(t, e))
  {
    assert Closed(t, e) == done * e.eof;
  }

  /** A report of the listening descriptor alone. */
  lemma OnlyListening(rset: set<int>, listenfd: int)
    requires listenfd in rset && |rset| <= 1
    ensures rset == {listenfd}
  {
    var rest := rset - {listenfd};
    assert rset == rest + {listenfd};
    assert |rest| == 0;
  }

  lemma DropNothing(t: Table, closed: set<int>)
    requires closed == {}
    ensures Drop(t, closed) == t
  {
  }

}
