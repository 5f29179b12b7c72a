/**
 The list that getaddrinfo builds: one entry for each address of the host, cloned
 for each kind of socket the service has, and freed node by node.
 */
module AddrInfo {
  import opened Common
  import opened Inet4

  const SOCK_STREAM := 1
  const SOCK_DGRAM := 2

  const EAI_MEMORY := 6
  const EAI_NONAME := 8
  const EAI_SERVICE := 9

  datatype Family = INET | INET6 | OTHER(n: int)

  predicate Known(f: Family) {
    f.INET? || f.INET6?
  }

  /** A socket address, and a list entry, as values; `clone` is the AI_CLONE flag. */
  datatype Addr = Addr(family: Family, host: string, port: nat)
  datatype Entry = Entry(clone: bool, family: Family, socktype: int, protocol: int, addr: Option<Addr>)

  /* ---- The passes, on values ---- */

  /** An entry that gets its port. */
  function Fill(e: Entry, port: nat, socktype: int): Entry {
    e.(socktype := socktype,
       addr := if Known(e.family) && e.addr.Some? then Some(e.addr.value.(port := port)) else e.addr)
  }

  /** What becomes of one entry in a pass. */
  function PassEntry(e: Entry, port: nat, socktype: int): seq<Entry> {
    if e.clone && e.socktype != 0 then [e, Fill(e.(clone := false), port, socktype)]
    else if e.clone || e.socktype == socktype then [Fill(e, port, socktype)]
    else [e]
  }

  function PassHits(e: Entry, socktype: int): nat {
    if (e.clone || e.socktype == socktype) && Known(e.family) then 1 else 0
  }

  function Pass(es: seq<Entry>, port: nat, socktype: int): seq<Entry> {
    if es == [] then []
    else Pass(es[..|es| - 1], port, socktype) + PassEntry(es[|es| - 1], port, socktype)
  }

  function Hits(es: seq<Entry>, socktype: int): nat {
    if es == [] then 0
    else Hits(es[..|es| - 1], socktype) + PassHits(es[|es| - 1], socktype)
  }

  /** The list when the pass has dealt with the first `k` of the entries it found. */
  ghost function PassTo(es: seq<Entry>, k: nat, port: nat, socktype: int): seq<Entry>
    requires k <= |es|
  {
    Pass(es[..k], port, socktype) + es[k..]
  }

  lemma PassPrefix(es: seq<Entry>, k: nat, port: nat, socktype: int)
    requires k < |es|
    ensures Pass(es[..k + 1], port, socktype) == Pass(es[..k], port, socktype) + PassEntry(es[k], port, socktype)
    ensures Hits(es[..k + 1], socktype) == Hits(es[..k], socktype) + PassHits(es[k], socktype)
  {
    assert es[..k + 1][..k] == es[..k];
  }

  lemma Replace<T>(a: seq<T>, x: T, b: seq<T>, group: seq<T>)
    ensures var now := a + ([x] + b);
            && now[|a|] == x
            && (|group| == 1 ==> (a + group) + b == now[|a| := group[0]])
            && (|group| == 2 && group[0] == x ==> (a + group) + b == Insert(now, |a| + 1, group[1]))
  {
  }

  predicate NeedsClone(e: Entry) {
    e.clone && e.socktype != 0
  }

  /** The entries after the pass has dealt with number `d`: a clone of it filled in,
      itself filled in, or no change. */
  function Turned(now: seq<Entry>, d: nat, port: nat, socktype: int): seq<Entry>
    requires d < |now|
  {
    var e := now[d];
    if NeedsClone(e) then Insert(now, d + 1, Fill(e.(clone := false), port, socktype))
    else if e.clone || e.socktype == socktype then now[d := Fill(e, port, socktype)]
    else now
  }

  lemma PassNext(es: seq<Entry>, k: nat, port: nat, socktype: int)
    requires k < |es|
    ensures var e, d := es[k], |Pass(es[..k], port, socktype)|;
            var now, next := PassTo(es, k, port, socktype), PassTo(es, k + 1, port, socktype);
            && d < |now| && now[d] == e
            && |Pass(es[..k + 1], port, socktype)| == d + (if NeedsClone(e) then 2 else 1)
            && next == Turned(now, d, port, socktype)
  {
    hide Fill, Pass, Hits;
    PassPrefix(es, k, port, socktype);
    Replace(Pass(es[..k], port, socktype), es[k], es[k + 1..], PassEntry(es[k], port, socktype));
    assert es[k..] == [es[k]] + es[k + 1..];
  }

  lemma PassFirst(es: seq<Entry>, port: nat, socktype: int)
    ensures PassTo(es, 0, port, socktype) == es
    ensures |Pass(es[..0], port, socktype)| == 0 && Hits(es[..0], socktype) == 0
  {
  }

  lemma PassLength(es: seq<Entry>, k: nat, port: nat, socktype: int)
    requires k <= |es|
    ensures |PassTo(es, k, port, socktype)| == |Pass(es[..k], port, socktype)| + |es| - k
  {
  }

  lemma PassLast(es: seq<Entry>, port: nat, socktype: int)
    ensures PassTo(es, |es|, port, socktype) == Pass(es, port, socktype)
    ensures Hits(es[..|es|], socktype) == Hits(es, socktype)
  {
    assert es[..|es|] == es;
  }

  /* ---- A pass, field by field ---- */

  /** The entries among the first `k` that get a clone. */
  function ClonesBefore(es: seq<Entry>, k: nat): nat
    requires k <= |es|
  {
    if k == 0 then 0 else ClonesBefore(es, k - 1) + if es[k - 1].clone && es[k - 1].socktype != 0 then 1 else 0
  }

  /** `a` is `e` with this flag, kind of socket and, for an IPv4 or IPv6 entry, port. */
  predicate Ported(a: Entry, e: Entry, clone: bool, socktype: int, port: nat) {
    && a.clone == clone && a.socktype == socktype && a.family == e.family && a.protocol == e.protocol
    && (if Known(e.family) && e.addr.Some? then
          a.addr == Some(Addr(e.addr.value.family, e.addr.value.host, port))
        else a.addr == e.addr)
  }

  /** What became of entry number `k`: an original already used stays and has a clone
      with the port behind it; a fresh original or an entry of the kind gets the port;
      any other stays. */
  predicate PassedAt(es: seq<Entry>, k: nat, port: nat, socktype: int, after: seq<Entry>)
    requires k < |es|
  {
    var e, d := es[k], k + ClonesBefore(es, k);
    && d < |after|
    && if e.clone && e.socktype != 0 then
         after[d] == e && d + 1 < |after| && Ported(after[d + 1], e, false, socktype, port)
       else if e.clone || e.socktype == socktype then Ported(after[d], e, e.clone, socktype, port)
       else after[d] == e
  }

  ghost predicate Passed(es: seq<Entry>, port: nat, socktype: int, after: seq<Entry>) {
    && |after| == |es| + ClonesBefore(es, |es|)
    && forall k :: 0 <= k < |es| ==> PassedAt(es, k, port, socktype, after)
  }

  lemma PassEntryIs(es: seq<Entry>, k: nat, port: nat, socktype: int, before: seq<Entry>, rest: seq<Entry>)
    requires k < |es| && |before| == k + ClonesBefore(es, k)
    ensures PassedAt(es, k, port, socktype, before + PassEntry(es[k], port, socktype) + rest)
  {
    hide ClonesBefore;
  }

  lemma {:induction false} SameClones(es: seq<Entry>, n: nat, k: nat)
    requires k <= n <= |es|
    ensures ClonesBefore(es[..n], k) == ClonesBefore(es, k)
  {
    if k > 0 {
      SameClones(es, n, k - 1);
    }
  }

  lemma {:induction false} PassIsPassed(es: seq<Entry>, port: nat, socktype: int)
    ensures Passed(es, port, socktype, Pass(es, port, socktype))
  {
    hide Fill, PassEntry, Ported, ClonesBefore, PassedAt;
    if es == [] {
      NoClones();
    } else {
      var n := |es| - 1;
      var init := es[..n];
      PassIsPassed(init, port, socktype);
      SameClones(es, n, n);
      LastClone(es, port, socktype);
      var before, more := Pass(init, port, socktype), PassEntry(es[n], port, socktype);
      PassEntryIs(es, n, port, socktype, before, []);
      assert before + more + [] == Pass(es, port, socktype);
      forall k | 0 <= k < |es| ensures PassedAt(es, k, port, socktype, Pass(es, port, socktype)) {
        if k < n {
          PassedMore(es, n, k, port, socktype, before, more);
        }
      }
    }
  }

  lemma NoClones()
    ensures ClonesBefore([], 0) == 0
  {
  }

  lemma LastClone(es: seq<Entry>, port: nat, socktype: int)
    requires es != []
    ensures ClonesBefore(es, |es|) + 1
         == ClonesBefore(es, |es| - 1) + |PassEntry(es[|es| - 1], port, socktype)|
  {
  }

  lemma PassedMore(es: seq<Entry>, n: nat, k: nat, port: nat, socktype: int, before: seq<Entry>, more: seq<Entry>)
    requires k < n <= |es| && PassedAt(es[..n], k, port, socktype, before)
    ensures PassedAt(es, k, port, socktype, before + more)
  {
    hide Ported, ClonesBefore;
    SameClones(es, n, k);
  }

  /** Entries a pass may fill in have an address. */
  ghost predicate Ready(es: seq<Entry>) {
    forall i :: 0 <= i < |es| ==> ReadyEntry(es[i])
  }

  predicate ReadyEntry(e: Entry) {
    e.clone || Known(e.family) ==> e.addr.Some?
  }

  lemma {:induction false} PassReady(es: seq<Entry>, port: nat, socktype: int)
    requires Ready(es)
    ensures Ready(Pass(es, port, socktype))
  {
    if es != [] {
      PassReady(es[..|es| - 1], port, socktype);
      assert Ready(PassEntry(es[|es| - 1], port, socktype)) by {
        assert ReadyEntry(es[|es| - 1]);
      }
    }
  }

  /* ---- Several passes ---- */

  datatype Port = Port(port: nat, socktype: int)

  function Passes(es: seq<Entry>, ps: seq<Port>): seq<Entry> {
    if ps == [] then es
    else Pass(Passes(es, ps[..|ps| - 1]), ps[|ps| - 1].port, ps[|ps| - 1].socktype)
  }

  /** What ga_serv counts. */
  function TotalHits(es: seq<Entry>, ps: seq<Port>): nat {
    if ps == [] then 0
    else TotalHits(es, ps[..|ps| - 1]) + Hits(Passes(es, ps[..|ps| - 1]), ps[|ps| - 1].socktype)
  }

  /** The pass that entry number `j` of a run got its port from. */
  function PortOf(ps: seq<Port>, j: nat): Port
    requires j < |ps|
  {
    if j == 0 then ps[0] else ps[|ps| - j]
  }

  /** What one address becomes: the entry itself with the first kind of socket, then
      a clone for each other kind, the latest first. */
  function Group(e: Entry, ps: seq<Port>): (g: seq<Entry>)
    requires ps != []
    ensures |g| == |ps|
    ensures g[0] == Fill(e, ps[0].port, ps[0].socktype)
    ensures forall i :: 1 <= i < |ps| ==> g[i] == Clone(e, ps[|ps| - i])
    ensures Known(e.family) && e.addr.Some? ==>
              forall j :: 0 <= j < |ps| ==>
                g[j] == Entry(e.clone && j == 0, e.family, PortOf(ps, j).socktype, e.protocol,
                              Some(Addr(e.addr.value.family, e.addr.value.host, PortOf(ps, j).port)))
  {
    [Fill(e, ps[0].port, ps[0].socktype)] + Clones(e, ps[1..])
  }

  function Clone(e: Entry, p: Port): Entry {
    Fill(e.(clone := false), p.port, p.socktype)
  }

  function Clones(e: Entry, ps: seq<Port>): (c: seq<Entry>)
    ensures |c| == |ps| && forall i :: 0 <= i < |ps| ==> c[i] == Clone(e, ps[|ps| - 1 - i])
  {
    if ps == [] then [] else [Clone(e, ps[|ps| - 1])] + Clones(e, ps[..|ps| - 1])
  }

  function Groups(es: seq<Entry>, ps: seq<Port>): seq<Entry>
    requires ps != []
  {
    if es == [] then [] else Groups(es[..|es| - 1], ps) + Group(es[|es| - 1], ps)
  }

  /** The kinds of socket are different, and none is 0. */
  ghost predicate Kinds(ps: seq<Port>) {
    && (forall i :: 0 <= i < |ps| ==> ps[i].socktype != 0)
    && (forall i, j :: 0 <= i < j < |ps| ==> ps[i].socktype != ps[j].socktype)
  }

  /** As ga_aistruct makes entries when the caller names no kind of socket. */
  ghost predicate Fresh(es: seq<Entry>) {
    forall i :: 0 <= i < |es| ==> FreshEntry(es[i])
  }

  predicate FreshEntry(e: Entry) {
    e.clone && e.socktype == 0 && Known(e.family) && e.addr.Some?
  }

  lemma {:induction false} PassAppend(a: seq<Entry>, b: seq<Entry>, port: nat, socktype: int)
    ensures Pass(a + b, port, socktype) == Pass(a, port, socktype) + Pass(b, port, socktype)
    ensures Hits(a + b, socktype) == Hits(a, socktype) + Hits(b, socktype)
    decreases |b|
  {
    hide PassEntry, PassHits;
    if b == [] {
      assert a + b == a;
    } else {
      assert (a + b)[..|a + b| - 1] == a + b[..|b| - 1];
      PassAppend(a, b[..|b| - 1], port, socktype);
    }
  }

  /** Entries that are no originals and of other kinds are passed over. */
  lemma {:induction false} PassOver(es: seq<Entry>, port: nat, socktype: int)
    requires forall i :: 0 <= i < |es| ==> !es[i].clone && es[i].socktype != socktype
    ensures Pass(es, port, socktype) == es && Hits(es, socktype) == 0
  {
    hide Fill;
    if es != [] {
      assert es == es[..|es| - 1] + [es[|es| - 1]];
      PassOver(es[..|es| - 1], port, socktype);
    }
  }

  lemma PassOne(e: Entry, port: nat, socktype: int)
    ensures Pass([e], port, socktype) == PassEntry(e, port, socktype)
    ensures Hits([e], socktype) == PassHits(e, socktype)
  {
    assert [e][..0] == [];
  }

  /** A pass for one more kind takes a group to the larger group. */
  lemma GroupGrows(e: Entry, ps: seq<Port>, p: Port)
    requires ps != [] && FreshEntry(e) && Kinds(ps + [p])
    ensures Pass(Group(e, ps), p.port, p.socktype) == Group(e, ps + [p])
    ensures Hits(Group(e, ps), p.socktype) == 1
  {
    hide Pass, Hits, Clones;
    var first, clones := Fill(e, ps[0].port, ps[0].socktype), Clones(e, ps[1..]);
    forall i | 0 <= i < |ps| ensures (ps + [p])[i] == ps[i] && ps[i].socktype != p.socktype {
      assert (ps + [p])[|ps|] == p;
    }
    PassOne(first, p.port, p.socktype);
    PassOver(clones, p.port, p.socktype);
    PassAppend([first], clones, p.port, p.socktype);
    ClonesGrow(e, ps[1..], p);
    assert (ps + [p])[1..] == ps[1..] + [p];
  }

  lemma ClonesGrow(e: Entry, ps: seq<Port>, p: Port)
    ensures Clones(e, ps + [p]) == [Clone(e, p)] + Clones(e, ps)
  {
    assert (ps + [p])[..|ps|] == ps;
  }

  lemma {:induction false} GroupsGrow(es: seq<Entry>, ps: seq<Port>, p: Port)
    requires ps != [] && Fresh(es) && Kinds(ps + [p])
    ensures Pass(Groups(es, ps), p.port, p.socktype) == Groups(es, ps + [p])
    ensures Hits(Groups(es, ps), p.socktype) == |es|
  {
    hide Group, Fill, Clones, FreshEntry;
    if es != [] {
      var init, e := es[..|es| - 1], es[|es| - 1];
      GroupsGrow(init, ps, p);
      GroupGrows(e, ps, p);
      PassAppend(Groups(init, ps), Group(e, ps), p.port, p.socktype);
    }
  }

  lemma {:induction false} FirstGroups(es: seq<Entry>, p: Port)
    requires Fresh(es)
    ensures Pass(es, p.port, p.socktype) == Groups(es, [p]) && Hits(es, p.socktype) == |es|
  {
    if es != [] {
      FirstGroups(es[..|es| - 1], p);
      assert Group(es[|es| - 1], [p]) == PassEntry(es[|es| - 1], p.port, p.socktype);
    }
  }

  lemma {:induction false} GroupsLength(es: seq<Entry>, ps: seq<Port>)
    requires ps != []
    ensures |Groups(es, ps)| == |es| * |ps|
  {
    hide Group;
    if es != [] {
      GroupsLength(es[..|es| - 1], ps);
      OneMore(|es|, |ps|);
    }
  }

  lemma OneMore(n: nat, m: nat)
    requires n > 0
    ensures (n - 1) * m + m == n * m
  {
  }

  lemma SlotWithin(i: nat, j: nat, n: nat, m: nat)
    requires i < n && j < m
    ensures i * m + j < n * m
  {
    assert (i + 1) * m <= n * m;
  }

  lemma {:induction false} GroupsAt(es: seq<Entry>, ps: seq<Port>, i: nat, j: nat)
    requires ps != [] && i < |es| && j < |ps|
    ensures |Groups(es, ps)| == |es| * |ps| && i * |ps| + j < |es| * |ps|
    ensures Groups(es, ps)[i * |ps| + j] == Group(es[i], ps)[j]
    decreases |es|
  {
    hide Group;
    var init := es[..|es| - 1];
    GroupsLength(es, ps);
    GroupsLength(init, ps);
    SlotWithin(i, j, |es|, |ps|);
    if i < |init| {
      GroupsAt(init, ps, i, j);
    }
  }

  lemma GroupFields(e: Entry, ps: seq<Port>, j: nat)
    requires j < |ps| && Known(e.family) && e.addr.Some?
    ensures Group(e, ps)[j]
         == Entry(e.clone && j == 0, e.family, PortOf(ps, j).socktype, e.protocol,
                  Some(Addr(e.addr.value.family, e.addr.value.host, PortOf(ps, j).port)))
  {
  }

  /** Entry number `j` of the run for entry number `i` of the list. */
  predicate RunAt(after: seq<Entry>, es: seq<Entry>, ps: seq<Port>, i: nat, j: nat)
    requires i < |es| && j < |ps|
  {
    && i * |ps| + j < |after| && es[i].addr.Some?
    && after[i * |ps| + j] == Entry(es[i].clone && j == 0, es[i].family, PortOf(ps, j).socktype, es[i].protocol,
                                    Some(Addr(es[i].addr.value.family, es[i].addr.value.host, PortOf(ps, j).port)))
  }

  /** Each entry has become a run with every kind of socket and its port. */
  ghost predicate InRuns(after: seq<Entry>, es: seq<Entry>, ps: seq<Port>) {
    && |after| == |es| * |ps|
    && forall i, j :: 0 <= i < |es| && 0 <= j < |ps| ==> RunAt(after, es, ps, i, j)
  }

  lemma GroupsInRuns(es: seq<Entry>, ps: seq<Port>)
    requires ps != [] && forall i :: 0 <= i < |es| ==> Known(es[i].family) && es[i].addr.Some?
    ensures InRuns(Groups(es, ps), es, ps)
  {
    hide Groups, Group;
    GroupsLength(es, ps);
    forall i, j | 0 <= i < |es| && 0 <= j < |ps|
      ensures RunAt(Groups(es, ps), es, ps, i, j)
    {
      GroupsAt(es, ps, i, j);
      GroupFields(es[i], ps, j);
    }
  }

  /** After passes for different kinds of socket every address has its own run of
      entries, one of each kind with that kind's port, and each pass found every
      address once. */
  lemma {:induction false} PassesGroup(es: seq<Entry>, ps: seq<Port>)
    requires Fresh(es) && ps != [] && Kinds(ps)
    ensures Passes(es, ps) == Groups(es, ps) && InRuns(Passes(es, ps), es, ps)
    ensures TotalHits(es, ps) == |es| * |ps|
  {
    hide Groups, Hits, Pass, InRuns;
    assert forall i :: 0 <= i < |es| ==> FreshEntry(es[i]);
    GroupsInRuns(es, ps);
    var init, p := ps[..|ps| - 1], ps[|ps| - 1];
    assert ps == init + [p];
    if init == [] {
      assert ps == [p];
      FirstGroups(es, p);
    } else {
      PassesGroup(es, init);
      GroupsGrow(es, init, p);
    }
  }

  /* ---- The service ---- */

  /** atoi of a string of digits and anything after them. */
  function Atoi(s: string): nat {
    Decimal(s, 0, DigitsEnd(s, 0))
  }

  predicate Numeric(serv: string) {
    serv != [] && IsDigit(serv[0])
  }

  /** htons takes 16 bits. */
  function PortNumber(serv: string): nat {
    Atoi(serv) % 0x1_0000
  }

  /** The passes for a service; `tcp` and `udp` are what getservbyname finds. */
  function ServicePorts(hint: int, serv: string, tcp: Option<nat>, udp: Option<nat>): seq<Port> {
    if Numeric(serv) then
      var port := PortNumber(serv);
      if hint != 0 then [Port(port, hint)] else [Port(port, SOCK_STREAM), Port(port, SOCK_DGRAM)]
    else
      (if (hint == 0 || hint == SOCK_STREAM) && tcp.Some? then [Port(tcp.value, SOCK_STREAM)] else [])
      + (if (hint == 0 || hint == SOCK_DGRAM) && udp.Some? then [Port(udp.value, SOCK_DGRAM)] else [])
  }

  /** As ga_aistruct makes them for a caller's kind of socket. */
  function NewEntry(hint: int, protocol: int, family: Family, host: string): Entry {
    Entry(hint == 0, family, hint, protocol, if Known(family) then Some(Addr(family, host, 0)) else None)
  }

  ghost predicate Hinted(es: seq<Entry>, hint: int) {
    forall i :: 0 <= i < |es| ==> HintedEntry(es[i], hint)
  }

  predicate HintedEntry(e: Entry, hint: int) {
    e.clone == (hint == 0) && e.socktype == hint && Known(e.family) && e.addr.Some?
  }

  lemma {:induction false} HintedPass(es: seq<Entry>, p: Port)
    requires p.socktype != 0 && Hinted(es, p.socktype)
    ensures Pass(es, p.port, p.socktype) == Groups(es, [p]) && Hits(es, p.socktype) == |es|
  {
    if es != [] {
      HintedPass(es[..|es| - 1], p);
      assert Group(es[|es| - 1], [p]) == PassEntry(es[|es| - 1], p.port, p.socktype);
    }
  }

  /** The list for a service: with no kind of socket named, a run of entries per
      address; with one, one entry per address. Nothing is found exactly if the
      service has no port for what was asked. */
  lemma ServiceGroups(es: seq<Entry>, hint: int, serv: string, tcp: Option<nat>, udp: Option<nat>)
    requires Hinted(es, hint) && es != []
    ensures var ps := ServicePorts(hint, serv, tcp, udp);
            && (TotalHits(es, ps) == 0 <==> ps == [])
            && (ps != [] ==> Passes(es, ps) == Groups(es, ps) && TotalHits(es, ps) == |es| * |ps|)
  {
    hide Groups, Passes, TotalHits, Atoi, Kinds;
    var ps := ServicePorts(hint, serv, tcp, udp);
    PortsOfService(hint, serv, tcp, udp);
    if ps == [] {
      NoHits(es);
    } else {
      if hint == 0 {
        assert Fresh(es);
        PassesGroup(es, ps);
      } else {
        HintedPass(es, ps[0]);
        OnePass(es, ps[0]);
      }
      ProductPositive(|es|, |ps|);
    }
  }

  lemma ProductPositive(a: nat, b: nat)
    requires a > 0 && b > 0
    ensures a * b > 0 && a * 1 == a
  {
  }

  lemma NoHits(es: seq<Entry>)
    ensures TotalHits(es, []) == 0
  {
  }

  /** The passes are for different kinds of socket, and only for the kind named if one
      is, TCP first; a number is the port of each kind, a name has one for TCP and one
      for UDP. */
  lemma PortsOfService(hint: int, serv: string, tcp: Option<nat>, udp: Option<nat>)
    ensures var ps := ServicePorts(hint, serv, tcp, udp);
            && Kinds(ps) && (hint != 0 && ps != [] ==> ps == [ps[0]] && ps[0].socktype == hint)
            && (|ps| > 1 ==> ps[0].socktype == SOCK_STREAM)
            && forall p :: p in ps <==> PortWanted(hint, serv, tcp, udp, p)
  {
    hide Atoi;
  }

  predicate PortWanted(hint: int, serv: string, tcp: Option<nat>, udp: Option<nat>, p: Port) {
    if Numeric(serv) then
      p.port == PortNumber(serv) && if hint == 0 then p.socktype == SOCK_STREAM || p.socktype == SOCK_DGRAM else p.socktype == hint
    else
      && (hint == 0 || p.socktype == hint)
      && ((p.socktype == SOCK_STREAM && tcp == Some(p.port)) || (p.socktype == SOCK_DGRAM && udp == Some(p.port)))
  }

  lemma OnePass(es: seq<Entry>, p: Port)
    ensures Passes(es, [p]) == Pass(es, p.port, p.socktype)
    ensures TotalHits(es, [p]) == Hits(es, p.socktype)
  {
    hide Pass, Hits;
    assert [p][..0] == [];
  }

  lemma PassesSnoc(es: seq<Entry>, ps: seq<Port>, p: Port)
    ensures Passes(es, ps + [p]) == Pass(Passes(es, ps), p.port, p.socktype)
    ensures TotalHits(es, ps + [p]) == TotalHits(es, ps) + Hits(Passes(es, ps), p.socktype)
  {
    hide Pass, Hits;
    assert (ps + [p])[..|ps|] == ps;
  }

  /** An address that the search for the host found. */
  datatype Found = Found(family: Family, host: string)

  function NewEntries(found: seq<Found>, hint: int, protocol: int): (es: seq<Entry>)
    ensures |es| == |found|
    ensures forall i :: 0 <= i < |found| ==> es[i] == NewEntry(hint, protocol, found[i].family, found[i].host)
  {
    if found == [] then []
    else
      var last := found[|found| - 1];
      NewEntries(found[..|found| - 1], hint, protocol) + [NewEntry(hint, protocol, last.family, last.host)]
  }

  /** What getaddrinfo owes its caller: every address, for every kind of socket that
      the service has. */
  function Answer(found: seq<Found>, hint: int, protocol: int, serv: string, tcp: Option<nat>, udp: Option<nat>): seq<Entry> {
    var es, ps := NewEntries(found, hint, protocol), ServicePorts(hint, serv, tcp, udp);
    if serv == "" || ps == [] then es else Groups(es, ps)
  }

  /** Entry number `j` of the run for address number `i`. */
  predicate AnswerAt(answer: seq<Entry>, found: seq<Found>, hint: int, protocol: int, ps: seq<Port>, i: nat, j: nat)
    requires i < |found| && j < |ps|
  {
    && i * |ps| + j < |answer|
    && answer[i * |ps| + j] == Entry(hint == 0 && j == 0, found[i].family, PortOf(ps, j).socktype, protocol,
                                     Some(Addr(found[i].family, found[i].host, PortOf(ps, j).port)))
  }

  /** Every address with the ports `ps`, and nothing else; without a service, every
      address once, with port 0. */
  ghost predicate AnswerIs(answer: seq<Entry>, found: seq<Found>, hint: int, protocol: int, ps: seq<Port>) {
    if ps == [] then
      && |answer| == |found|
      && forall i :: 0 <= i < |found| ==>
           answer[i] == Entry(hint == 0, found[i].family, hint, protocol, Some(Addr(found[i].family, found[i].host, 0)))
    else
      && |answer| == |found| * |ps|
      && forall i, j :: 0 <= i < |found| && 0 <= j < |ps| ==> AnswerAt(answer, found, hint, protocol, ps, i, j)
  }

  /** The answer, field by field. */
  lemma AnswerFields(found: seq<Found>, hint: int, protocol: int, serv: string, tcp: Option<nat>, udp: Option<nat>)
    requires AllKnown(found)
    ensures AnswerIs(Answer(found, hint, protocol, serv, tcp, udp), found, hint, protocol,
                     if serv == "" then [] else ServicePorts(hint, serv, tcp, udp))
  {
    hide ServicePorts, Groups, PortOf;
    var es := NewEntries(found, hint, protocol);
    var ps := if serv == "" then [] else ServicePorts(hint, serv, tcp, udp);
    if ps != [] {
      GroupsInRuns(es, ps);
      forall i, j | 0 <= i < |found| && 0 <= j < |ps|
        ensures AnswerAt(Groups(es, ps), found, hint, protocol, ps, i, j)
      {
        assert RunAt(Groups(es, ps), es, ps, i, j);
      }
    }
  }

  /** What it returns while memory lasts. */
  function AnswerCode(found: seq<Found>, hint: int, serv: string, tcp: Option<nat>, udp: Option<nat>): int {
    if found == [] then EAI_NONAME
    else if serv != "" && ServicePorts(hint, serv, tcp, udp) == [] then (if hint == 0 then EAI_NONAME else EAI_SERVICE)
    else 0
  }

  ghost predicate AllKnown(found: seq<Found>) {
    forall i :: 0 <= i < |found| ==> Known(found[i].family)
  }

  lemma NewEntriesHinted(found: seq<Found>, hint: int, protocol: int)
    requires AllKnown(found)
    ensures Hinted(NewEntries(found, hint, protocol), hint) && Ready(NewEntries(found, hint, protocol))
  {
  }

  /* ---- The list in memory ---- */

  class SockAddr {
    var family: Family
    var host: string
    var port: nat

    constructor (family: Family, host: string, port: nat)
      ensures this.family == family && this.host == host && this.port == port
    {
      this.family, this.host, this.port := family, host, port;
    }
  }

  class Name {
    const text: string

    constructor (text: string)
      ensures this.text == text
    {
      this.text := text;
    }
  }

  /** struct addrinfo */
  class Node {
    var clone: bool
    var family: Family
    var socktype: int
    var protocol: int
    var canonname: Name?
    var addr: SockAddr?
    var next: Node?

    /** What calloc returns. */
    constructor ()
      ensures !clone && family == OTHER(0) && socktype == 0 && protocol == 0
      ensures canonname == null && addr == null && next == null
    {
      clone, family, socktype, protocol := false, OTHER(0), 0, 0;
      canonname, addr, next := null, null, null;
    }
  }

  /** `live` is what malloc gave out and free has not taken back; `failures` counts
      the calls of malloc and calloc that returned NULL. */
  class Heap {
    ghost var live: set<object>
    ghost var failures: nat

    constructor ()
      ensures live == {} && failures == 0
    {
      live, failures := {}, 0;
    }

    /** Whether there is memory for one more object. */
    method Available() returns (ok: bool)
      modifies this`failures
      ensures failures == old(failures) + if ok then 0 else 1
    {
      ok :| true;
      if !ok {
        failures := failures + 1;
      }
    }

    method Allocated(o: object)
      modifies this`live
      ensures live == old(live) + {o}
    {
      live := live + {o};
    }

    method Free(o: object)
      requires o in live
      modifies this`live
      ensures live == old(live) - {o}
    {
      live := live - {o};
    }
  }

  ghost function Show(n: Node): Entry
    reads n`clone, n`family, n`socktype, n`protocol, n`addr, n.addr
  {
    Entry(n.clone, n.family, n.socktype, n.protocol,
          if n.addr == null then None else Some(Addr(n.addr.family, n.addr.host, n.addr.port)))
  }

  ghost predicate Distinct(nodes: seq<Node>) {
    forall i, j :: 0 <= i < j < |nodes| ==> nodes[i] != nodes[j]
  }

  ghost function Succ(nodes: seq<Node>, i: nat): Node? {
    if i + 1 < |nodes| then nodes[i + 1] else null
  }

  /** The list from `head` on is `nodes`. */
  ghost predicate Linked(head: Node?, nodes: seq<Node>)
    reads nodes`next
  {
    && Distinct(nodes)
    && (if nodes == [] then head == null else head == nodes[0])
    && forall i {:trigger nodes[i].next} :: 0 <= i < |nodes| ==> nodes[i].next == Succ(nodes, i)
  }

  /** No address or name belongs to two nodes. */
  ghost predicate Owned(nodes: seq<Node>)
    reads nodes`addr, nodes`canonname
  {
    && (forall i, j :: 0 <= i < j < |nodes| && nodes[i].addr != null ==> nodes[i].addr != nodes[j].addr)
    && (forall i, j :: 0 <= i < j < |nodes| && nodes[i].canonname != null ==> nodes[i].canonname != nodes[j].canonname)
  }

  ghost function Addrs(nodes: seq<Node>): set<SockAddr>
    reads nodes`addr
  {
    set i | 0 <= i < |nodes| && nodes[i].addr != null :: nodes[i].addr
  }

  /** A node relinked behind node number `i`. */
  lemma LinkedInsert(head: Node?, nodes: seq<Node>, i: nat, n: Node)
    requires i < |nodes| && Distinct(nodes) && n !in nodes && head == nodes[0]
    requires nodes[i].next == n && n.next == Succ(nodes, i)
    requires forall k {:trigger nodes[k].next} :: 0 <= k < |nodes| && k != i ==> nodes[k].next == Succ(nodes, k)
    ensures Linked(head, Insert(nodes, i + 1, n))
  {
    var after := Insert(nodes, i + 1, n);
    forall k | 0 <= k < |after| ensures after[k].next == Succ(after, k) {
      var j := if k <= i then k else k - 1;
      assert k != i + 1 ==> nodes[j].next == after[k].next;
    }
  }

  lemma OwnedInsert(nodes: seq<Node>, i: nat, n: Node)
    requires i <= |nodes| && Owned(nodes)
    requires n.canonname == null
    requires n.addr == null || forall j :: 0 <= j < |nodes| ==> nodes[j].addr != n.addr
    ensures Owned(Insert(nodes, i, n))
  {
    var after := Insert(nodes, i, n);
    forall j, k | 0 <= j < k < |after|
      ensures after[j].addr != null ==> after[j].addr != after[k].addr
      ensures after[j].canonname != null ==> after[j].canonname != after[k].canonname
    {
      var j', k' := if j < i then j else j - 1, if k < i then k else k - 1;
      if j != i && k != i {
        assert after[j] == nodes[j'] && after[k] == nodes[k'];
      } else if j == i {
        assert after[k] == nodes[k'];
      } else {
        assert after[j] == nodes[j'];
      }
    }
  }

  /** What a node owns, itself included, and what a list owns. */
  ghost function Own(n: Node): set<object>
    reads n`addr, n`canonname
  {
    {n} + (if n.addr == null then {} else {n.addr}) + (if n.canonname == null then {} else {n.canonname})
  }

  ghost function Objects(nodes: seq<Node>): set<object>
    reads nodes`addr, nodes`canonname
  {
    if nodes == [] then {} else Own(nodes[0]) + Objects(nodes[1..])
  }

  lemma {:induction false} ObjectsOwn(nodes: seq<Node>, i: nat)
    requires i < |nodes|
    ensures Own(nodes[i]) <= Objects(nodes)
  {
    if i > 0 {
      ObjectsOwn(nodes[1..], i - 1);
    }
  }

  lemma {:induction false} ObjectsInsert(nodes: seq<Node>, i: nat, n: Node)
    requires i <= |nodes|
    ensures Objects(Insert(nodes, i, n)) == Objects(nodes) + Own(n)
  {
    var after := Insert(nodes, i, n);
    if i == 0 {
      assert after[1..] == nodes;
    } else {
      assert after[1..] == Insert(nodes[1..], i - 1, n);
      ObjectsInsert(nodes[1..], i - 1, n);
    }
  }

  ghost predicate Shows(nodes: seq<Node>, es: seq<Entry>)
    reads nodes`clone, nodes`family, nodes`socktype, nodes`protocol, nodes`addr, Addrs(nodes)
  {
    |nodes| == |es| && forall i :: 0 <= i < |nodes| ==> Show(nodes[i]) == es[i]
  }

  function Insert<T>(s: seq<T>, i: nat, x: T): (r: seq<T>)
    requires i <= |s|
    ensures |r| == |s| + 1 && r[i] == x
    ensures forall j :: 0 <= j < i ==> r[j] == s[j]
    ensures forall j :: i < j < |r| ==> r[j] == s[j - 1]
  {
    s[..i] + [x] + s[i..]
  }

  method LinkAfter(ai: Node, n: Node, ghost head: Node?, ghost nodes: seq<Node>, ghost i: nat)
    requires i < |nodes| && nodes[i] == ai && n !in nodes
    requires Linked(head, nodes)
    modifies ai`next, n`next
    ensures Linked(head, Insert(nodes, i + 1, n))
  {
    hide Insert;
    n.next := ai.next;
    ai.next := n;
    LinkedInsert(head, nodes, i, n);
  }

  /** The last part of ga_clone: a copy of the address, unless malloc fails. */
  method CopyAddr(heap: Heap, ai: Node, n: Node) returns (ok: bool)
    requires ai != n && ai.addr != null && n.addr == null && n.canonname == null
    modifies heap, n`addr
    ensures ok <==> n.addr != null
    ensures ok ==> fresh(n.addr) && Show(n).addr == Show(ai).addr
    ensures heap.live == old(heap.live) + (Own(n) - {n})
    ensures heap.failures == old(heap.failures) + if ok then 0 else 1
  {
    ok := heap.Available();
    if ok {
      var addr := new SockAddr(ai.addr.family, ai.addr.host, ai.addr.port);
      heap.Allocated(addr);
      n.addr := addr;
    }
  }

  /** ga_clone: the new entry goes in after `ai`. If its address cannot be allocated
      the result is NULL, yet the entry, `made`, is in the list, without one. */
  method GaClone(heap: Heap, ai: Node, ghost head: Node?, ghost nodes: seq<Node>, ghost i: nat)
    returns (clone: Node?, ghost made: Node?)
    requires i < |nodes| && nodes[i] == ai && ai.addr != null
    requires Linked(head, nodes)
    modifies heap, ai`next
    ensures made == null ==> clone == null && Linked(head, nodes) && heap.live == old(heap.live)
    ensures made != null ==> fresh(Own(made)) && made.canonname == null && heap.live == old(heap.live) + Own(made)
    ensures made != null ==> Linked(head, Insert<Node>(nodes, i + 1, made))
    ensures if made != null && made.addr != null then clone == made else clone == null
    ensures clone != null ==> Show(clone) == Show(ai).(clone := false)
    ensures heap.failures == old(heap.failures) + if clone == null then 1 else 0
  {
    hide Linked, Insert;
    var ok := heap.Available();
    if !ok {
      return null, null;
    }
    var n := new Node();
    heap.Allocated(n);
    made := n;
    LinkAfter(ai, n, head, nodes, i);
    n.family, n.socktype, n.protocol := ai.family, ai.socktype, ai.protocol;
    ok := CopyAddr(heap, ai, n);
    clone := if ok then n else null;
  }

  lemma ShowsInsert(nodes: seq<Node>, es: seq<Entry>, i: nat, n: Node)
    requires Shows(nodes, es) && i <= |nodes|
    ensures Shows(Insert(nodes, i, n), Insert(es, i, Show(n)))
  {
    hide Show;
    var after, aes := Insert(nodes, i, n), Insert(es, i, Show(n));
    forall j | 0 <= j < |after| ensures Show(after[j]) == aes[j] {
      var j' := if j < i then j else j - 1;
      assert j != i ==> Show(nodes[j']) == es[j'];
    }
  }

  /** The end of a turn of the loop of ga_port: the type and the port are filled in. */
  method FillIn(ai: Node, port: nat, socktype: int, ghost nodes: seq<Node>, ghost es: seq<Entry>, ghost i: nat)
      returns (found: nat)
    requires i < |nodes| && nodes[i] == ai
    requires Known(ai.family) ==> ai.addr != null
    requires Distinct(nodes) && Owned(nodes) && Shows(nodes, es)
    modifies ai`socktype, if Known(ai.family) then {ai.addr} else {}
    ensures Shows(nodes, es[i := Fill(es[i], port, socktype)])
    ensures found == if Known(ai.family) then 1 else 0
    ensures ai.socktype == socktype && (Known(ai.family) ==> ai.addr.port == port)
    ensures Known(ai.family) ==> ai.addr.host == old(ai.addr.host) && ai.addr.family == old(ai.addr.family)
  {
    assert Show(ai) == es[i];
    ai.socktype := socktype;
    found := 0;
    if ai.family.INET? || ai.family.INET6? {
      ai.addr.port := port;
      found := 1;
    }
    forall j | 0 <= j < |nodes| ensures Show(nodes[j]) == es[i := Fill(es[i], port, socktype)][j] {
      assert old(Show(nodes[j])) == es[j];
      if j < i {
        assert nodes[j] != ai && (ai.addr != null ==> nodes[j].addr != ai.addr);
      } else if i < j {
        assert nodes[j] != ai && (ai.addr != null ==> nodes[j].addr != ai.addr);
      }
    }
  }

  /** The list is `nodes`, in memory that the nodes own and that is not free. */
  ghost predicate List(heap: Heap, head: Node?, nodes: seq<Node>)
    reads heap, nodes`next, nodes`addr, nodes`canonname
  {
    Linked(head, nodes) && Owned(nodes) && Objects(nodes) <= heap.live
  }

  /** A new node behind number `d` keeps the list in order. */
  lemma ListInsert(heap: Heap, head: Node?, nodes: seq<Node>, i: nat, n: Node)
    requires i <= |nodes| && Linked(head, Insert(nodes, i, n)) && Owned(nodes)
    requires Objects(nodes) + Own(n) <= heap.live && n.canonname == null
    requires n.addr != null ==> n.addr !in Objects(nodes)
    ensures List(heap, head, Insert(nodes, i, n))
    ensures Objects(Insert(nodes, i, n)) == Objects(nodes) + Own(n)
  {
    hide Linked, Owned, Insert;
    forall j | 0 <= j < |nodes| && n.addr != null ensures nodes[j].addr != n.addr {
      ObjectsOwn(nodes, j);
    }
    OwnedInsert(nodes, i, n);
    ObjectsInsert(nodes, i, n);
  }

  /** ga_clone in the list: the copy stands behind the original, shares nothing with
      it, and differs from it only in the AI_CLONE flag. */
  method CloneBehind(heap: Heap, ai: Node, ghost head: Node?, ghost nodes: seq<Node>, ghost es: seq<Entry>, ghost d: nat)
      returns (clone: Node?, ghost after: seq<Node>)
    requires List(heap, head, nodes) && Shows(nodes, es)
    requires d < |nodes| && nodes[d] == ai && ai.addr != null
    modifies heap, ai`next
    ensures List(heap, head, after)
    ensures heap.live == old(heap.live) + Objects(after)
    ensures Objects(nodes) <= Objects(after) && fresh(Objects(after) - Objects(nodes))
    ensures clone != null ==> |after| == |nodes| + 1 && after[d + 1] == clone && fresh(clone) && clone.addr != null && fresh(clone.addr)
    ensures clone != null ==> Shows(after, Insert(es, d + 1, es[d].(clone := false)))
    ensures heap.failures == old(heap.failures) + if clone == null then 1 else 0
  {
    hide Linked, Owned, Insert, Objects;
    assert Show(ai) == es[d];
    ghost var made;
    after := nodes;
    clone, made := GaClone(heap, ai, head, nodes, d);
    if made != null {
      after := Insert<Node>(nodes, d + 1, made);
      ListInsert(heap, head, nodes, d + 1, made);
      ShowsInsert(nodes, es, d + 1, made);
    }
  }

  lemma ListParts(heap: Heap, head: Node?, nodes: seq<Node>)
    requires List(heap, head, nodes)
    ensures Distinct(nodes) && Owned(nodes) && Objects(nodes) <= heap.live
  {
  }

  /** A turn of the loop that clones. */
  method CloneTurn(heap: Heap, ai: Node, port: nat, socktype: int,
                   ghost head: Node?, ghost nodes: seq<Node>, ghost es: seq<Entry>, ghost d: nat)
      returns (clone: Node?, found: nat, ghost after: seq<Node>)
    requires List(heap, head, nodes) && Shows(nodes, es)
    requires d < |nodes| && nodes[d] == ai && NeedsClone(es[d]) && ReadyEntry(es[d])
    modifies heap, ai`next
    ensures List(heap, head, after)
    ensures heap.live == old(heap.live) + Objects(after)
    ensures Objects(nodes) <= Objects(after) && fresh(Objects(after) - Objects(nodes))
    ensures clone != null ==> Shows(after, Turned(es, d, port, socktype)) && after[d + 1] == clone
    ensures clone != null ==> found == PassHits(es[d], socktype)
    ensures heap.failures == old(heap.failures) + if clone == null then 1 else 0
  {
    hide List, Owned, Insert, Objects, Fill;
    assert Show(ai) == es[d];
    found := 0;
    clone, after := CloneBehind(heap, ai, head, nodes, es, d);
    if clone != null {
      ListParts(heap, head, after);
      ghost var aes := Insert(es, d + 1, es[d].(clone := false));
      assert Show(clone) == aes[d + 1];
      found := FillIn(clone, port, socktype, after, aes, d + 1);
      Refill(es, d + 1, es[d].(clone := false), Fill(es[d].(clone := false), port, socktype));
    }
  }

  lemma Refill<T>(s: seq<T>, i: nat, x: T, y: T)
    requires i <= |s|
    ensures Insert(s, i, x)[i := y] == Insert(s, i, y)
  {
  }

  ghost predicate StandsAt(ai: Node?, nodes: seq<Node>, d: nat) {
    ai == if d < |nodes| then nodes[d] else null
  }

  /** Everything the list has now belonged to it before, or is new. */
  twostate predicate Grown(was: seq<Node>, new now: seq<Node>)
    reads now`addr, now`canonname
  {
    old(Objects(was)) <= Objects(now) && fresh(Objects(now) - old(Objects(was)))
  }

  /** A turn of the loop of ga_port: `last` is where the walk goes on from. */
  method Turn(heap: Heap, ai: Node, port: nat, socktype: int,
              ghost head: Node?, ghost nodes: seq<Node>, ghost es: seq<Entry>, ghost d: nat)
      returns (last: Node?, found: nat, ghost after: seq<Node>)
    requires List(heap, head, nodes) && Shows(nodes, es)
    requires d < |nodes| && nodes[d] == ai && ReadyEntry(es[d])
    modifies heap, Own(ai)
    ensures List(heap, head, after)
    ensures heap.live == old(heap.live) + Objects(after) && Grown(nodes, after)
    ensures last != null ==> Shows(after, Turned(es, d, port, socktype))
    ensures last != null ==> found == PassHits(es[d], socktype)
    ensures last != null ==> StandsAt(last, after, if NeedsClone(es[d]) then d + 1 else d)
    ensures last == null ==> NeedsClone(es[d])
    ensures heap.failures == old(heap.failures) + if last == null then 1 else 0
  {
    hide List, Owned, Insert, Objects, Fill;
    assert Show(ai) == es[d];
    ListParts(heap, head, nodes);
    last, found, after := ai, 0, nodes;
    if ai.clone {
      if ai.socktype != 0 {
        last, found, after := CloneTurn(heap, ai, port, socktype, head, nodes, es, d);
        return;
      }
    } else if ai.socktype != socktype {
      return;
    }
    found := FillIn(ai, port, socktype, nodes, es, d);
  }

  lemma ListNext(heap: Heap, head: Node?, nodes: seq<Node>, d: nat)
    requires List(heap, head, nodes) && d < |nodes|
    ensures StandsAt(nodes[d].next, nodes, d + 1)
  {
  }

  lemma ShowsLength(nodes: seq<Node>, es: seq<Entry>)
    requires Shows(nodes, es)
    ensures |nodes| == |es|
  {
  }

  /** ga_port: one pass over the list, which grows behind the entry just visited. */
  method GaPort(heap: Heap, aihead: Node?, port: nat, socktype: int, ghost nodes: seq<Node>, ghost es: seq<Entry>)
      returns (nfound: int, ghost after: seq<Node>)
    requires List(heap, aihead, nodes) && Shows(nodes, es) && Ready(es)
    modifies heap, Objects(nodes)
    ensures List(heap, aihead, after)
    ensures heap.live == old(heap.live) + Objects(after) && Grown(nodes, after)
    ensures nfound != -1 ==> nfound == Hits(es, socktype) && Shows(after, Pass(es, port, socktype))
    ensures Passed(es, port, socktype, Pass(es, port, socktype))
    ensures heap.failures == old(heap.failures) + if nfound == -1 then 1 else 0
  {
    hide List, Owned, Insert, Objects, Fill, Pass, Shows, Show, Hits, PassTo, Turned, PassHits, Passed;
    PassIsPassed(es, port, socktype);
    nfound, after := 0, nodes;
    var ai := aihead;
    ghost var k, d, now := 0, 0, es;
    PassFirst(es, port, socktype);
    ListFirst(heap, aihead, nodes);
    ShowsLength(after, now);
    while ai != null
      invariant k <= |es| && now == PassTo(es, k, port, socktype) && |after| == |now|
      invariant d == |Pass(es[..k], port, socktype)| && nfound == Hits(es[..k], socktype)
      invariant List(heap, aihead, after) && Shows(after, now) && StandsAt(ai, after, d)
      invariant heap.live == old(heap.live) + Objects(after) && Grown(nodes, after)
      invariant heap.failures == old(heap.failures)
      decreases |es| - k
    {
      PassLength(es, k, port, socktype);
      ObjectsOwn(after, d);
      PassNext(es, k, port, socktype);
      PassPrefix(es, k, port, socktype);
      var last, found;
      ghost var before := after;
      last, found, after := Turn(heap, ai, port, socktype, aihead, before, now, d);
      if last == null {
        return -1, after;
      }
      nfound := nfound + found;
      ghost var at := if NeedsClone(es[k]) then d + 1 else d;
      ListNext(heap, aihead, after, at);
      ai := last.next;
      k, d, now := k + 1, at + 1, Turned(now, d, port, socktype);
      ShowsLength(after, now);
    }
    PassLength(es, k, port, socktype);
    PassLast(es, port, socktype);
  }

  lemma ListFirst(heap: Heap, head: Node?, nodes: seq<Node>)
    requires List(heap, head, nodes)
    ensures StandsAt(head, nodes, 0) && Objects(nodes) <= heap.live
  {
  }

  /** A pass of ga_serv, whose result is added up. */
  method Serve(heap: Heap, aihead: Node?, nfound: nat, p: Port,
               ghost nodes: seq<Node>, ghost es: seq<Entry>, ghost ps: seq<Port>)
      returns (total: int, ghost after: seq<Node>)
    requires List(heap, aihead, nodes) && Shows(nodes, Passes(es, ps)) && Ready(Passes(es, ps))
    requires nfound == TotalHits(es, ps)
    modifies heap, Objects(nodes)
    ensures List(heap, aihead, after)
    ensures heap.live == old(heap.live) + Objects(after) && Grown(nodes, after)
    ensures heap.failures == old(heap.failures) + if total == -1 then 1 else 0
    ensures total != -1 ==> total == TotalHits(es, ps + [p])
    ensures total != -1 ==> Shows(after, Passes(es, ps + [p])) && Ready(Passes(es, ps + [p]))
  {
    hide List, Pass, Hits, Shows, Ready, Objects, Passes, TotalHits;
    var rc;
    rc, after := GaPort(heap, aihead, p.port, p.socktype, nodes, Passes(es, ps));
    PassReady(Passes(es, ps), p.port, p.socktype);
    PassesSnoc(es, ps, p);
    total := if rc < 0 then -1 else nfound + rc;
  }

  /** ga_serv */
  method GaServ(heap: Heap, aihead: Node?, hint: int, serv: string, tcp: Option<nat>, udp: Option<nat>,
                ghost nodes: seq<Node>, ghost es: seq<Entry>)
      returns (rc: int, ghost after: seq<Node>)
    requires List(heap, aihead, nodes) && Shows(nodes, es) && Ready(es)
    modifies heap, Objects(nodes)
    ensures List(heap, aihead, after)
    ensures heap.live == old(heap.live) + Objects(after) && Grown(nodes, after)
    ensures heap.failures == old(heap.failures) + if rc == EAI_MEMORY then 1 else 0
    ensures rc != EAI_MEMORY ==>
              var ps := ServicePorts(hint, serv, tcp, udp);
              rc == (if TotalHits(es, ps) == 0 then (if hint == 0 then EAI_NONAME else EAI_SERVICE) else 0) && Shows(after, Passes(es, ps))
  {
    hide List, Pass, Hits, Shows, Ready, Objects, Passes, TotalHits, Atoi;
    var nfound := 0;
    ghost var ps := [];
    after := nodes;
    NoPasses(heap, aihead, nodes, es);
    if Numeric(serv) {
      var port := PortNumber(serv);
      if hint != 0 {
        nfound, after := Serve(heap, aihead, nfound, Port(port, hint), after, es, ps);
        ps := ps + [Port(port, hint)];
        if nfound < 0 {
          return EAI_MEMORY, after;
        }
      } else {
        nfound, after := Serve(heap, aihead, nfound, Port(port, SOCK_STREAM), after, es, ps);
        ps := ps + [Port(port, SOCK_STREAM)];
        if nfound < 0 {
          return EAI_MEMORY, after;
        }
        nfound, after := Serve(heap, aihead, nfound, Port(port, SOCK_DGRAM), after, es, ps);
        ps := ps + [Port(port, SOCK_DGRAM)];
        if nfound < 0 {
          return EAI_MEMORY, after;
        }
      }
    } else {
      if (hint == 0 || hint == SOCK_STREAM) && tcp.Some? {
        nfound, after := Serve(heap, aihead, nfound, Port(tcp.value, SOCK_STREAM), after, es, ps);
        ps := ps + [Port(tcp.value, SOCK_STREAM)];
        if nfound < 0 {
          return EAI_MEMORY, after;
        }
      }
      if (hint == 0 || hint == SOCK_DGRAM) && udp.Some? {
        nfound, after := Serve(heap, aihead, nfound, Port(udp.value, SOCK_DGRAM), after, es, ps);
        ps := ps + [Port(udp.value, SOCK_DGRAM)];
        if nfound < 0 {
          return EAI_MEMORY, after;
        }
      }
    }
    assert ps == ServicePorts(hint, serv, tcp, udp);
    if nfound == 0 {
      return if hint == 0 then EAI_NONAME else EAI_SERVICE, after;
    }
    return 0, after;
  }

  lemma NoPasses(heap: Heap, head: Node?, nodes: seq<Node>, es: seq<Entry>)
    requires List(heap, head, nodes)
    ensures Passes(es, []) == es && TotalHits(es, []) == 0
    ensures Objects(nodes) <= heap.live
  {
  }

  /* ---- Building the list, and freeing it ---- */

  ghost predicate IsLast(last: Node?, nodes: seq<Node>) {
    last == if nodes == [] then null else nodes[|nodes| - 1]
  }

  /** `**paipnext = ai` with the new node not yet filled in. */
  method Append(n: Node, aihead: Node?, last: Node?, ghost nodes: seq<Node>) returns (head: Node?)
    requires Linked(aihead, nodes) && IsLast(last, nodes) && n !in nodes && n.next == null
    modifies if last == null then {} else {last}`next
    ensures Linked(head, nodes + [n])
  {
    head := aihead;
    if last == null {
      head := n;
    } else {
      last.next := n;
    }
    assert forall k :: 0 <= k < |nodes| ==> (nodes + [n])[k] == nodes[k];
  }

  lemma AppendIsInsert<T>(s: seq<T>, x: T)
    ensures Insert(s, |s|, x) == s + [x]
  {
  }

  /** The socket address for the entry, unless calloc fails; other families get none. */
  method MakeAddr(heap: Heap, n: Node, family: Family, host: string) returns (ok: bool)
    requires n.addr == null && n.canonname == null
    modifies heap, n`family, n`addr
    ensures n.family == family && heap.live == old(heap.live) + (Own(n) - {n})
    ensures n.addr != null ==> fresh(n.addr)
    ensures ok ==> Show(n).addr == if Known(family) then Some(Addr(family, host, 0)) else None
    ensures heap.failures == old(heap.failures) + if ok then 0 else 1
  {
    n.family := family;
    ok := true;
    if family.INET? || family.INET6? {
      ok := heap.Available();
      if ok {
        var addr := new SockAddr(family, host, 0);
        heap.Allocated(addr);
        n.addr := addr;
      }
    }
  }

  /** ga_aistruct: a new entry at the end. On an error the list may have got an entry
      without address, for freeaddrinfo to free. */
  method GaAistruct(heap: Heap, aihead: Node?, last: Node?, hint: int, protocol: int, family: Family, host: string,
                    ghost nodes: seq<Node>, ghost es: seq<Entry>)
      returns (rc: int, head: Node?, end: Node?, ghost after: seq<Node>)
    requires List(heap, aihead, nodes) && IsLast(last, nodes) && Shows(nodes, es)
    modifies heap, if last == null then {} else {last}`next
    ensures List(heap, head, after) && IsLast(end, after)
    ensures heap.live == old(heap.live) + Objects(after) && Grown(nodes, after)
    ensures rc == 0 || rc == EAI_MEMORY
    ensures heap.failures == old(heap.failures) + if rc == EAI_MEMORY then 1 else 0
    ensures rc == 0 ==> Shows(after, es + [NewEntry(hint, protocol, family, host)])
  {
    hide Linked, Owned, Objects, Insert, NewEntry;
    head, end, after := aihead, last, nodes;
    var ok := heap.Available();
    if !ok {
      return EAI_MEMORY, head, end, after;
    }
    var n;
    head, n := AppendNew(heap, aihead, last, nodes);
    end := n;
    after := nodes + [n];
    ok := FillNew(heap, n, hint, protocol, family, host);
    assert Linked(head, after);
    ListAppend(heap, head, nodes, es, n);
    rc := if ok then 0 else EAI_MEMORY;
  }

  method AppendNew(heap: Heap, aihead: Node?, last: Node?, ghost nodes: seq<Node>) returns (head: Node?, n: Node)
    requires Linked(aihead, nodes) && IsLast(last, nodes)
    modifies heap`live, if last == null then {} else {last}`next
    ensures fresh(n) && Linked(head, nodes + [n])
    ensures n.addr == null && n.canonname == null && !n.clone
    ensures heap.live == old(heap.live) + {n}
  {
    hide Linked;
    n := new Node();
    heap.Allocated(n);
    head := Append(n, aihead, last, nodes);
  }

  /** The rest of ga_aistruct, on the node that calloc returned. */
  method FillNew(heap: Heap, n: Node, hint: int, protocol: int, family: Family, host: string) returns (ok: bool)
    requires n.addr == null && n.canonname == null && !n.clone
    modifies heap, n`clone, n`family, n`socktype, n`protocol, n`addr
    ensures heap.live == old(heap.live) + (Own(n) - {n})
    ensures n.addr != null ==> fresh(n.addr)
    ensures ok ==> Show(n) == NewEntry(hint, protocol, family, host)
    ensures heap.failures == old(heap.failures) + if ok then 0 else 1
  {
    n.socktype := hint;
    if hint == 0 {
      n.clone := true;
    }
    n.protocol := protocol;
    ok := MakeAddr(heap, n, family, host);
  }

  lemma ListAppend(heap: Heap, head: Node?, nodes: seq<Node>, es: seq<Entry>, n: Node)
    requires Linked(head, nodes + [n]) && Owned(nodes) && Shows(nodes, es)
    requires Objects(nodes) + Own(n) <= heap.live && n.canonname == null
    requires n.addr != null ==> n.addr !in Objects(nodes)
    ensures List(heap, head, nodes + [n]) && Shows(nodes + [n], es + [Show(n)])
    ensures Objects(nodes + [n]) == Objects(nodes) + Own(n)
  {
    hide Linked, Owned, Objects, Shows, Show, Insert;
    AppendIsInsert(nodes, n);
    AppendIsInsert(es, Show(n));
    ListInsert(heap, head, nodes, |nodes|, n);
    ShowsInsert(nodes, es, |nodes|, n);
    ShowsLength(nodes, es);
  }

  lemma OwnDisjoint(nodes: seq<Node>, i: nat)
    requires i < |nodes| && Distinct(nodes) && Owned(nodes)
    ensures Own(nodes[i]) !! Objects(nodes[i + 1..])
    ensures Objects(nodes[i..]) == Own(nodes[i]) + Objects(nodes[i + 1..])
  {
    hide Objects;
    forall o | o in Objects(nodes[i + 1..]) ensures o !in Own(nodes[i]) {
      var j := OwnerOf(nodes[i + 1..], o);
      assert nodes[i + 1..][j] == nodes[i + 1 + j];
    }
    ObjectsFirst(nodes, i);
  }

  lemma ObjectsFirst(nodes: seq<Node>, i: nat)
    requires i < |nodes|
    ensures Objects(nodes[i..]) == Own(nodes[i]) + Objects(nodes[i + 1..])
  {
    assert nodes[i..][1..] == nodes[i + 1..];
  }

  lemma {:induction false} OwnerOf(nodes: seq<Node>, o: object) returns (j: nat)
    requires o in Objects(nodes)
    ensures j < |nodes| && o in Own(nodes[j])
  {
    if o in Own(nodes[0]) {
      j := 0;
    } else {
      var k := OwnerOf(nodes[1..], o);
      j := k + 1;
    }
  }

  /** freeaddrinfo: everything the list owns is freed, once, and nothing is used
      after it is freed. */
  method Freeaddrinfo(heap: Heap, aihead: Node?, ghost nodes: seq<Node>)
    requires List(heap, aihead, nodes)
    modifies heap`live
    ensures heap.live == old(heap.live) - Objects(nodes)
  {
    hide Objects;
    var ai := aihead;
    ghost var i := 0;
    assert nodes[0..] == nodes;
    while ai != null
      invariant i <= |nodes| && StandsAt(ai, nodes, i)
      invariant Objects(nodes[i..]) <= heap.live
      invariant heap.live == old(heap.live) - (Objects(nodes) - Objects(nodes[i..]))
      invariant Objects(nodes[i..]) <= Objects(nodes)
      decreases |nodes| - i
    {
      OwnDisjoint(nodes, i);
      assert ai in heap.live;
      if ai.addr != null {
        heap.Free(ai.addr);
      }
      if ai.canonname != null {
        heap.Free(ai.canonname);
      }
      assert ai in heap.live;
      var ainext := ai.next;
      heap.Free(ai);
      ai := ainext;
      i := i + 1;
    }
    assert nodes[i..] == [];
    NoObjects();
  }

  lemma NoObjects()
    ensures Objects([]) == {}
  {
  }

  /** The loop over the addresses of the host. */
  method AddAll(heap: Heap, found: seq<Found>, hint: int, protocol: int)
      returns (rc: int, aihead: Node?, ghost nodes: seq<Node>)
    modifies heap
    ensures List(heap, aihead, nodes)
    ensures heap.live == old(heap.live) + Objects(nodes) && fresh(Objects(nodes))
    ensures rc == 0 || rc == EAI_MEMORY
    ensures heap.failures == old(heap.failures) + if rc == EAI_MEMORY then 1 else 0
    ensures rc == 0 ==> Shows(nodes, NewEntries(found, hint, protocol))
  {
    hide List, Objects, Shows;
    aihead, nodes, rc := null, [], 0;
    var last: Node? := null;
    Nothing(heap);
    var ap := 0;
    while ap < |found|
      invariant ap <= |found|
      invariant List(heap, aihead, nodes) && IsLast(last, nodes)
      invariant heap.live == old(heap.live) + Objects(nodes) && fresh(Objects(nodes))
      invariant heap.failures == old(heap.failures)
      invariant Shows(nodes, NewEntries(found[..ap], hint, protocol))
    {
      ghost var before := nodes;
      LastIsOwned(nodes);
      rc, aihead, last, nodes := GaAistruct(heap, aihead, last, hint, protocol, found[ap].family, found[ap].host,
                                            before, NewEntries(found[..ap], hint, protocol));
      if rc != 0 {
        return;
      }
      assert found[..ap + 1][..ap] == found[..ap];
      ap := ap + 1;
    }
    assert found[..ap] == found;
  }

  lemma Nothing(heap: Heap)
    ensures List(heap, null, []) && Objects([]) == {} && Shows([], [])
  {
  }

  lemma NullIsEmpty(heap: Heap, head: Node?, nodes: seq<Node>, es: seq<Entry>)
    requires List(heap, head, nodes) && Shows(nodes, es)
    ensures head == null <==> es == []
  {
  }

  lemma LastIsOwned(nodes: seq<Node>)
    ensures nodes != [] ==> nodes[|nodes| - 1] in Objects(nodes)
  {
    if nodes != [] {
      ObjectsOwn(nodes, |nodes| - 1);
    }
  }

  /** The fields of a node of the answer. */
  ghost predicate NodeIs(n: Node, clone: bool, f: Found, socktype: int, protocol: int, port: nat)
    reads n, n.addr
  {
    && n.clone == clone && n.family == f.family && n.socktype == socktype && n.protocol == protocol
    && n.addr != null && n.addr.family == f.family && n.addr.host == f.host && n.addr.port == port
  }

  ghost predicate NodeAt(nodes: seq<Node>, found: seq<Found>, hint: int, protocol: int, ps: seq<Port>, i: nat, j: nat)
    requires i < |found| && j < |ps|
    reads nodes, Addrs(nodes)
  {
    && i * |ps| + j < |nodes|
    && NodeIs(nodes[i * |ps| + j], hint == 0 && j == 0, found[i], PortOf(ps, j).socktype, protocol, PortOf(ps, j).port)
  }

  ghost predicate NodesAre(nodes: seq<Node>, found: seq<Found>, hint: int, protocol: int, ps: seq<Port>)
    reads nodes, Addrs(nodes)
  {
    if ps == [] then
      |nodes| == |found| && forall i :: 0 <= i < |found| ==> NodeIs(nodes[i], hint == 0, found[i], hint, protocol, 0)
    else
      && |nodes| == |found| * |ps|
      && forall i, j :: 0 <= i < |found| && 0 <= j < |ps| ==> NodeAt(nodes, found, hint, protocol, ps, i, j)
  }

  lemma ShownFields(nodes: seq<Node>, answer: seq<Entry>, found: seq<Found>, hint: int, protocol: int, ps: seq<Port>)
    requires Shows(nodes, answer) && AnswerIs(answer, found, hint, protocol, ps)
    ensures NodesAre(nodes, found, hint, protocol, ps)
  {
    if ps == [] {
      forall i | 0 <= i < |found|
        ensures NodeIs(nodes[i], hint == 0, found[i], hint, protocol, 0)
      {
        assert Show(nodes[i]) == answer[i];
      }
    } else {
      forall i, j | 0 <= i < |found| && 0 <= j < |ps|
        ensures NodeAt(nodes, found, hint, protocol, ps, i, j)
      {
        assert AnswerAt(answer, found, hint, protocol, ps, i, j);
        assert Show(nodes[i * |ps| + j]) == answer[i * |ps| + j];
      }
    }
  }

  /** getaddrinfo, once the host's addresses are found: the answer, all of it in new
      memory that only the list owns, or an error and no memory kept. */
  method Getaddrinfo(heap: Heap, found: seq<Found>, hint: int, protocol: int, serv: string,
                     tcp: Option<nat>, udp: Option<nat>)
      returns (rc: int, result: Node?, ghost nodes: seq<Node>)
    requires AllKnown(found)
    modifies heap
    ensures rc == EAI_MEMORY <==> heap.failures > old(heap.failures)
    ensures rc != EAI_MEMORY ==> rc == AnswerCode(found, hint, serv, tcp, udp)
    ensures rc != 0 ==> heap.live == old(heap.live) && result == null
    ensures rc == 0 ==> List(heap, result, nodes) && Shows(nodes, Answer(found, hint, protocol, serv, tcp, udp))
    ensures rc == 0 ==>
              NodesAre(nodes, found, hint, protocol, if serv == "" then [] else ServicePorts(hint, serv, tcp, udp))
    ensures rc == 0 ==> heap.live == old(heap.live) + Objects(nodes) && fresh(Objects(nodes))
  {
    hide List, Objects, Shows, Groups, Passes, TotalHits, ServicePorts, Hinted, Ready, NodesAre, AnswerIs;
    ghost var es := NewEntries(found, hint, protocol);
    NewEntriesHinted(found, hint, protocol);
    rc, result, nodes := AddAll(heap, found, hint, protocol);
    if rc == 0 && result == null {
      NullIsEmpty(heap, result, nodes, es);
      rc := EAI_NONAME;
    }
    if rc == 0 {
      NullIsEmpty(heap, result, nodes, es);
    }
    if rc == 0 && serv != "" {
      ServiceGroups(es, hint, serv, tcp, udp);
      rc, nodes := GaServ(heap, result, hint, serv, tcp, udp, nodes, es);
    }
    if rc != 0 {
      Freeaddrinfo(heap, result, nodes);
      result := null;
    } else {
      AnswerFields(found, hint, protocol, serv, tcp, udp);
      ShownFields(nodes, Answer(found, hint, protocol, serv, tcp, udp), found, hint, protocol,
                  if serv == "" then [] else ServicePorts(hint, serv, tcp, udp));
    }
  }
}
