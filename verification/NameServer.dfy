/** The name server (server/CNameServer.cpp): its registry, and the handlers
    that allocate, register, announce and remove services. */
module NameServer {
  import opened Maybes
  import opened EventCode
  import opened Registry
  import opened AddressAllocator
  import opened BindRetry
  import opened Announce
  import KeyOrder

  type Key = (string, Code)

  /** An announcement together with the registry at that moment. */
  datatype Sent = Sent(table: Table, what: Announcement)

  /** Everything ever announced was bound when it was announced. */
  ghost predicate Honest(history: seq<Sent>) {
    forall k | 0 <= k < |history| :: Backed(history[k].table, history[k].what)
  }

  /** No address was tried more often than the limit allows. */
  ghost predicate Patient(limit: int, t: Table) {
    forall n, i | Has(t, n, i) :: RetriesFit(limit, t[n][i].addrs)
  }

  ghost predicate Sound(limit: int, t: Table) {
    Canonical(t) && Settled(t) && Patient(limit, t)
  }

  predicate GoodList(limit: int, addrs: seq<AddrDesc>) {
    AllSettled(addrs) && RetriesFit(limit, addrs)
  }

  // ------------------------------------------------------------------
  // Changing the addresses of one entry.

  function WithAddrs(t: Table, n: string, i: Code, addrs: seq<AddrDesc>): Table
    requires Has(t, n, i)
  {
    Put(t, n, i, t[n][i].(addrs := addrs))
  }

  lemma PutTwice(t: Table, n: string, i: Code, a: Entry, b: Entry)
    ensures Put(Put(t, n, i, a), n, i, b) == Put(t, n, i, b)
  {
    var m: map<Code, Entry> := if n in t then t[n] else map[];
    assert m[i := a][i := b] == m[i := b];
    assert t[n := m[i := a]][n := m[i := b]] == t[n := m[i := b]];
  }

  lemma PutSame(t: Table, n: string, i: Code)
    requires Has(t, n, i)
    ensures Put(t, n, i, t[n][i]) == t
  {
    assert t[n][i := t[n][i]] == t[n];
  }

  lemma PutSound(limit: int, t: Table, n: string, i: Code, e: Entry)
    requires Sound(limit, t) && e.name == n && e.instance == i && GoodList(limit, e.addrs)
    ensures Sound(limit, Put(t, n, i, e))
  {
    PutHas(t, n, i, e);
  }

  lemma EraseSound(limit: int, t: Table, n: string, i: Code)
    requires Sound(limit, t)
    ensures Sound(limit, Erase(t, n, i))
  {
    EraseHas(t, n, i);
  }

  lemma ListOf(limit: int, t: Table, n: string, i: Code)
    requires Sound(limit, t) && Has(t, n, i)
    ensures GoodList(limit, t[n][i].addrs) && t[n][i].name == n && t[n][i].instance == i
  {}

  // ------------------------------------------------------------------
  // Adding offered addresses.

  function AsPending(o: Allocated): AddrDesc {
    AddrDesc(o.addr, o.level, o.interface_, Pending, 0)
  }

  predicate Registered(addrs: seq<AddrDesc>, url: string) {
    exists k :: 0 <= k < |addrs| && addrs[k].addr.url == url
  }

  /** New offers are appended as pending; URLs the service already has are skipped. */
  function AddOffers(addrs: seq<AddrDesc>, offers: seq<Allocated>): seq<AddrDesc> {
    if offers == [] then addrs
    else
      var before := AddOffers(addrs, offers[..|offers| - 1]);
      var last := offers[|offers| - 1];
      if Registered(before, last.addr.url) then before else before + [AsPending(last)]
  }

  lemma {:induction false} OffersAreGood(limit: int, addrs: seq<AddrDesc>, offers: seq<Allocated>)
    requires GoodList(limit, addrs)
    ensures GoodList(limit, AddOffers(addrs, offers))
  {
    if offers != [] {
      OffersAreGood(limit, addrs, offers[..|offers| - 1]);
    }
  }

  /** What there was stays as it was; every addition is pending and its URL is new to the service. */
  lemma {:induction false} OffersAreAppended(addrs: seq<AddrDesc>, offers: seq<Allocated>)
    ensures addrs <= AddOffers(addrs, offers)
    ensures forall k | |addrs| <= k < |AddOffers(addrs, offers)| ::
              && AddOffers(addrs, offers)[k].status.Pending?
              && forall j | 0 <= j < k :: AddOffers(addrs, offers)[j].addr.url != AddOffers(addrs, offers)[k].addr.url
  {
    if offers != [] {
      OffersAreAppended(addrs, offers[..|offers| - 1]);
    }
  }

  /** Offers to a user service are not held by anyone, unless the system picks the port. */
  ghost predicate AllUsable(t: Table, kind: ServerType, offers: seq<Allocated>) {
    kind.UserService? ==> forall k | 0 <= k < |offers| :: Usable(t, offers[k])
  }

  lemma {:induction false} OffersConcat(addrs: seq<AddrDesc>, a: seq<Allocated>, b: seq<Allocated>)
    ensures AddOffers(AddOffers(addrs, a), b) == AddOffers(addrs, a + b)
    decreases |b|
  {
    if b == [] {
      assert a + b == a;
    } else {
      OffersConcat(addrs, a, b[..|b| - 1]);
      assert (a + b)[..|a + b| - 1] == a + b[..|b| - 1];
    }
  }

  /** What is usable with a new entry was usable before it was there. */
  lemma UsableBefore(t: Table, n: string, i: Code, e: Entry, kind: ServerType, offers: seq<Allocated>)
    requires AllUsable(Put(t, n, i, e), kind, offers) && !Has(t, n, i)
    ensures AllUsable(t, kind, offers)
  {
    PutHas(t, n, i, e);
    forall k | kind.UserService? && 0 <= k < |offers| ensures Usable(t, offers[k]) {
      assert Usable(Put(t, n, i, e), offers[k]);
    }
  }

  /** Adding to a new entry twice is like adding everything at once. */
  lemma TwoAdds(t: Table, n: string, i: Code, e: Entry, a: seq<Allocated>, b: seq<Allocated>)
    requires !Has(t, n, i) && e.addrs == []
    requires AllUsable(Put(t, n, i, e), e.kind, a)
    requires AllUsable(Put(Put(t, n, i, e), n, i, e.(addrs := AddOffers([], a))), e.kind, b)
    ensures Put(Put(Put(t, n, i, e), n, i, e.(addrs := AddOffers([], a))), n, i, e.(addrs := AddOffers(AddOffers([], a), b)))
            == Put(t, n, i, e.(addrs := AddOffers([], a + b)))
    ensures AllUsable(t, e.kind, a + b)
  {
    var e1 := e.(addrs := AddOffers([], a));
    PutTwice(t, n, i, e, e1);
    PutTwice(t, n, i, e1, e.(addrs := AddOffers(AddOffers([], a), b)));
    OffersConcat([], a, b);
    UsableBefore(t, n, i, e, e.kind, a);
    UsableBefore(t, n, i, e1, e.kind, b);
  }

  lemma NotFoundIsAbsent(t: Table, name: string, id: Code)
    requires !Found(t, name, id)
    ensures !Has(t, name, id)
  {
    assert !Matches(t, name, id, name, id);
  }

  function LevelOf(a: Allocator): int {
    if a.TcpAllocator? then a.level else NODE_INTERNAL
  }

  /** The name server's own addresses after binding them itself. */
  function BindOwn(addrs: seq<AddrDesc>, bindable: set<string>): seq<AddrDesc> {
    if addrs == [] then []
    else
      var last := addrs[|addrs| - 1];
      BindOwn(addrs[..|addrs| - 1], bindable)
      + if last.status.Bound? then [last] else if last.addr.url in bindable then [last.(status := Bound)] else []
  }

  /** What the name server keeps of its own addresses is bound. */
  lemma {:induction false} OwnAreBound(limit: int, addrs: seq<AddrDesc>, bindable: set<string>)
    requires GoodList(limit, addrs)
    ensures GoodList(limit, BindOwn(addrs, bindable)) && !HasPending(BindOwn(addrs, bindable))
  {
    if addrs != [] {
      OwnAreBound(limit, addrs[..|addrs| - 1], bindable);
    }
  }

  /** It keeps exactly the addresses that are bound or can be. */
  lemma {:induction false} InBindOwn(addrs: seq<AddrDesc>, bindable: set<string>, d: AddrDesc)
    ensures d in BindOwn(addrs, bindable) <==>
              exists x :: x in addrs && (x.status.Bound? || x.addr.url in bindable) && d == x.(status := Bound)
  {
    if addrs != [] {
      var front, last := addrs[..|addrs| - 1], addrs[|addrs| - 1];
      InBindOwn(front, bindable, d);
      assert addrs == front + [last];
      if last.status.Bound? {
        assert last == last.(status := Bound);
      }
    }
  }

  /** A bind report leaves every address pending or bound. */
  lemma ReportKeepsGood(cfg: Config, parse: Parser, limit: int, b: Binding, act: Act, b': Binding)
    requires cfg.Complete() && IsAct(cfg, parse, limit, b, act, b') && Fits(limit, b) && GoodList(limit, b.addrs)
    ensures Fits(limit, b') && GoodList(limit, b'.addrs)
  {
    ActSpends(cfg, parse, limit, b, act, b');
    if act.Reported? {
      var e, r := act.e, act.r;
      var k := IndexOf(e.addrs, r.request);
      if k < |e.addrs| && r.bind == "" && !e.addrs[k].status.Bound? {
        var again :| IsRebind(cfg, parse, limit, act.t, e.kind, act.alloc, e.addrs[k], again)
                     && b'.addrs == Retried(e.addrs, k, again);
        if again.Just? {
          assert again.value.status == e.addrs[k].status;
        }
      }
    }
  }

  predicate AllReported(reports: seq<Report>, acts: seq<Act>) {
    |acts| == |reports| && forall k | 0 <= k < |reports| :: acts[k].Reported? && acts[k].r == reports[k]
  }

  /** One request: its reports in order, then the end of the request. */
  ghost predicate IsRequest(cfg: Config, parse: Parser, limit: int, reports: seq<Report>, bs: seq<Binding>, acts: seq<Act>)
    requires cfg.Complete()
  {
    && IsActs(cfg, parse, limit, bs, acts)
    && |acts| == |reports| + 1 && AllReported(reports, acts[..|reports|]) && acts[|reports|].Ended?
  }

  lemma OneMoreReport(reports: seq<Report>, k: nat, acts: seq<Act>, act: Act)
    requires k < |reports| && AllReported(reports[..k], acts) && act.Reported? && act.r == reports[k]
    ensures AllReported(reports[..k + 1], acts + [act])
  {}

  lemma OneMoreAct(cfg: Config, parse: Parser, limit: int, bs: seq<Binding>, acts: seq<Act>, act: Act, b: Binding)
    requires cfg.Complete() && IsActs(cfg, parse, limit, bs, acts) && IsAct(cfg, parse, limit, bs[|acts|], act, b)
    ensures IsActs(cfg, parse, limit, bs + [b], acts + [act])
  {
    var bs', acts' := bs + [b], acts + [act];
    forall n | 0 <= n < |acts'| ensures IsAct(cfg, parse, limit, bs'[n], acts'[n], bs'[n + 1]) {
      if n < |acts| {
        assert bs'[n] == bs[n] && bs'[n + 1] == bs[n + 1] && acts'[n] == acts[n];
      }
    }
  }

  /** Changing the addresses twice is changing them once. */
  lemma Chained(t0: Table, n: string, i: Code, t1: Table, t2: Table)
    requires Has(t0, n, i) && Has(t1, n, i) && t1 == WithAddrs(t0, n, i, t1[n][i].addrs)
    requires Has(t2, n, i) && t2 == WithAddrs(t1, n, i, t2[n][i].addrs)
    ensures t2 == WithAddrs(t0, n, i, t2[n][i].addrs)
  {
    PutHas(t0, n, i, t0[n][i].(addrs := t1[n][i].addrs));
    PutTwice(t0, n, i, t1[n][i], t2[n][i]);
  }

  // ------------------------------------------------------------------
  // Announcements.

  function Notice(t: Table, audience: Audience, n: string, i: Code, addrs: seq<AddrDesc>): seq<Sent> {
    if addrs == [] then [] else [Sent(t, Announcement(audience, n, i, Items(addrs)))]
  }

  /** What a newly registered service is announced as. */
  function Notices(t: Table, n: string, i: Code, maxDomain: int): seq<Sent>
    requires Has(t, n, i)
  {
    var addrs := t[n][i].addrs;
    var all := Select(addrs, UpTo(ANY_LEVEL));
    Notice(t, LocalMonitors, n, i, all) + Notice(t, RemoteMonitors, n, i, all)
    + Notice(t, LocalClients, n, i, ForLocal(addrs))
    + Notice(t, RemoteServers, n, i, Select(addrs, ForRemote(maxDomain)))
  }

  lemma NoticeIsHonest(t: Table, audience: Audience, n: string, i: Code, addrs: seq<AddrDesc>)
    requires Has(t, n, i) && BackedBy(t[n][i].addrs, Items(addrs))
    ensures Honest(Notice(t, audience, n, i, addrs))
  {}

  lemma HonestConcat(a: seq<Sent>, b: seq<Sent>)
    requires Honest(a) && Honest(b)
    ensures Honest(a + b)
  {}

  /** A service without pending addresses is announced with bound addresses only. */
  lemma NoticesAreHonest(limit: int, t: Table, n: string, i: Code, maxDomain: int)
    requires Sound(limit, t) && Has(t, n, i) && !HasPending(t[n][i].addrs)
    ensures Honest(Notices(t, n, i, maxDomain))
  {
    var addrs := t[n][i].addrs;
    ListOf(limit, t, n, i);
    SettledIsBound(addrs);
    var all, remote := Select(addrs, UpTo(ANY_LEVEL)), Select(addrs, ForRemote(maxDomain));
    SelectedIsBacked(addrs, UpTo(ANY_LEVEL));
    SelectedIsBacked(addrs, ForRemote(maxDomain));
    LocalIsBacked(addrs);
    NoticeIsHonest(t, LocalMonitors, n, i, all);
    NoticeIsHonest(t, RemoteMonitors, n, i, all);
    NoticeIsHonest(t, LocalClients, n, i, ForLocal(addrs));
    NoticeIsHonest(t, RemoteServers, n, i, remote);
    HonestConcat(Notice(t, LocalMonitors, n, i, all), Notice(t, RemoteMonitors, n, i, all));
    HonestConcat(Notice(t, LocalMonitors, n, i, all) + Notice(t, RemoteMonitors, n, i, all),
                 Notice(t, LocalClients, n, i, ForLocal(addrs)));
    HonestConcat(Notice(t, LocalMonitors, n, i, all) + Notice(t, RemoteMonitors, n, i, all)
                 + Notice(t, LocalClients, n, i, ForLocal(addrs)), Notice(t, RemoteServers, n, i, remote));
  }

  /** The message is a service with its exportable bound addresses. */
  predicate IsExported(t: Table, min: int, s: Sent) {
    var n, i := s.what.name, s.what.instance;
    && Has(t, n, i) && Select(t[n][i].addrs, BoundFrom(min)) != []
    && s == Sent(t, Announcement(HostServers, n, i, Items(Select(t[n][i].addrs, BoundFrom(min)))))
  }

  /** Each service with exportable bound addresses, and only those. */
  ghost predicate IsExport(t: Table, min: int, list: seq<Sent>) {
    forall s :: s in list <==> IsExported(t, min, s)
  }

  lemma ExportIsHonest(t: Table, min: int, list: seq<Sent>)
    requires IsExport(t, min, list)
    ensures Honest(list)
  {
    forall k | 0 <= k < |list| ensures Backed(list[k].table, list[k].what) {
      assert list[k] in list;
      SelectedIsBacked(t[list[k].what.name][list[k].what.instance].addrs, BoundFrom(min));
    }
  }

  function LastOf(addrs: seq<AddrDesc>): seq<AddrDesc> {
    if addrs == [] then [] else [addrs[|addrs| - 1]]
  }

  ghost predicate SameEntries(t: Table, t': Table) {
    forall n, i :: Has(t', n, i) <==> Has(t, n, i)
  }

  lemma NameStays(t: Table, t': Table, n: string)
    requires Canonical(t) && SameEntries(t, t') && n in t
    ensures n in t'
  {
    assert t[n].Keys != {};
    assert Has(t', n, KeyOrder.Least(t[n].Keys)) <==> Has(t, n, KeyOrder.Least(t[n].Keys));
  }

  /** An entry after the interfaces became available: nothing for the host
      server, bound addresses for the name server, pending ones for the rest. */
  ghost predicate IsExtended(nsName: string, hsName: string, bindable: set<string>, e: Entry, e': Entry) {
    if e.name == hsName then e' == e
    else exists offers ::
        e' == e.(addrs := if e.name == nsName && |AddOffers(e.addrs, offers)| > |e.addrs|
                          then BindOwn(AddOffers(e.addrs, offers), bindable)
                          else AddOffers(e.addrs, offers))
  }

  ghost predicate AllExtended(nsName: string, hsName: string, bindable: set<string>, t: Table, t': Table) {
    && SameEntries(t, t')
    && forall n, i | Has(t', n, i) :: IsExtended(nsName, hsName, bindable, t[n][i], t'[n][i])
  }

  /** What a subscriber is told about one entry. */
  function Told(t: Table, nsName: string, who: Subscriber, transport: Transport, maxDomain: int, sid: int, key: Key): seq<Sent> {
    if Has(t, key.0, key.1)
    then Notice(t, Listener(sid), key.0, key.1, ForSubscriber(t[key.0][key.1].addrs, key.0 == nsName, who, transport, maxDomain))
    else []
  }

  function AllTold(t: Table, nsName: string, who: Subscriber, transport: Transport, maxDomain: int, sid: int, keys: seq<Key>): seq<Sent> {
    if keys == [] then []
    else
      AllTold(t, nsName, who, transport, maxDomain, sid, keys[..|keys| - 1])
      + Told(t, nsName, who, transport, maxDomain, sid, keys[|keys| - 1])
  }

  lemma AppendedTwice(a: seq<Sent>, b: seq<Sent>, c: seq<Sent>)
    ensures a + b + c == a + (b + c)
  {}

  lemma ToldOneMore(t: Table, nsName: string, who: Subscriber, transport: Transport, maxDomain: int, sid: int, keys: seq<Key>, k: nat)
    requires k < |keys|
    ensures AllTold(t, nsName, who, transport, maxDomain, sid, keys[..k + 1])
            == AllTold(t, nsName, who, transport, maxDomain, sid, keys[..k])
               + Told(t, nsName, who, transport, maxDomain, sid, (keys[k].0, keys[k].1))
  {
    assert keys[..k + 1][..k] == keys[..k];
    assert keys[k] == (keys[k].0, keys[k].1);
  }

  function Withdrawal(t: Table, n: string, i: Code): seq<Sent> {
    [ Sent(t, Announcement(LocalClients, n, i, [])), Sent(t, Announcement(LocalMonitors, n, i, [])),
      Sent(t, Announcement(RemoteServers, n, i, [])), Sent(t, Announcement(RemoteMonitors, n, i, [])) ]
  }

  datatype AllocResult = Granted(instance: Code) | NoAddress(instance: Code) | NoResource | AlreadyExists

  datatype RegisterResult = Announced | StillPending | Dropped | NonExist | BadParameter

  class NameServer {
    const cfg: Config
    const parse: Parser
    const retryLimit: int
    const maxDomain: int
    const minUpstream: int
    const nsName: string
    const hsName: string
    /** The allocators that the network interfaces call for. */
    const interfaces: map<string, Allocator>

    var table: Table
    var counter: nat
    var ipc: AddressSource
    var tcp: map<string, AddressSource>
    ghost var history: seq<Sent>

    ghost predicate Valid()
      reads this
    {
      cfg.Complete() && Sound(retryLimit, table) && Honest(history)
    }

    constructor (cfg: Config, parse: Parser, retryLimit: int, maxDomain: int, minUpstream: int, nsName: string, hsName: string,
                 interfaces: map<string, Allocator>)
      requires cfg.Complete()
      ensures Valid() && table == map[] && counter == AUTO_INSTANCE_BEGIN && history == []
      ensures this.cfg == cfg && this.retryLimit == retryLimit
      ensures this.maxDomain == if maxDomain < 0 then DOMAIN_LEVEL else maxDomain
      ensures this.minUpstream == if minUpstream < 0 then DOMAIN_LEVEL else minUpstream
      ensures this.nsName == nsName && this.hsName == hsName && this.interfaces == interfaces && tcp == map[]
      ensures fresh(ipc) && ipc.state == IpcAllocator(0)
    {
      this.cfg, this.parse, this.retryLimit := cfg, parse, retryLimit;
      this.maxDomain := if maxDomain < 0 then DOMAIN_LEVEL else maxDomain;
      this.minUpstream := if minUpstream < 0 then DOMAIN_LEVEL else minUpstream;
      this.nsName, this.hsName, this.interfaces := nsName, hsName, interfaces;
      table, counter, tcp, history := map[], AUTO_INSTANCE_BEGIN, map[], [];
      ipc := new AddressSource(IpcAllocator(0));
    }

    function KindOf(name: string): ServerType {
      if name == nsName then NameServerType else if name == hsName then HostServerType else UserService
    }

    // ----------------------------------------------------------------
    // Looking up and erasing.

    /** The instances of one service that a request covers, in ascending order. */
    method FindInstances(n: string, inst: Code) returns (ids: seq<Code>)
      requires n in table
      ensures forall i :: i in ids <==> Has(table, n, i) && Covers(inst, i)
      ensures forall j, k | 0 <= j < k < |ids| :: ids[j] < ids[k]
    {
      ids := [];
      if IsGroup(inst) {
        var rest := table[n].Keys;
        while rest != {}
          invariant rest <= table[n].Keys
          invariant forall i :: i in ids <==> i in table[n] && i !in rest && Covers(inst, i)
          invariant forall i, j | i in ids && j in rest :: i < j
          invariant forall j, k | 0 <= j < k < |ids| :: ids[j] < ids[k]
          decreases |rest|
        {
          var i := KeyOrder.Least(rest);
          forall k | 0 <= k < |ids| ensures ids[k] < i {
            assert ids[k] in ids && i in rest;
          }
          rest := rest - {i};
          if InGroup(inst, ALL_GROUPS) || SameGroup(inst, i) {
            ids := ids + [i];
          }
        }
      } else if inst in table[n] {
        ids := [inst];
      }
    }

    /** All entries that answer a request. */
    method FindService(name: string, inst: Code) returns (keys: seq<Key>)
      ensures forall n, i :: (n, i) in keys <==> Matches(table, name, inst, n, i)
      ensures keys != [] <==> Found(table, name, inst)
    {
      keys := [];
      if name == "" {
        var rest := table.Keys;
        while rest != {}
          invariant rest <= table.Keys
          invariant forall n, i :: (n, i) in keys <==> Matches(table, name, inst, n, i) && n !in rest
          decreases |rest|
        {
          var n :| n in rest;
          rest := rest - {n};
          var ids := FindInstances(n, inst);
          keys := keys + Paired(n, ids);
          InPaired(n, ids);
        }
      } else if name in table {
        var ids := FindInstances(name, inst);
        keys := Paired(name, ids);
        InPaired(name, ids);
      }
      if keys != [] {
        assert (keys[0].0, keys[0].1) in keys;
      }
    }

    /** Removes an entry and, with its last instance, the name. */
    method EraseService(name: string, inst: Code) returns (erased: bool)
      modifies `table
      ensures erased <==> Has(old(table), name, inst)
      ensures table == Erase(old(table), name, inst)
    {
      erased := false;
      if name in table {
        var ids := table[name];
        if inst in ids {
          ids := ids - {inst};
          erased := true;
        }
        if ids == map[] {
          table := table - {name};
        } else {
          table := table[name := ids];
        }
        assert !erased ==> ids == old(table)[name] - {inst};
      }
    }

    // ----------------------------------------------------------------
    // Instance ids.

    /** Picks an instance of the requested group that is not registered yet:
        counting up from the counter, then once through the automatic range. */
    method AllocateInstance(name: string, group: Code) returns (r: Maybe<Code>)
      modifies `counter
      ensures r.Just? ==> SameGroup(r.value, group) && !Found(table, name, r.value)
      ensures r.Just? ==> IsNextFree(table, name, group, old(counter), IdOf(r.value)) && counter == IdOf(r.value) + 1
      ensures r.Nothing? <==> AllTaken(table, name, group, old(counter))
    {
      var wrap := false;
      var instance := group;
      while true
        invariant SameGroup(instance, group)
        invariant !wrap ==> counter >= old(counter) && TakenUpTo(table, name, group, old(counter), counter)
        invariant wrap ==> TakenUpTo(table, name, group, old(counter), AUTO_INSTANCE_END + 1) && AUTO_INSTANCE_BEGIN <= counter
        invariant wrap ==> TakenUpTo(table, name, group, AUTO_INSTANCE_BEGIN, counter)
        decreases !wrap, AUTO_INSTANCE_END + 1 - counter
      {
        var next := counter;
        counter := counter + 1;
        if next > AUTO_INSTANCE_END {
          counter := AUTO_INSTANCE_BEGIN;
          if wrap {
            return Nothing;
          }
          wrap := true;
          continue;
        }
        instance := Merge(instance, next);
        assert instance == Merge(group, next);
        var keys := FindService(name, instance);
        if keys == [] {
          return Just(instance);
        }
      }
    }

    // ----------------------------------------------------------------
    // Announcing.

    method Tell(audience: Audience, n: string, i: Code, addrs: seq<AddrDesc>)
      modifies `history
      ensures history == old(history) + Notice(table, audience, n, i, addrs)
    {
      if addrs != [] {
        history := history + [Sent(table, Announcement(audience, n, i, Items(addrs)))];
      }
    }

    // ----------------------------------------------------------------
    // Registering.

    method AddressRegistered(addrs: seq<AddrDesc>, url: string) returns (found: bool)
      ensures found <==> Registered(addrs, url)
    {
      for n := 0 to |addrs|
        invariant forall k | 0 <= k < n :: addrs[k].addr.url != url
      {
        if addrs[n].addr.url == url {
          return true;
        }
      }
      return false;
    }

    /** Appends the offered addresses to a service as pending. */
    method AddServiceAddresses(n: string, i: Code, offers: seq<Allocated>)
      requires Has(table, n, i)
      modifies `table
      ensures table == WithAddrs(old(table), n, i, AddOffers(old(table)[n][i].addrs, offers))
    {
      var addrs := table[n][i].addrs;
      for k := 0 to |offers|
        invariant table == old(table)
        invariant addrs == AddOffers(table[n][i].addrs, offers[..k])
      {
        assert offers[..k + 1][..k] == offers[..k];
        var known := AddressRegistered(addrs, offers[k].addr.url);
        if !known {
          addrs := addrs + [AsPending(offers[k])];
        }
      }
      assert offers[..|offers|] == offers;
      table := Put(table, n, i, table[n][i].(addrs := addrs));
    }

    /** Allocators for all interfaces, freshly set up. */
    method CreateTcpAllocators() returns (sources: map<string, AddressSource>)
      ensures sources.Keys == interfaces.Keys
      ensures forall ip | ip in sources :: fresh(sources[ip]) && sources[ip].state == interfaces[ip]
    {
      sources := map[];
      var rest := interfaces.Keys;
      while rest != {}
        invariant rest <= interfaces.Keys && sources.Keys == interfaces.Keys - rest
        invariant forall ip | ip in sources :: fresh(sources[ip]) && sources[ip].state == interfaces[ip]
        decreases |rest|
      {
        var ip :| ip in rest;
        var source := new AddressSource(interfaces[ip]);
        sources := sources[ip := source];
        rest := rest - {ip};
      }
    }

    /** One address from each allocator whose level the service may reach, for
        each kind of connection it allows. */
    method AllocateTcpAddresses(kind: ServerType, level: int, normal: bool, secure: bool, sources: map<string, AddressSource>)
      returns (offers: seq<Allocated>)
      requires cfg.Complete()
      modifies sources.Values
      ensures AllUsable(table, kind, offers)
    {
      offers := [];
      var rest := sources.Keys;
      while rest != {}
        invariant rest <= sources.Keys && AllUsable(table, kind, offers)
        decreases |rest|
      {
        var ip :| ip in rest;
        rest := rest - {ip};
        if level >= LevelOf(sources[ip].state) {
          if normal {
            var r := AllocateAddress(cfg, table, sources[ip], kind, false);
            offers := offers + if r.Just? then [r.value] else [];
          }
          if secure {
            var r := AllocateAddress(cfg, table, sources[ip], kind, true);
            offers := offers + if r.Just? then [r.value] else [];
          }
        }
      }
    }

    /** A service asks for addresses: it gets a new entry with pending addresses. */
    method OnAllocServiceAddress(name: string, inst: Code, sid: int, level: int, normal: bool, secure: bool)
      returns (r: AllocResult, ghost offers: seq<Allocated>)
      requires Valid()
      modifies this, ipc, tcp.Values
      ensures Valid() && history == old(history) && ipc == old(ipc) && tcp == old(tcp)
      ensures r.NoResource? <==> IsGroup(inst) && AllTaken(old(table), name, inst, old(counter))
      ensures r.AlreadyExists? <==> !IsGroup(inst) && Found(old(table), name, inst)
      ensures r.NoResource? || r.AlreadyExists? ==> table == old(table)
      ensures r.Granted? || r.NoAddress? ==>
                && (if IsGroup(inst) then SameGroup(r.instance, inst) else r.instance == inst)
                && !Found(old(table), name, r.instance)
                && AllUsable(old(table), KindOf(name), offers)
                && table == Put(old(table), name, r.instance,
                                Entry(name, r.instance, sid, KindOf(name), level, normal, secure, AddOffers([], offers)))
                && (r.NoAddress? <==> AddOffers([], offers) == [])
    {
      offers := [];
      var id := inst;
      if IsGroup(inst) {
        var found := AllocateInstance(name, inst);
        if found.Nothing? {
          return NoResource, offers;
        }
        id := found.value;
      } else {
        var keys := FindService(name, inst);
        if keys != [] {
          return AlreadyExists, offers;
        }
      }
      NotFoundIsAbsent(table, name, id);
      var addrs;
      addrs, offers := NewEntry(name, id, sid, level, normal, secure);
      OffersAreGood(retryLimit, [], offers);
      PutSound(retryLimit, old(table), name, id, table[name][id]);
      r := if addrs == [] then NoAddress(id) else Granted(id);
    }

    /** A local socket for the service. */
    method AddLocalAddress(n: string, i: Code) returns (ghost offers: seq<Allocated>)
      requires cfg.Complete() && Has(table, n, i)
      modifies `table, ipc
      ensures AllUsable(old(table), old(table)[n][i].kind, offers)
      ensures table == WithAddrs(old(table), n, i, AddOffers(old(table)[n][i].addrs, offers))
    {
      var local := AllocateAddress(cfg, table, ipc, table[n][i].kind, false);
      var list := if local.Just? then [local.value] else [];
      offers := list;
      AddServiceAddresses(n, i, list);
    }

    /** Addresses on the interfaces; a host server has allocators of its own. */
    method AddInetAddresses(n: string, i: Code) returns (ghost offers: seq<Allocated>)
      requires cfg.Complete() && Has(table, n, i)
      modifies `table, tcp.Values
      ensures AllUsable(old(table), old(table)[n][i].kind, offers)
      ensures table == WithAddrs(old(table), n, i, AddOffers(old(table)[n][i].addrs, offers))
    {
      var e := table[n][i];
      var sources := tcp;
      if e.kind.HostServerType? {
        sources := CreateTcpAllocators();
      }
      var list := AllocateTcpAddresses(e.kind, e.level, e.normal, e.secure, sources);
      offers := list;
      AddServiceAddresses(n, i, list);
    }

    /** A new entry, first with a local socket and then with addresses on the interfaces. */
    method NewEntry(name: string, id: Code, sid: int, level: int, normal: bool, secure: bool)
      returns (addrs: seq<AddrDesc>, ghost offers: seq<Allocated>)
      requires cfg.Complete() && !Has(table, name, id)
      modifies `table, ipc, tcp.Values
      ensures AllUsable(old(table), KindOf(name), offers) && addrs == AddOffers([], offers)
      ensures table == Put(old(table), name, id, Entry(name, id, sid, KindOf(name), level, normal, secure, addrs))
    {
      var e := Entry(name, id, sid, KindOf(name), level, normal, secure, []);
      table := Put(table, name, id, e);
      PutHas(old(table), name, id, e);
      ghost var first := AddLocalAddress(name, id);
      PutHas(Put(old(table), name, id, e), name, id, e.(addrs := AddOffers([], first)));
      ghost var second := AddInetAddresses(name, id);
      offers := first + second;
      TwoAdds(old(table), name, id, e, first, second);
      PutHas(old(table), name, id, e.(addrs := AddOffers([], offers)));
      addrs := table[name][id].addrs;
    }

    /** The allocator for another try of an address; a host server may use a fresh one. */
    function AllocatorFor(name: string, d: AddrDesc): Maybe<Allocator>
      reads this, ipc, tcp.Values
    {
      if d.addr.transport.Ipc? then Just(ipc.state)
      else if d.addr.ip in tcp then Just(tcp[d.addr.ip].state)
      else if name == hsName && d.addr.ip in interfaces then Just(interfaces[d.addr.ip])
      else Nothing
    }

    /** An address from the allocator for another try, if there is one. */
    method AllocateAgain(name: string, kind: ServerType, d: AddrDesc) returns (offer: Maybe<Allocated>, ghost after: Allocator)
      requires cfg.Complete()
      modifies ipc, tcp.Values
      ensures var a := old(AllocatorFor(name, d));
              if a.Just? then IsAllocation(cfg, table, a.value, kind, d.addr.secure, offer, after) else offer == Nothing
    {
      after := ipc.state;
      if d.addr.transport.Ipc? {
        offer := AllocateAddress(cfg, table, ipc, kind, d.addr.secure);
        after := ipc.state;
      } else if d.addr.ip in tcp {
        var source := tcp[d.addr.ip];
        offer := AllocateAddress(cfg, table, source, kind, d.addr.secure);
        after := source.state;
      } else if name == hsName && d.addr.ip in interfaces {
        var sources := CreateTcpAllocators();
        var source := sources[d.addr.ip];
        offer := AllocateAddress(cfg, table, source, kind, d.addr.secure);
        after := source.state;
      } else {
        offer := Nothing;
      }
    }

    /** Another address for one that could not be bound, within the retry limit. */
    method Rebind(name: string, kind: ServerType, d: AddrDesc) returns (r: Maybe<AddrDesc>)
      requires cfg.Complete()
      modifies ipc, tcp.Values
      ensures IsRebind(cfg, parse, retryLimit, table, kind, old(AllocatorFor(name, d)), d, r)
    {
      if d.rebinds >= retryLimit {
        return Nothing;
      }
      ghost var t, alloc := table, AllocatorFor(name, d);
      var offer;
      ghost var after;
      offer, after := AllocateAgain(name, kind, d);
      OfferIsRebind(cfg, parse, retryLimit, t, kind, alloc, d, offer, after);
      r := Parsed(d, offer);
    }

    /** The offer under its parsed address, if it has one. */
    method Parsed(d: AddrDesc, offer: Maybe<Allocated>) returns (r: Maybe<AddrDesc>)
      ensures r == Replacement(parse, d, offer)
    {
      r := Nothing;
      if offer.Just? {
        var addr := parse(offer.value.addr.url);
        if addr.Just? {
          r := Just(AddrDesc(addr.value, offer.value.level, offer.value.interface_, d.status, d.rebinds + 1));
        }
      }
    }

    /** One bind report of the service (n, i). */
    method ProcessReport(n: string, i: Code, r: Report, extra: seq<AddrDesc>)
      returns (more: seq<AddrDesc>, ghost alloc: Maybe<Allocator>)
      requires cfg.Complete() && Has(table, n, i)
      modifies `table, ipc, tcp.Values
      ensures Has(table, n, i) && table == WithAddrs(old(table), n, i, table[n][i].addrs)
      ensures IsReport(cfg, parse, retryLimit, old(table), old(table)[n][i], alloc, r, table[n][i].addrs, extra, more)
    {
      alloc := Nothing;
      more := extra;
      PutSame(table, n, i);
      var e := table[n][i];
      var k := 0;
      while k < |e.addrs| && e.addrs[k].addr.url != r.request
        invariant k <= |e.addrs| && forall j | 0 <= j < k :: e.addrs[j].addr.url != r.request
      {
        k := k + 1;
      }
      assert k == IndexOf(e.addrs, r.request);
      if k == |e.addrs| {
        var addr := parse(r.bind);
        if addr.Just? {
          more := extra + [AddrDesc(addr.value, DOMAIN_LEVEL, INVALID_ID, Bound, 0)];
        }
        return;
      }
      var d := e.addrs[k];
      var addrs := e.addrs;
      if r.bind != "" {
        d := d.(status := Bound);
        if d.addr.transport.Tcp? && r.bind != d.addr.url && parse(r.bind).Just? {
          d := d.(addr := parse(r.bind).value);
        }
        addrs := addrs[k := d];
      } else if !d.status.Bound? {
        alloc := AllocatorFor(e.name, d);
        var again := Rebind(e.name, e.kind, d);
        addrs := if again.Just? then addrs[k := again.value] else addrs[..k] + addrs[k + 1..];
        assert addrs == Retried(e.addrs, k, again);
      }
      table := Put(table, n, i, e.(addrs := addrs));
      PutHas(old(table), n, i, e.(addrs := addrs));
    }

    /** All reports of one request, and the unknown addresses at the end. */
    method ProcessReports(n: string, i: Code, reports: seq<Report>) returns (ghost bs: seq<Binding>, ghost acts: seq<Act>)
      requires cfg.Complete() && Has(table, n, i) && Sound(retryLimit, table)
      modifies `table, ipc, tcp.Values
      ensures IsRequest(cfg, parse, retryLimit, reports, bs, acts) && bs[0] == Binding(old(table)[n][i].addrs, [])
      ensures table == WithAddrs(old(table), n, i, bs[|acts|].addrs)
      ensures Sound(retryLimit, table)
    {
      ListOf(retryLimit, table, n, i);
      PutSame(table, n, i);
      ghost var t0: Table := table;
      bs, acts := [Binding(table[n][i].addrs, [])], [];
      var extra := [];
      for k := 0 to |reports|
        invariant Has(t0, n, i) && Has(table, n, i) && table == WithAddrs(t0, n, i, table[n][i].addrs)
        invariant AllReported(reports[..k], acts) && IsActs(cfg, parse, retryLimit, bs, acts)
        invariant bs[0] == Binding(t0[n][i].addrs, []) && bs[|acts|] == Binding(table[n][i].addrs, extra)
        invariant Fits(retryLimit, bs[|acts|]) && GoodList(retryLimit, bs[|acts|].addrs)
      {
        ghost var t1: Table := table;
        var more;
        ghost var alloc;
        more, alloc := ProcessReport(n, i, reports[k], extra);
        ghost var act := Reported(t1, t1[n][i], alloc, reports[k]);
        ghost var b := Binding(table[n][i].addrs, more);
        ReportKeepsGood(cfg, parse, retryLimit, bs[|acts|], act, b);
        OneMoreAct(cfg, parse, retryLimit, bs, acts, act, b);
        OneMoreReport(reports, k, acts, act);
        Chained(t0, n, i, t1, table);
        bs, acts, extra := bs + [b], acts + [act], more;
      }
      assert reports[..|reports|] == reports;
      ghost var last := Binding(table[n][i].addrs + extra, []);
      ReportKeepsGood(cfg, parse, retryLimit, bs[|acts|], Ended, last);
      OneMoreAct(cfg, parse, retryLimit, bs, acts, Ended, last);
      bs, acts := bs + [last], acts + [Ended];
      ghost var t1: Table := table;
      table := Put(table, n, i, table[n][i].(addrs := table[n][i].addrs + extra));
      PutHas(t1, n, i, t1[n][i].(addrs := last.addrs));
      Chained(t0, n, i, t1, table);
      PutSound(retryLimit, t0, n, i, t0[n][i].(addrs := last.addrs));
    }

    /** A service reports what it bound.  Once nothing is pending it is announced. */
    method OnRegisterService(name: string, inst: Code, sid: int, reports: seq<Report>)
      returns (r: RegisterResult, ghost key: Key, ghost bs: seq<Binding>, ghost acts: seq<Act>, ghost list: seq<Sent>)
      requires Valid()
      modifies this, ipc, tcp.Values
      ensures Valid()
      ensures r.BadParameter? <==> IsGroup(inst)
      ensures r.NonExist? <==> !IsGroup(inst) && !Found(old(table), name, inst)
      ensures r.BadParameter? || r.NonExist? ==> table == old(table)
      ensures r.Dropped? <==> !IsGroup(inst) && Found(old(table), name, inst) && reports == []
      ensures r.Dropped? ==> table == Erase(old(table), name, inst)
      ensures r.StillPending? || r.Announced? ==>
                && Matches(old(table), name, inst, key.0, key.1)
                && IsRequest(cfg, parse, retryLimit, reports, bs, acts)
                && bs[0] == Binding(old(table)[key.0][key.1].addrs, [])
                && table == Put(old(table), key.0, key.1, old(table)[key.0][key.1].(sid := sid, addrs := bs[|acts|].addrs))
                && (r.StillPending? <==> HasPending(bs[|acts|].addrs))
      ensures !r.Announced? ==> history == old(history)
      ensures r.Announced? ==>
                && Has(table, key.0, key.1)
                && history == old(history) + Notices(table, key.0, key.1, maxDomain) + list && IsExport(table, minUpstream, list)
    {
      key, bs, acts, list := ("", 0), [], [], [];
      if IsGroup(inst) {
        return BadParameter, key, bs, acts, list;
      }
      var keys := FindService(name, inst);
      if keys == [] {
        return NonExist, key, bs, acts, list;
      }
      if reports == [] {
        EraseSound(retryLimit, table, name, inst);
        var _ := EraseService(name, inst);
        return Dropped, key, bs, acts, list;
      }
      var (n, i) := keys[0];
      assert (n, i) in keys;
      key := (n, i);
      var e := table[n][i].(sid := sid);
      ListOf(retryLimit, table, n, i);
      table := Put(table, n, i, e);
      PutHas(old(table), n, i, e);
      PutSound(retryLimit, old(table), n, i, e);
      bs, acts := ProcessReports(n, i, reports);
      PutTwice(old(table), n, i, e, e.(addrs := bs[|acts|].addrs));
      PutHas(old(table), n, i, e.(addrs := bs[|acts|].addrs));
      var pending := HasPendingAddress(table[n][i].addrs);
      if pending {
        return StillPending, key, bs, acts, list;
      }
      r := Announced;
      list := AnnounceService(n, i);
    }

    method HasPendingAddress(addrs: seq<AddrDesc>) returns (pending: bool)
      ensures pending <==> HasPending(addrs)
    {
      for n := 0 to |addrs|
        invariant forall k | 0 <= k < n :: !addrs[k].status.Pending?
      {
        if addrs[n].status.Pending? {
          return true;
        }
      }
      return false;
    }

    /** Tells monitors, clients, remote name servers and host servers about a service. */
    method AnnounceService(n: string, i: Code) returns (ghost list: seq<Sent>)
      requires Valid() && Has(table, n, i) && !HasPending(table[n][i].addrs)
      modifies `history
      ensures Honest(history)
      ensures history == old(history) + Notices(table, n, i, maxDomain) + list && IsExport(table, minUpstream, list)
    {
      var local, remote, all := PrepareAddresses(table[n][i].addrs);
      Tell(LocalMonitors, n, i, all);
      Tell(RemoteMonitors, n, i, all);
      Tell(LocalClients, n, i, local);
      Tell(RemoteServers, n, i, remote);
      NoticesAreHonest(retryLimit, table, n, i, maxDomain);
      HonestConcat(old(history), Notices(table, n, i, maxDomain));
      assert history == old(history) + Notices(table, n, i, maxDomain);
      list := TellHostServers();
      ExportIsHonest(table, minUpstream, list);
    }

    /** One walk over the addresses sorts out who hears what. */
    method PrepareAddresses(addrs: seq<AddrDesc>) returns (local: seq<AddrDesc>, remote: seq<AddrDesc>, all: seq<AddrDesc>)
      ensures local == ForLocal(addrs)
      ensures remote == Select(addrs, ForRemote(maxDomain))
      ensures all == Select(addrs, UpTo(ANY_LEVEL))
    {
      remote, all := [], [];
      var ipcs, onHost, onAll := [], [], [];
      for n := 0 to |addrs|
        invariant all == Select(addrs[..n], UpTo(ANY_LEVEL))
        invariant remote == Select(addrs[..n], ForRemote(maxDomain))
        invariant ipcs == LastOf(Select(addrs[..n], IsIpc()))
        invariant onHost == Select(addrs[..n], OnHost(LOCAL_HOST))
        invariant onAll == Select(addrs[..n], OnHost(ALL_INTERFACES))
      {
        var d := addrs[n];
        SelectOneMore(addrs, n, UpTo(ANY_LEVEL));
        SelectOneMore(addrs, n, ForRemote(maxDomain));
        SelectOneMore(addrs, n, IsIpc());
        SelectOneMore(addrs, n, OnHost(LOCAL_HOST));
        SelectOneMore(addrs, n, OnHost(ALL_INTERFACES));
        if Exportable(d, ANY_LEVEL) {
          all := all + [d];
        }
        if d.addr.transport.Ipc? {
          ipcs := [d];
        } else if d.addr.ip == LOCAL_HOST {
          onHost := onHost + [d];
        } else {
          if Exportable(d, maxDomain) {
            remote := remote + [d];
          }
          if d.addr.ip == ALL_INTERFACES {
            onAll := onAll + [d];
          }
        }
      }
      assert addrs[..|addrs|] == addrs;
      if ipcs != [] {
        local := Chosen(ipcs, UpTo(NODE_INTERNAL));
      } else if onHost != [] {
        local := Chosen(onHost, UpTo(NODE_INTERNAL));
      } else {
        local := Chosen(AllAtLocalHost(onAll), UpTo(DOMAIN_LEVEL));
      }
    }

    // ----------------------------------------------------------------
    // Removing.

    /** Withdraws a service and removes it; host servers hear of it if it was exported. */
    method RemoveService(name: string, inst: Code) returns (removed: bool, ghost list: seq<Sent>)
      requires Valid()
      modifies `table, `history
      ensures Valid()
      ensures removed <==> Has(old(table), name, inst)
      ensures table == if Found(old(table), name, inst) then Erase(old(table), name, inst) else old(table)
      ensures !Found(old(table), name, inst) ==> history == old(history)
      ensures Found(old(table), name, inst) ==> exists key: Key ::
                && Matches(old(table), name, inst, key.0, key.1)
                && history == old(history) + Withdrawal(old(table), key.0, key.1) + list
                && (if Select(old(table)[key.0][key.1].addrs, BoundFrom(NODE_INTERNAL + 1)) != []
                    then IsExport(table, minUpstream, list) else list == [])
    {
      list := [];
      var keys := FindService(name, inst);
      if keys == [] {
        assert Has(table, name, inst) ==> Matches(table, name, inst, name, inst);
        return false, list;
      }
      var key := keys[0];
      assert (key.0, key.1) in keys;
      history := history + Withdrawal(table, key.0, key.1);
      var exported := Chosen(table[key.0][key.1].addrs, BoundFrom(NODE_INTERNAL + 1));
      EraseSound(retryLimit, table, name, inst);
      removed := EraseService(name, inst);
      if exported != [] {
        list := TellHostServers();
        ExportIsHonest(table, minUpstream, list);
      }
    }

    method OnUnregisterService(name: string, inst: Code) returns (r: RegisterResult)
      requires Valid()
      modifies `table, `history
      ensures Valid()
      ensures r.BadParameter? <==> IsGroup(inst)
      ensures table == if IsGroup(inst) || !Found(old(table), name, inst) then old(table) else Erase(old(table), name, inst)
    {
      if IsGroup(inst) {
        return BadParameter;
      }
      ghost var list;
      var removed;
      removed, list := RemoveService(name, inst);
      r := if removed then Dropped else NonExist;
    }

    /** Some entry of the session, if there is one. */
    method FindOwned(sid: int) returns (r: Maybe<Key>)
      ensures r.Just? ==> IsOwned(table, sid, r.value.0, r.value.1)
      ensures r.Nothing? ==> forall n, i :: !IsOwned(table, sid, n, i)
    {
      var names := table.Keys;
      while names != {}
        invariant names <= table.Keys
        invariant forall n, i | n !in names :: !IsOwned(table, sid, n, i)
        decreases |names|
      {
        var n :| n in names;
        names := names - {n};
        var ids := table[n].Keys;
        while ids != {}
          invariant ids <= table[n].Keys
          invariant forall i | i !in ids :: !IsOwned(table, sid, n, i)
          decreases |ids|
        {
          var i := KeyOrder.Least(ids);
          ids := ids - {i};
          if table[n][i].sid == sid {
            return Just((n, i));
          }
        }
      }
      return Nothing;
    }

    /** A session goes away: its services are removed one by one, scanning again each time. */
    method OnOffline(sid: int)
      requires Valid()
      modifies `table, `history
      ensures Valid()
      ensures IsOffline(old(table), sid, table)
    {
      var rescan := true;
      while rescan
        invariant Valid()
        invariant forall t' :: IsOffline(table, sid, t') ==> IsOffline(old(table), sid, t')
        invariant !rescan ==> IsOffline(table, sid, table)
        decreases |Owned(table, sid)|, rescan
      {
        var owned := FindOwned(sid);
        rescan := false;
        if owned.Just? {
          var (n, i) := owned.value;
          EraseOwned(table, sid, n, i);
          ListOf(retryLimit, table, n, i);
          assert Matches(table, table[n][i].name, table[n][i].instance, n, i);
          ghost var list;
          rescan, list := RemoveService(table[n][i].name, table[n][i].instance);
        } else {
          assert forall n, i | Has(table, n, i) :: !IsOwned(table, sid, n, i);
        }
      }
    }

    // ----------------------------------------------------------------
    // The name server's own addresses, and the first host server.

    /** The name server binds its own addresses; `bindable` are the URLs that can be bound. */
    method BindNsAddress(n: string, i: Code, bindable: set<string>) returns (success: bool)
      requires Has(table, n, i)
      modifies `table
      ensures table == WithAddrs(old(table), n, i, BindOwn(old(table)[n][i].addrs, bindable))
      ensures success <==> forall d | d in old(table)[n][i].addrs :: d.status.Bound? || d.addr.url in bindable
    {
      var addrs := table[n][i].addrs;
      var done := [];
      success := true;
      for k := 0 to |addrs|
        invariant done == BindOwn(addrs[..k], bindable)
        invariant success <==> forall d | d in addrs[..k] :: d.status.Bound? || d.addr.url in bindable
      {
        assert addrs[..k + 1][..k] == addrs[..k] && addrs[..k + 1] == addrs[..k] + [addrs[k]];
        if addrs[k].status.Bound? {
          done := done + [addrs[k]];
        } else if addrs[k].addr.url in bindable {
          done := done + [addrs[k].(status := Bound)];
        } else {
          success := false;
        }
      }
      assert addrs[..|addrs|] == addrs;
      table := Put(table, n, i, table[n][i].(addrs := done));
    }

    /** The name server registers itself. */
    method Online(level: int, secure: bool, bindable: set<string>) returns (success: bool, ghost offers: seq<Allocated>)
      requires Valid() && table == map[]
      modifies this, ipc, tcp.Values
      ensures Valid() && history == old(history)
      ensures table == Put(map[], nsName, 0, Entry(nsName, 0, INVALID_ID, NameServerType, level, true, secure,
                                                   BindOwn(AddOffers([], offers), bindable)))
    {
      var addrs;
      addrs, offers := NewEntry(nsName, 0, INVALID_ID, level, true, secure);
      PutHas(map[], nsName, 0, table[nsName][0]);
      success := BindNsAddress(nsName, 0, bindable);
      ghost var e := Entry(nsName, 0, INVALID_ID, NameServerType, level, true, secure, addrs);
      PutTwice(map[], nsName, 0, e, e.(addrs := BindOwn(addrs, bindable)));
      OffersAreGood(retryLimit, [], offers);
      OwnAreBound(retryLimit, addrs, bindable);
      PutSound(retryLimit, map[], nsName, 0, e.(addrs := BindOwn(addrs, bindable)));
    }

    /** One service gets addresses on the interfaces; the name server binds its own at once. */
    method ExtendEntry(n: string, i: Code, bindable: set<string>)
      requires cfg.Complete() && Sound(retryLimit, table) && Has(table, n, i)
      modifies `table, tcp.Values
      ensures Sound(retryLimit, table) && Has(table, n, i) && table == Put(old(table), n, i, table[n][i])
      ensures IsExtended(nsName, hsName, bindable, old(table)[n][i], table[n][i])
    {
      ListOf(retryLimit, table, n, i);
      PutSame(table, n, i);
      if n == hsName {
        return;
      }
      var e0 := table[n][i];
      ghost var offers := AddInetAddresses(n, i);
      ghost var e1 := e0.(addrs := AddOffers(e0.addrs, offers));
      PutHas(old(table), n, i, e1);
      OffersAreGood(retryLimit, e0.addrs, offers);
      PutSound(retryLimit, old(table), n, i, e1);
      if n == nsName && |table[n][i].addrs| > |e0.addrs| {
        var _ := BindNsAddress(n, i, bindable);
        ghost var e2 := e1.(addrs := BindOwn(e1.addrs, bindable));
        PutTwice(old(table), n, i, e1, e2);
        PutHas(old(table), n, i, e2);
        OwnAreBound(retryLimit, e1.addrs, bindable);
        PutSound(retryLimit, old(table), n, i, e2);
      }
    }

    /** With the first host server, all services get addresses on the interfaces. */
    method OnHostOnline(online: bool, bindable: set<string>)
      requires Valid()
      modifies this, tcp.Values
      ensures Valid() && history == old(history)
      ensures !online || old(tcp) != map[] ==> table == old(table) && tcp == old(tcp)
      ensures online && old(tcp) == map[] ==> tcp.Keys == interfaces.Keys && AllExtended(nsName, hsName, bindable, old(table), table)
    {
      if !online || tcp != map[] {
        return;
      }
      tcp := CreateTcpAllocators();
      var names := table.Keys;
      ghost var keys := tcp.Keys;
      while names != {}
        invariant tcp.Keys == keys && fresh(tcp.Values) && history == old(history) && Sound(retryLimit, table)
        invariant names <= old(table).Keys && SameEntries(old(table), table)
        invariant forall n, i | Has(table, n, i) ::
                    if n in names then table[n][i] == old(table)[n][i]
                    else IsExtended(nsName, hsName, bindable, old(table)[n][i], table[n][i])
        decreases |names|
      {
        var n :| n in names;
        names := names - {n};
        ghost var t1: Table := table;
        NameStays(old(table), table, n);
        ExtendName(n, bindable);
        forall m, i | Has(table, m, i) ensures Has(t1, m, i) && Has(old(table), m, i) {}
      }
    }

    method ExtendName(n: string, bindable: set<string>)
      requires cfg.Complete() && Sound(retryLimit, table) && n in table
      modifies `table, tcp.Values
      ensures Sound(retryLimit, table) && SameEntries(old(table), table)
      ensures forall m, i | Has(table, m, i) ::
                if m != n then table[m][i] == old(table)[m][i]
                else IsExtended(nsName, hsName, bindable, old(table)[m][i], table[m][i])
    {
      var ids := table[n].Keys;
      while ids != {}
        invariant Sound(retryLimit, table) && SameEntries(old(table), table) && ids <= old(table)[n].Keys
        invariant forall m, i | Has(table, m, i) ::
                    if m != n || i in ids then table[m][i] == old(table)[m][i]
                    else IsExtended(nsName, hsName, bindable, old(table)[m][i], table[m][i])
        decreases |ids|
      {
        var i := KeyOrder.Least(ids);
        assert Has(old(table), n, i);
        ids := ids - {i};
        ghost var t1: Table := table;
        ExtendEntry(n, i, bindable);
        PutHas(t1, n, i, table[n][i]);
      }
    }

    // ----------------------------------------------------------------
    // Subscribers.

    /** One service is told to a new subscriber, if none of its addresses is pending. */
    method BroadServiceAddress(n: string, i: Code, who: Subscriber, transport: Transport, sid: int)
      requires Valid() && Has(table, n, i)
      modifies `history
      ensures Valid()
      ensures history == old(history) + Told(table, nsName, who, transport, maxDomain, sid, (n, i))
    {
      if who.RemoteNormal? && n == nsName {
        return;
      }
      var addrs := table[n][i].addrs;
      var pending := HasPendingAddress(addrs);
      if pending {
        return;
      }
      var list;
      if who.LocalMonitor? || who.RemoteMonitor? {
        list := Chosen(addrs, BoundOf(Nothing, ANY_LEVEL));
      } else {
        list := Chosen(addrs, BoundOf(Just(transport), if who.LocalNormal? then NODE_INTERNAL else maxDomain));
        if transport.Ipc? && list == [] {
          list := Chosen(addrs, BoundOf(Just(Tcp), maxDomain));
        }
      }
      SubscriberIsBacked(addrs, n == nsName, who, transport, maxDomain);
      NoticeIsHonest(table, Listener(sid), n, i, list);
      Tell(Listener(sid), n, i, list);
    }

    /** A new subscriber hears of all services it asks for. */
    method OnServiceOnlineReg(name: string, inst: Code, who: Subscriber, transport: Transport, sid: int) returns (keys: seq<Key>)
      requires Valid()
      modifies `history
      ensures Valid()
      ensures forall n, i :: (n, i) in keys <==> Matches(table, name, inst, n, i)
      ensures history == old(history) + AllTold(table, nsName, who, transport, maxDomain, sid, keys)
    {
      keys := FindService(name, inst);
      forall k | 0 <= k < |keys| ensures Has(table, keys[k].0, keys[k].1) {
        assert (keys[k].0, keys[k].1) in keys;
      }
      TellAll(keys, who, transport, sid);
    }

    method TellAll(keys: seq<Key>, who: Subscriber, transport: Transport, sid: int)
      requires Valid() && forall k | 0 <= k < |keys| :: Has(table, keys[k].0, keys[k].1)
      modifies `history
      ensures Valid()
      ensures history == old(history) + AllTold(table, nsName, who, transport, maxDomain, sid, keys)
    {
      ghost var told: seq<Sent> := [];
      for k := 0 to |keys|
        invariant Valid()
        invariant told == AllTold(table, nsName, who, transport, maxDomain, sid, keys[..k])
        invariant history == old(history) + told
      {
        BroadServiceAddress(keys[k].0, keys[k].1, who, transport, sid);
        ghost var one := Told(table, nsName, who, transport, maxDomain, sid, (keys[k].0, keys[k].1));
        ToldOneMore(table, nsName, who, transport, maxDomain, sid, keys, k);
        AppendedTwice(old(history), told, one);
        told := told + one;
      }
      assert keys[..|keys|] == keys;
    }

    /** The name server's own addresses for other hosts. */
    method TellOwnAddresses()
      requires Valid()
      modifies `history
      ensures Valid()
      ensures history == old(history) + if Has(table, nsName, 0) && nsName != ""
                                        then Notice(table, Inquirer, nsName, 0, Select(table[nsName][0].addrs, BoundForRemote(maxDomain)))
                                        else []
    {
      if nsName in table && 0 in table[nsName] && nsName != "" {
        var addrs := table[nsName][0].addrs;
        var list := Chosen(addrs, BoundForRemote(maxDomain));
        SelectedIsBacked(addrs, BoundForRemote(maxDomain));
        NoticeIsHonest(table, Inquirer, nsName, 0, list);
        Tell(Inquirer, nsName, 0, list);
      }
    }

    /** The exported services go to every host server. */
    method TellHostServers() returns (ghost list: seq<Sent>)
      modifies `history
      ensures history == old(history) + list && IsExport(table, minUpstream, list)
    {
      list := [];
      var names := table.Keys;
      while names != {}
        invariant names <= table.Keys && history == old(history) + list
        invariant forall s :: s in list <==> IsExported(table, minUpstream, s) && s.what.name !in names
        decreases |names|
      {
        var n :| n in names;
        names := names - {n};
        ghost var more := TellInstances(n);
        list := list + more;
      }
    }

    method TellInstances(n: string) returns (ghost list: seq<Sent>)
      requires n in table
      modifies `history
      ensures history == old(history) + list
      ensures forall s :: s in list <==> IsExported(table, minUpstream, s) && s.what.name == n
    {
      list := [];
      var ids := table[n].Keys;
      while ids != {}
        invariant ids <= table[n].Keys && history == old(history) + list
        invariant forall s :: s in list <==> IsExported(table, minUpstream, s) && s.what.name == n && s.what.instance !in ids
        decreases |ids|
      {
        var i := KeyOrder.Least(ids);
        ids := ids - {i};
        var addrs := Chosen(table[n][i].addrs, BoundFrom(minUpstream));
        Tell(HostServers, n, i, addrs);
        list := list + Notice(table, HostServers, n, i, addrs);
      }
    }
  }

  /** Collects the wanted addresses in order. */
  method Chosen(addrs: seq<AddrDesc>, wanted: AddrDesc -> bool) returns (list: seq<AddrDesc>)
    ensures list == Select(addrs, wanted)
  {
    list := [];
    for n := 0 to |addrs|
      invariant list == Select(addrs[..n], wanted)
    {
      SelectOneMore(addrs, n, wanted);
      if wanted(addrs[n]) {
        list := list + [addrs[n]];
      }
    }
    assert addrs[..|addrs|] == addrs;
  }

  function Paired(n: string, ids: seq<Code>): seq<Key> {
    seq(|ids|, k requires 0 <= k < |ids| => (n, ids[k]))
  }

  lemma InPaired(n: string, ids: seq<Code>)
    ensures forall m, i :: (m, i) in Paired(n, ids) <==> m == n && i in ids
  {
    forall m, i ensures (m, i) in Paired(n, ids) <==> m == n && i in ids {
      if m == n && i in ids {
        var k :| 0 <= k < |ids| && ids[k] == i;
        assert Paired(n, ids)[k] == (n, i);
      }
    }
  }

  // ------------------------------------------------------------------
  // Which instance ids are taken.

  predicate InSpan(id: int) {
    0 <= id <= AUTO_INSTANCE_END
  }

  /** The service already has the instance `id` of the group. */
  ghost predicate Taken(t: Table, name: string, group: Code, id: int)
    requires InSpan(id)
  {
    Found(t, name, Merge(group, id))
  }

  ghost predicate TakenUpTo(t: Table, name: string, group: Code, from: int, to: int) {
    forall id | from <= id < to && InSpan(id) :: Taken(t, name, group, id)
  }

  /** Every id of the automatic range, and every one above the counter, is taken. */
  ghost predicate AllTaken(t: Table, name: string, group: Code, from: nat) {
    && TakenUpTo(t, name, group, from, AUTO_INSTANCE_END + 1)
    && TakenUpTo(t, name, group, AUTO_INSTANCE_BEGIN, AUTO_INSTANCE_END + 1)
  }

  /** `id` is the first id not taken, counting from `from` and then from the start of the range. */
  ghost predicate IsNextFree(t: Table, name: string, group: Code, from: nat, id: int) {
    && InSpan(id) && !Taken(t, name, group, id)
    && (from <= id ==> TakenUpTo(t, name, group, from, id))
    && (id < from ==> AUTO_INSTANCE_BEGIN <= id
                      && TakenUpTo(t, name, group, from, AUTO_INSTANCE_END + 1)
                      && TakenUpTo(t, name, group, AUTO_INSTANCE_BEGIN, id))
  }
}
