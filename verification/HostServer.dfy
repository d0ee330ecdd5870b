/** A host server (server/CHostServer.cpp, server/CInterHostProxy.cpp).

    It keeps a table per local name server, per downstream domain and per
    upstream host server, and passes filtered combinations on: upstream and
    downstream tables to local name servers, local and downstream tables up,
    all three down.  Sessions are numbered, and so are upstream servers. */
module HostServer {
  import opened Maybes
  import opened ServiceTables
  import opened AddressAllocator
  import KeyOrder

  /** Levels as a server is started with them. */
  datatype Options = Options(name: string, maxDomain: int, minUpstream: int, ips: set<string>)

  datatype Setup = Setup(name: string, maxDomain: int, minUpstream: int, ips: set<string>)

  /** A negative level stands for the default. */
  function Configure(o: Options): (c: Setup)
    ensures c.maxDomain >= 0 && c.minUpstream >= 0
    ensures if o.minUpstream >= 0 then c.minUpstream == o.minUpstream else c.minUpstream == DOMAIN_LEVEL
    ensures if o.maxDomain >= 0 then c.maxDomain == o.maxDomain else c.maxDomain == DOMAIN_LEVEL
  {
    Setup(o.name, if o.maxDomain < 0 then DOMAIN_LEVEL else o.maxDomain,
          if o.minUpstream < 0 then DOMAIN_LEVEL else o.minUpstream, o.ips)
  }

  datatype Peer = Peer(ip: string, ready: bool, tbl: SvcTable)

  /** `followers` are the sessions that subscribed to the tables for servers below. */
  datatype State = State(locals: map<int, Peer>, domains: map<int, Peer>, upstream: map<int, SvcTable>, connected: set<int>,
                         followers: set<int>)

  /** Tables, a table for servers below with the sessions it goes to, and the handshake with an upstream server: a request to be
      registered, its acknowledgement, and a subscription to broadcasts. */
  datatype Msg =
    | ToLocal(tbl: SvcTable)
    | ToDownstream(to: set<int>, tbl: SvcTable)
    | ToUpstream(k: int, tbl: SvcTable)
    | Register(k: int)
    | Ack(sid: int)
    | Follow(k: int)

  datatype Event =
    | RegisterLocal(sid: int, ip: string)
    | LocalReady(sid: int, tbl: SvcTable, peer: Maybe<string>)
    | PostLocal(sid: int, tbl: SvcTable, peer: Maybe<string>)
    | UnregisterLocal(ip: string)
    | RegisterDomain(sid: int)
    | DomainReady(sid: int, tbl: SvcTable, peer: Maybe<string>)
    | PostDomain(sid: int, tbl: SvcTable, peer: Maybe<string>)
    | Offline(sid: int)
    | UpstreamOnline(k: int)
    | UpstreamAck(k: int)
    | FromUpstream(k: int, tbl: SvcTable, peer: Maybe<string>)
    | UpstreamLost(k: int)
    | SubscribeLocal
    | SubscribeDownstream(sid: int)

  // ------------------------------------------------------------------
  // Combining tables.

  /** The tables of the ready peers, filtered, in order of their sessions. */
  function FromPeers(m: map<int, Peer>, keys: set<int>, e: int): SvcTable
    requires keys <= m.Keys
    decreases |keys|
  {
    if keys == {} then []
    else
      var k := KeyOrder.Least(keys);
      (if m[k].ready then Export(m[k].tbl, e) else []) + FromPeers(m, keys - {k}, e)
  }

  function FromTables(m: map<int, SvcTable>, keys: set<int>, e: int): SvcTable
    requires keys <= m.Keys
    decreases |keys|
  {
    if keys == {} then []
    else
      var k := KeyOrder.Least(keys);
      Export(m[k], e) + FromTables(m, keys - {k}, e)
  }

  function ForLocal(c: Setup, s: State): SvcTable {
    FromTables(s.upstream, s.upstream.Keys, c.maxDomain) + FromPeers(s.domains, s.domains.Keys, c.maxDomain)
  }

  function ForUpstream(c: Setup, s: State): SvcTable {
    FromPeers(s.domains, s.domains.Keys, -c.minUpstream) + FromPeers(s.locals, s.locals.Keys, -c.minUpstream)
  }

  function ForDownstream(c: Setup, s: State): SvcTable {
    FromTables(s.upstream, s.upstream.Keys, c.maxDomain) + FromPeers(s.domains, s.domains.Keys, c.maxDomain)
    + FromPeers(s.locals, s.locals.Keys, c.maxDomain)
  }

  /** The same table to every connected upstream server. */
  function Posts(connected: set<int>, keys: set<int>, tbl: SvcTable): seq<Msg>
    decreases |keys|
  {
    if keys == {} then []
    else
      var k := KeyOrder.Least(keys);
      (if k in connected then [ToUpstream(k, tbl)] else []) + Posts(connected, keys - {k}, tbl)
  }

  function LocalChanged(c: Setup, s: State): seq<Msg> {
    [ToDownstream(s.followers, ForDownstream(c, s))] + Posts(s.connected, s.upstream.Keys, ForUpstream(c, s))
  }

  function UpstreamChanged(c: Setup, s: State): seq<Msg> {
    [ToLocal(ForLocal(c, s)), ToDownstream(s.followers, ForDownstream(c, s))]
  }

  function DomainChanged(c: Setup, s: State): seq<Msg> {
    UpstreamChanged(c, s) + Posts(s.connected, s.upstream.Keys, ForUpstream(c, s))
  }

  /** A table from above without the services that are local here. */
  function DropLocal(tbl: SvcTable, m: map<int, Peer>, keys: set<int>, ips: set<string>): SvcTable
    requires keys <= m.Keys
    decreases |keys|
  {
    if keys == {} then tbl
    else
      var k := KeyOrder.Least(keys);
      DropLocal(WithoutDuplicates(tbl, m[k].tbl, ips), m, keys - {k}, ips)
  }

  // ------------------------------------------------------------------
  // Events.

  function Registered(m: map<int, Peer>, sid: int, ip: string): map<int, Peer> {
    m[sid := Peer(ip, false, if sid in m then m[sid].tbl else [])]
  }

  function WithLocal(c: Setup, s: State, sid: int, ready: bool, tbl: SvcTable, peer: Maybe<string>): State
    requires sid in s.locals
  {
    s.(locals := s.locals[sid := Peer(s.locals[sid].ip, ready, InDomain(Stored(Verify(tbl, peer)), c.name))])
  }

  function WithDomain(s: State, sid: int, ready: bool, tbl: SvcTable, peer: Maybe<string>): State
    requires sid in s.domains
  {
    s.(domains := s.domains[sid := Peer(s.domains[sid].ip, ready, Stored(Verify(tbl, peer)))])
  }

  function WithUpstream(c: Setup, s: State, k: int, tbl: SvcTable): State {
    s.(upstream := s.upstream[k := DropLocal(Stored(tbl), s.locals, s.locals.Keys, c.ips)])
  }

  /** The first peer with an IP address. */
  function AtIp(m: map<int, Peer>, keys: set<int>, ip: string): Maybe<int>
    requires keys <= m.Keys
    decreases |keys|
  {
    if keys == {} then Nothing
    else
      var k := KeyOrder.Least(keys);
      if m[k].ip == ip then Just(k) else AtIp(m, keys - {k}, ip)
  }

  /** What an event does to the tables, and the messages it sends. */
  function Handle(c: Setup, s: State, ev: Event): (State, seq<Msg>) {
    match ev
    case RegisterLocal(sid, ip) => (s.(locals := Registered(s.locals, sid, ip)), [Ack(sid)])
    case LocalReady(sid, tbl, peer) =>
      if sid !in s.locals then (s, [])
      else
        var s' := WithLocal(c, s, sid, true, tbl, peer);
        (s', LocalChanged(c, s'))
    case PostLocal(sid, tbl, peer) =>
      if sid !in s.locals then (s, [])
      else
        var s' := WithLocal(c, s, sid, s.locals[sid].ready, tbl, peer);
        (s', LocalChanged(c, s'))
    case UnregisterLocal(ip) =>
      var k := AtIp(s.locals, s.locals.Keys, ip);
      (if k.Just? then s.(locals := s.locals - {k.value}) else s, [])
    case RegisterDomain(sid) => (s.(domains := Registered(s.domains, sid, "")), [Ack(sid)])
    case DomainReady(sid, tbl, peer) =>
      if sid !in s.domains then (s, [])
      else
        var s' := WithDomain(s, sid, true, tbl, peer);
        (s', DomainChanged(c, s'))
    case PostDomain(sid, tbl, peer) =>
      if sid !in s.domains then (s, [])
      else
        var s' := WithDomain(s, sid, s.domains[sid].ready, tbl, peer);
        (s', DomainChanged(c, s'))
    case Offline(sid) =>
      var rest := s.(followers := s.followers - {sid});
      if sid in s.locals then
        var s' := rest.(locals := s.locals - {sid});
        (s', LocalChanged(c, s'))
      else if sid in s.domains then
        var s' := rest.(domains := s.domains - {sid});
        (s', UpstreamChanged(c, s'))
      else (rest, [])
    case UpstreamOnline(k) => (s.(connected := s.connected + {k}), [Register(k)])
    case UpstreamAck(k) => (s, [ToUpstream(k, ForUpstream(c, s)), Follow(k)])
    case FromUpstream(k, tbl, peer) =>
      var s' := WithUpstream(c, s, k, Validate(tbl, peer));
      (s', UpstreamChanged(c, s'))
    case UpstreamLost(k) =>
      var s' := WithUpstream(c, s, k, []).(connected := s.connected - {k});
      (s', UpstreamChanged(c, s'))
    case SubscribeLocal => (s, [ToLocal(ForLocal(c, s))])
    case SubscribeDownstream(sid) => (s.(followers := s.followers + {sid}), [ToDownstream({sid}, ForDownstream(c, s))])
  }

  // ------------------------------------------------------------------
  // What the combined tables hold.

  ghost predicate PeersHold(m: map<int, Peer>, x: Item) {
    exists k :: k in m && Holds(m[k].tbl, x)
  }

  ghost predicate TablesHold(m: map<int, SvcTable>, x: Item) {
    exists k :: k in m && Holds(m[k], x)
  }

  lemma {:induction false} InFromPeers(m: map<int, Peer>, keys: set<int>, e: int, x: Item)
    requires keys <= m.Keys
    ensures Holds(FromPeers(m, keys, e), x) <==>
              Passes(x.level, e) && exists k :: k in keys && m[k].ready && Holds(m[k].tbl, x)
    decreases |keys|
  {
    if keys != {} {
      var k := KeyOrder.Least(keys);
      InFromPeers(m, keys - {k}, e, x);
      InExport(m[k].tbl, e, x);
      HoldsConcat(if m[k].ready then Export(m[k].tbl, e) else [], FromPeers(m, keys - {k}, e), x);
      if j :| j in keys && m[j].ready && Holds(m[j].tbl, x) {
        assert j == k || j in keys - {k};
      }
    }
  }

  lemma {:induction false} InFromTables(m: map<int, SvcTable>, keys: set<int>, e: int, x: Item)
    requires keys <= m.Keys
    ensures Holds(FromTables(m, keys, e), x) <==> Passes(x.level, e) && exists k :: k in keys && Holds(m[k], x)
    decreases |keys|
  {
    if keys != {} {
      var k := KeyOrder.Least(keys);
      InFromTables(m, keys - {k}, e, x);
      InExport(m[k], e, x);
      HoldsConcat(Export(m[k], e), FromTables(m, keys - {k}, e), x);
      if j :| j in keys && Holds(m[j], x) {
        assert j == k || j in keys - {k};
      }
    }
  }

  ghost predicate ReadyHold(m: map<int, Peer>, x: Item) {
    exists k :: k in m.Keys && m[k].ready && Holds(m[k].tbl, x)
  }

  /** Upward go the passing addresses of local and downstream tables, and
      nothing that came from above. */
  lemma UpstreamHolds(c: Setup, s: State, x: Item)
    ensures Holds(ForUpstream(c, s), x) <==>
              GoesUp(x.level, c.minUpstream) && (ReadyHold(s.domains, x) || ReadyHold(s.locals, x))
  {
    InFromPeers(s.domains, s.domains.Keys, -c.minUpstream, x);
    InFromPeers(s.locals, s.locals.Keys, -c.minUpstream, x);
    HoldsConcat(FromPeers(s.domains, s.domains.Keys, -c.minUpstream), FromPeers(s.locals, s.locals.Keys, -c.minUpstream), x);
  }

  lemma LocalHolds(c: Setup, s: State, x: Item)
    ensures Holds(ForLocal(c, s), x) <==> Passes(x.level, c.maxDomain) && (TablesHold(s.upstream, x) || ReadyHold(s.domains, x))
  {
    InFromTables(s.upstream, s.upstream.Keys, c.maxDomain, x);
    InFromPeers(s.domains, s.domains.Keys, c.maxDomain, x);
    HoldsConcat(FromTables(s.upstream, s.upstream.Keys, c.maxDomain), FromPeers(s.domains, s.domains.Keys, c.maxDomain), x);
  }

  lemma DownstreamHolds(c: Setup, s: State, x: Item)
    ensures Holds(ForDownstream(c, s), x) <==>
              Passes(x.level, c.maxDomain) && (TablesHold(s.upstream, x) || ReadyHold(s.domains, x) || ReadyHold(s.locals, x))
  {
    LocalHolds(c, s, x);
    InFromPeers(s.locals, s.locals.Keys, c.maxDomain, x);
    HoldsConcat(ForLocal(c, s), FromPeers(s.locals, s.locals.Keys, c.maxDomain), x);
  }

  lemma {:induction false} DropLocalHolds(tbl: SvcTable, m: map<int, Peer>, keys: set<int>, ips: set<string>, x: Item)
    requires keys <= m.Keys && Holds(DropLocal(tbl, m, keys, ips), x)
    ensures Holds(tbl, x)
    decreases |keys|
  {
    if keys != {} {
      var k := KeyOrder.Least(keys);
      var less := WithoutDuplicates(tbl, m[k].tbl, ips);
      DropLocalHolds(less, m, keys - {k}, ips, x);
      var j :| 0 <= j < |less| && x in less[j].addrs;
      InWithoutDuplicates(tbl, m[k].tbl, ips, less[j]);
      var n :| 0 <= n < |tbl| && tbl[n] == less[j];
    }
  }

  /** No service of a table from above is a local one. */
  lemma {:induction false} NoLocalLeft(tbl: SvcTable, m: map<int, Peer>, keys: set<int>, ips: set<string>, s: Svc)
    requires keys <= m.Keys
    ensures s in DropLocal(tbl, m, keys, ips) <==> s in tbl && forall k | k in keys :: !IsDuplicate(s, m[k].tbl, ips)
    decreases |keys|
  {
    if keys != {} {
      var k := KeyOrder.Least(keys);
      InWithoutDuplicates(tbl, m[k].tbl, ips, s);
      NoLocalLeft(WithoutDuplicates(tbl, m[k].tbl, ips), m, keys - {k}, ips, s);
      assert forall j | j in keys :: j == k || j in keys - {k};
    }
  }

  /** An address from above is stored if and only if some service that carries
      it duplicates no local one. */
  lemma StoredUnlessLocal(tbl: SvcTable, m: map<int, Peer>, keys: set<int>, ips: set<string>, x: Item)
    requires keys <= m.Keys
    ensures Holds(DropLocal(tbl, m, keys, ips), x) <==>
              exists s :: s in tbl && x in s.addrs && forall k | k in keys :: !IsDuplicate(s, m[k].tbl, ips)
  {
    var kept := DropLocal(tbl, m, keys, ips);
    if Holds(kept, x) {
      var j :| 0 <= j < |kept| && x in kept[j].addrs;
      NoLocalLeft(tbl, m, keys, ips, kept[j]);
      assert kept[j] in kept;
    }
    if s :| s in tbl && x in s.addrs && forall k | k in keys :: !IsDuplicate(s, m[k].tbl, ips) {
      NoLocalLeft(tbl, m, keys, ips, s);
      var j :| 0 <= j < |kept| && kept[j] == s;
    }
  }

  // ------------------------------------------------------------------
  // What registering and connecting mean for the tables that go out.

  lemma {:induction false} FromPeersFrame(a: map<int, Peer>, b: map<int, Peer>, keys: set<int>, e: int)
    requires keys <= a.Keys && keys <= b.Keys && forall k | k in keys :: a[k] == b[k]
    ensures FromPeers(a, keys, e) == FromPeers(b, keys, e)
    decreases |keys|
  {
    if keys != {} {
      FromPeersFrame(a, b, keys - {KeyOrder.Least(keys)}, e);
    }
  }

  /** Peers that are not ready add nothing. */
  lemma {:induction false} SkipsUnready(m: map<int, Peer>, keys: set<int>, sid: int, e: int)
    requires keys <= m.Keys && sid in keys && !m[sid].ready
    ensures FromPeers(m, keys, e) == FromPeers(m, keys - {sid}, e)
    decreases |keys|
  {
    var k := KeyOrder.Least(keys);
    if k != sid {
      SkipsUnready(m, keys - {k}, sid, e);
      assert keys - {k} - {sid} == keys - {sid} - {k};
      assert k in keys - {sid} && KeyOrder.Least(keys - {sid}) == k;
    }
  }

  /** A peer that registers, even once more, is left out of every table that
      goes out until it is ready; for the others nothing changes. */
  lemma RegisteredIsSilent(m: map<int, Peer>, sid: int, ip: string, e: int)
    ensures var m' := Registered(m, sid, ip);
            FromPeers(m', m'.Keys, e) == FromPeers(m - {sid}, (m - {sid}).Keys, e)
  {
    var m' := Registered(m, sid, ip);
    SkipsUnready(m', m'.Keys, sid, e);
    assert m'.Keys - {sid} == (m - {sid}).Keys;
    FromPeersFrame(m', m - {sid}, (m - {sid}).Keys, e);
  }

  /** A table is posted to exactly the connected ones of the upstream servers. */
  lemma {:induction false} InPosts(connected: set<int>, keys: set<int>, tbl: SvcTable, m: Msg)
    ensures m in Posts(connected, keys, tbl) <==> m.ToUpstream? && m.tbl == tbl && m.k in keys && m.k in connected
    decreases |keys|
  {
    if keys != {} {
      InPosts(connected, keys - {KeyOrder.Least(keys)}, tbl, m);
    }
  }

  /** The state after a sequence of events. */
  function HandleAll(c: Setup, s: State, evs: seq<Event>): State
    decreases |evs|
  {
    if evs == [] then s else HandleAll(c, Handle(c, s, evs[0]).0, evs[1..])
  }

  lemma OneEventOnline(c: Setup, s: State, k: int, ev: Event)
    requires k in s.upstream && k in s.connected && ev != UpstreamLost(k)
    ensures var s' := Handle(c, s, ev).0; k in s'.upstream && k in s'.connected
  {}

  lemma {:induction false} StaysOnline(c: Setup, s: State, k: int, evs: seq<Event>)
    requires k in s.upstream && k in s.connected && UpstreamLost(k) !in evs
    ensures var s' := HandleAll(c, s, evs); k in s'.upstream && k in s'.connected
    decreases |evs|
  {
    if evs != [] {
      assert evs[0] in evs;
      OneEventOnline(c, s, k, evs[0]);
      StaysOnline(c, Handle(c, s, evs[0]).0, k, evs[1..]);
    }
  }

  /** From the moment an upstream server is online until it is lost, whatever
      happens in between, every change below is posted to it. */
  lemma OnlineIsPostedTo(c: Setup, s: State, k: int, evs: seq<Event>)
    requires k in s.upstream && UpstreamLost(k) !in evs
    ensures var s' := HandleAll(c, Handle(c, s, UpstreamOnline(k)).0, evs);
            ToUpstream(k, ForUpstream(c, s')) in LocalChanged(c, s') && ToUpstream(k, ForUpstream(c, s')) in DomainChanged(c, s')
  {
    StaysOnline(c, Handle(c, s, UpstreamOnline(k)).0, k, evs);
    var s' := HandleAll(c, Handle(c, s, UpstreamOnline(k)).0, evs);
    InPosts(s'.connected, s'.upstream.Keys, ForUpstream(c, s'), ToUpstream(k, ForUpstream(c, s')));
  }

  // ------------------------------------------------------------------
  // The server in place.

  class HostServer {
    const setup: Setup
    var locals: map<int, Peer>
    var domains: map<int, Peer>
    var upstream: map<int, SvcTable>
    var connected: set<int>
    var followers: set<int>
    ghost var sent: seq<Msg>

    constructor (options: Options, proxies: set<int>)
      ensures setup == Configure(options) && sent == []
      ensures Tables() == State(map[], map[], map k | k in proxies :: [], {}, {})
    {
      setup := Configure(options);
      locals, domains, upstream, connected, followers, sent := map[], map[], map k | k in proxies :: [], {}, {}, [];
    }

    function Tables(): State
      reads this
    {
      State(locals, domains, upstream, connected, followers)
    }

    /** The event was handled as it should be. */
    twostate predicate Handled(ev: Event)
      reads this
    {
      && Tables() == Handle(setup, old(Tables()), ev).0
      && sent == old(sent) + Handle(setup, old(Tables()), ev).1
    }

    /** Appends the tables of the ready peers, one peer after the other. */
    method PopulatePeers(m: map<int, Peer>, into: SvcTable, e: int) returns (out: SvcTable)
      ensures out == into + FromPeers(m, m.Keys, e)
    {
      out := into;
      var rest := m.Keys;
      while rest != {}
        invariant rest <= m.Keys && out + FromPeers(m, rest, e) == into + FromPeers(m, m.Keys, e)
        decreases |rest|
      {
        var k := KeyOrder.Least(rest);
        ghost var before := out;
        if m[k].ready {
          out := PopulateFromHostInfo(m[k].tbl, out, e);
        }
        ghost var more := if m[k].ready then Export(m[k].tbl, e) else [];
        assert before + (more + FromPeers(m, rest - {k}, e)) == (before + more) + FromPeers(m, rest - {k}, e);
        rest := rest - {k};
      }
    }

    method PopulateUpstreamHost(into: SvcTable, e: int) returns (out: SvcTable)
      ensures out == into + FromTables(upstream, upstream.Keys, e)
    {
      out := into;
      var rest := upstream.Keys;
      while rest != {}
        invariant rest <= upstream.Keys && out + FromTables(upstream, rest, e) == into + FromTables(upstream, upstream.Keys, e)
        decreases |rest|
      {
        var k := KeyOrder.Least(rest);
        ghost var before := out;
        out := PopulateFromHostInfo(upstream[k], out, e);
        assert before + (Export(upstream[k], e) + FromTables(upstream, rest - {k}, e))
            == (before + Export(upstream[k], e)) + FromTables(upstream, rest - {k}, e);
        rest := rest - {k};
      }
    }

    method BroadcastToLocalHost()
      modifies `sent
      ensures sent == old(sent) + [ToLocal(ForLocal(setup, Tables()))]
    {
      var tbl := PopulateUpstreamHost([], setup.maxDomain);
      assert tbl == FromTables(upstream, upstream.Keys, setup.maxDomain);
      tbl := PopulatePeers(domains, tbl, setup.maxDomain);
      assert tbl == ForLocal(setup, Tables());
      sent := sent + [ToLocal(tbl)];
    }

    method BroadcastToDownstreamHost(to: set<int>)
      modifies `sent
      ensures sent == old(sent) + [ToDownstream(to, ForDownstream(setup, Tables()))]
    {
      var tbl := PopulateUpstreamHost([], setup.maxDomain);
      assert tbl == FromTables(upstream, upstream.Keys, setup.maxDomain);
      tbl := PopulatePeers(domains, tbl, setup.maxDomain);
      tbl := PopulatePeers(locals, tbl, setup.maxDomain);
      assert tbl == ForDownstream(setup, Tables());
      sent := sent + [ToDownstream(to, tbl)];
    }

    method BuildForUpstreamHost() returns (tbl: SvcTable)
      ensures tbl == ForUpstream(setup, Tables())
    {
      tbl := PopulatePeers(domains, [], -setup.minUpstream);
      tbl := PopulatePeers(locals, tbl, -setup.minUpstream);
    }

    /** The table goes to every connected upstream server. */
    method PostSvcTable(tbl: SvcTable)
      modifies `sent
      ensures sent == old(sent) + Posts(connected, upstream.Keys, tbl)
    {
      var rest := upstream.Keys;
      ghost var done: seq<Msg> := [];
      while rest != {}
        invariant sent == old(sent) + done && done + Posts(connected, rest, tbl) == Posts(connected, upstream.Keys, tbl)
        decreases |rest|
      {
        var k := KeyOrder.Least(rest);
        ghost var more := if k in connected then [ToUpstream(k, tbl)] else [];
        assert done + (more + Posts(connected, rest - {k}, tbl)) == (done + more) + Posts(connected, rest - {k}, tbl);
        if k in connected {
          sent := sent + [ToUpstream(k, tbl)];
        }
        done := done + more;
        rest := rest - {k};
      }
    }

    method PostToUpstreamHost()
      modifies `sent
      ensures sent == old(sent) + Posts(connected, upstream.Keys, ForUpstream(setup, Tables()))
    {
      var tbl := BuildForUpstreamHost();
      PostSvcTable(tbl);
    }

    method OnLocalChanged()
      modifies `sent
      ensures sent == old(sent) + LocalChanged(setup, Tables())
    {
      BroadcastToDownstreamHost(followers);
      PostToUpstreamHost();
    }

    method OnDomainChanged()
      modifies `sent
      ensures sent == old(sent) + DomainChanged(setup, Tables())
    {
      BroadcastToLocalHost();
      BroadcastToDownstreamHost(followers);
      PostToUpstreamHost();
    }

    method OnUpstreamChanged()
      modifies `sent
      ensures sent == old(sent) + UpstreamChanged(setup, Tables())
    {
      BroadcastToLocalHost();
      BroadcastToDownstreamHost(followers);
    }

    /** The table of a local name server is replaced. */
    method UpdateLocalSvcTable(sid: int, ready: bool, tbl: SvcTable, peer: Maybe<string>)
      requires sid in locals
      modifies `locals, `sent
      ensures Tables() == WithLocal(setup, old(Tables()), sid, ready, tbl, peer)
      ensures sent == old(sent) + LocalChanged(setup, Tables())
    {
      var checked := VerifyUrl(tbl, peer);
      var kept := PopulateToHostInfo(checked);
      var named := [];
      for n := 0 to |kept|
        invariant |named| == n && forall k | 0 <= k < n :: named[k] == InDomain(kept, setup.name)[k]
      {
        named := named + [kept[n].(domain := setup.name)];
      }
      assert named == InDomain(kept, setup.name);
      locals := locals[sid := Peer(locals[sid].ip, ready, named)];
      OnLocalChanged();
    }

    /** The table of a downstream domain is replaced. */
    method UpdateDomainSvcTable(sid: int, ready: bool, tbl: SvcTable, peer: Maybe<string>)
      requires sid in domains
      modifies `domains, `sent
      ensures Tables() == WithDomain(old(Tables()), sid, ready, tbl, peer)
      ensures sent == old(sent) + DomainChanged(setup, Tables())
    {
      var checked := VerifyUrl(tbl, peer);
      var kept := PopulateToHostInfo(checked);
      domains := domains[sid := Peer(domains[sid].ip, ready, kept)];
      OnDomainChanged();
    }

    /** Takes out the services of each local name server in turn. */
    method DropLocalServices(tbl: SvcTable) returns (out: SvcTable)
      ensures out == DropLocal(tbl, locals, locals.Keys, setup.ips)
    {
      out := tbl;
      var rest := locals.Keys;
      while rest != {}
        invariant rest <= locals.Keys
        invariant DropLocal(out, locals, rest, setup.ips) == DropLocal(tbl, locals, locals.Keys, setup.ips)
        decreases |rest|
      {
        var j := KeyOrder.Least(rest);
        out := RemoveDuplicateService(out, locals[j].tbl, setup.ips);
        rest := rest - {j};
      }
    }

    /** The table of an upstream server is replaced, without what is local here. */
    method UpdateUpstreamSvcTable(k: int, tbl: SvcTable)
      modifies `upstream, `sent
      ensures Tables() == WithUpstream(setup, old(Tables()), k, tbl)
      ensures sent == old(sent) + UpstreamChanged(setup, Tables())
    {
      var kept := PopulateToHostInfo(tbl);
      kept := DropLocalServices(kept);
      upstream := upstream[k := kept];
      OnUpstreamChanged();
    }

    // ----------------------------------------------------------------
    // Events.

    method OnRegisterLocalHost(sid: int, ip: string)
      modifies `locals, `sent
      ensures Handled(RegisterLocal(sid, ip))
    {
      locals := locals[sid := Peer(ip, false, if sid in locals then locals[sid].tbl else [])];
      sent := sent + [Ack(sid)];
    }

    method OnLocalHostReady(sid: int, tbl: SvcTable, peer: Maybe<string>)
      modifies `locals, `sent
      ensures Handled(LocalReady(sid, tbl, peer))
    {
      if sid in locals {
        UpdateLocalSvcTable(sid, true, tbl, peer);
      }
    }

    method OnPostLocalSvcAddress(sid: int, tbl: SvcTable, peer: Maybe<string>)
      modifies `locals, `sent
      ensures Handled(PostLocal(sid, tbl, peer))
    {
      if sid in locals {
        UpdateLocalSvcTable(sid, locals[sid].ready, tbl, peer);
      }
    }

    method OnUnregisterLocalHost(ip: string) returns (found: bool)
      modifies `locals
      ensures Handled(UnregisterLocal(ip)) && (found <==> exists k :: k in old(locals) && old(locals)[k].ip == ip)
    {
      var rest := locals.Keys;
      while rest != {}
        invariant rest <= locals.Keys && locals == old(locals)
        invariant AtIp(locals, rest, ip) == AtIp(locals, locals.Keys, ip)
        invariant forall k | k in locals && k !in rest :: locals[k].ip != ip
        decreases |rest|
      {
        var k := KeyOrder.Least(rest);
        if locals[k].ip == ip {
          locals := locals - {k};
          return true;
        }
        rest := rest - {k};
      }
      return false;
    }

    method OnRegisterExternalDomain(sid: int)
      modifies `domains, `sent
      ensures Handled(RegisterDomain(sid))
    {
      domains := domains[sid := Peer("", false, if sid in domains then domains[sid].tbl else [])];
      sent := sent + [Ack(sid)];
    }

    method OnExternalHostReady(sid: int, tbl: SvcTable, peer: Maybe<string>)
      modifies `domains, `sent
      ensures Handled(DomainReady(sid, tbl, peer))
    {
      if sid in domains {
        UpdateDomainSvcTable(sid, true, tbl, peer);
      }
    }

    method OnPostDomainSvcAddress(sid: int, tbl: SvcTable, peer: Maybe<string>)
      modifies `domains, `sent
      ensures Handled(PostDomain(sid, tbl, peer))
    {
      if sid in domains {
        UpdateDomainSvcTable(sid, domains[sid].ready, tbl, peer);
      }
    }

    method OnOffline(sid: int)
      modifies `locals, `domains, `followers, `sent
      ensures Handled(Offline(sid))
    {
      followers := followers - {sid};
      if sid in locals {
        locals := locals - {sid};
        OnLocalChanged();
      } else if sid in domains {
        domains := domains - {sid};
        OnUpstreamChanged();
      }
    }

    /** The upstream server took the registration; it gets the tables from here and below. */
    method OnUpstreamAck(k: int)
      modifies `sent
      ensures Handled(UpstreamAck(k))
    {
      var tbl := BuildForUpstreamHost();
      sent := sent + [ToUpstream(k, tbl), Follow(k)];
    }

    method OnUpstreamOnline(k: int)
      modifies `connected, `sent
      ensures Handled(UpstreamOnline(k))
    {
      connected := connected + {k};
      sent := sent + [Register(k)];
    }

    method OnUpstreamBroadcast(k: int, tbl: SvcTable, peer: Maybe<string>)
      modifies `upstream, `sent
      ensures Handled(FromUpstream(k, tbl, peer))
    {
      var checked := ValidateUrl(tbl, peer);
      UpdateUpstreamSvcTable(k, checked);
    }

    method OnUpstreamLost(k: int)
      modifies `upstream, `connected, `sent
      ensures Handled(UpstreamLost(k))
    {
      connected := connected - {k};
      UpdateUpstreamSvcTable(k, []);
    }

    method OnSubscribeLocal()
      modifies `sent
      ensures Handled(SubscribeLocal)
    {
      BroadcastToLocalHost();
    }

    /** A session that subscribes gets the current table, and every later one. */
    method OnSubscribeDownstream(sid: int)
      modifies `followers, `sent
      ensures Handled(SubscribeDownstream(sid))
    {
      followers := followers + {sid};
      BroadcastToDownstreamHost({sid});
    }
  }
}
