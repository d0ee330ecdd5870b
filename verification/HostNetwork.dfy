/** A network of host servers exchanging service tables
    (server/CHostServer.cpp, server/CInterHostProxy.cpp).

    Every server handles its events one at a time.  A table that was sent may
    arrive late, more than once or never; nothing else is known about delivery. */
module HostNetwork {
  import opened Maybes
  import opened ServiceTables
  import opened HostServer
  import opened AddressAllocator
  import KeyOrder

  /** `up(n, k)` is the k-th upstream server of n, if there is one; `below(n, sid)`
      is the server at the other end of a downstream session.  `seen(n, sid, peer)`
      tells whether what arrives in a session may be handled with that peer: its
      IP address, or nothing if the session can be gone by then.  `seenAbove` is
      the same for the k-th upstream server. */
  datatype Topology = Topology(options: Node -> Options, up: (Node, int) -> Maybe<Node>, below: (Node, int) -> Node,
                               seen: (Node, int, Maybe<string>) -> bool, seenAbove: (Node, int, Maybe<string>) -> bool) {
    function setup(n: Node): Setup {
      Configure(options(n))
    }
  }

  datatype Packet = Packet(from: Node, msg: Msg)

  datatype World = World(states: map<Node, State>, sent: set<Packet>)

  ghost predicate IsUp(top: Topology, c: Node, p: Node) {
    exists k :: top.up(c, k) == Just(p)
  }

  /** The k-th upstream server of `c` is `p`, which knows it as session `sid`. */
  predicate IsLink(top: Topology, c: Node, k: int, p: Node, sid: int) {
    top.up(c, k) == Just(p) && top.below(p, sid) == c
  }

  /** Name servers post what they like, under their own host server; everything
      else was sent by the neighbour it comes from, and tables for servers below
      reach only the sessions they were sent to. */
  ghost predicate Possible(top: Topology, w: World, n: Node, ev: Event) {
    && n in w.states
    && match ev
       case LocalReady(sid, tbl, peer) => PostedAt(n, tbl) && top.seen(n, sid, peer)
       case PostLocal(sid, tbl, peer) => PostedAt(n, tbl) && top.seen(n, sid, peer)
       case DomainReady(sid, tbl, peer) => ArrivesFromBelow(top, w, n, sid, tbl) && top.seen(n, sid, peer)
       case PostDomain(sid, tbl, peer) => ArrivesFromBelow(top, w, n, sid, tbl) && top.seen(n, sid, peer)
       case RegisterDomain(sid) => exists c, k :: IsLink(top, c, k, n, sid) && Packet(c, Register(k)) in w.sent
       case UpstreamOnline(k) => top.up(n, k).Just?
       case UpstreamAck(k) => exists p, sid :: IsLink(top, n, k, p, sid) && Packet(p, Ack(sid)) in w.sent
       case SubscribeDownstream(sid) => exists c, k :: IsLink(top, c, k, n, sid) && Packet(c, Follow(k)) in w.sent
       case FromUpstream(k, tbl, peer) => ArrivesFromAbove(top, w, n, k, tbl) && top.seenAbove(n, k, peer)
       case _ => true
  }

  ghost predicate PostedAt(n: Node, tbl: SvcTable) {
    forall x | Holds(tbl, x) :: x.origin == n
  }

  ghost predicate ArrivesFromBelow(top: Topology, w: World, n: Node, sid: int, tbl: SvcTable) {
    exists c, k :: IsLink(top, c, k, n, sid) && Packet(c, ToUpstream(k, tbl)) in w.sent
  }

  ghost predicate ArrivesFromAbove(top: Topology, w: World, n: Node, k: int, tbl: SvcTable) {
    exists p, sid, to :: IsLink(top, n, k, p, sid) && sid in to && Packet(p, ToDownstream(to, tbl)) in w.sent
  }

  ghost predicate Next(top: Topology, w: World, n: Node, ev: Event, w': World) {
    && Possible(top, w, n, ev)
    && var (s', msgs) := Handle(top.setup(n), w.states[n], ev);
       w' == World(w.states[n := s'], w.sent + set m | m in msgs :: Packet(n, m))
  }

  datatype Step = Step(n: Node, ev: Event)

  ghost predicate IsRun(top: Topology, worlds: seq<World>, steps: seq<Step>) {
    && |worlds| == |steps| + 1
    && forall i | 0 <= i < |steps| :: Next(top, worlds[i], steps[i].n, steps[i].ev, worlds[i + 1])
  }

  /** Nothing is known and nothing was sent. */
  ghost predicate IsInitial(w: World) {
    && w.sent == {}
    && forall n | n in w.states ::
         && w.states[n].locals == map[] && w.states[n].domains == map[] && w.states[n].followers == {}
         && forall k | k in w.states[n].upstream :: w.states[n].upstream[k] == []
  }

  // ------------------------------------------------------------------
  // Routes.

  /** An address as a server has it. */
  datatype Stop = Stop(n: Node, x: Item)

  /** A name server published the address here, and it is kept as `x`. */
  ghost predicate Published(top: Topology, n: Node, x: Item) {
    exists y: Item, sid, peer :: y.origin == n && top.seen(n, sid, peer) && x in VerifyOne(y, peer)
  }

  /** `a` hands its address up, and `b` keeps it as it has it. */
  ghost predicate HandsUp(top: Topology, a: Stop, b: Stop) {
    && GoesUp(a.x.level, top.setup(a.n).minUpstream)
    && exists k, sid, peer :: IsLink(top, a.n, k, b.n, sid) && top.seen(b.n, sid, peer) && b.x in VerifyOne(a.x, peer)
  }

  /** `a` hands its address down, and `b` keeps it as it has it. */
  ghost predicate HandsDown(top: Topology, a: Stop, b: Stop) {
    && GoesDown(a.x.level, top.setup(a.n).maxDomain)
    && exists k, sid, peer :: IsLink(top, b.n, k, a.n, sid) && top.seenAbove(b.n, k, peer) && b.x == ValidateOne(a.x, peer)
  }

  /** The way of an address up from where it was published. */
  ghost predicate IsClimb(top: Topology, path: seq<Stop>) {
    && path != [] && Published(top, path[0].n, path[0].x)
    && forall k | 0 <= k < |path| - 1 :: HandsUp(top, path[k], path[k + 1])
  }

  ghost predicate IsDescent(top: Topology, path: seq<Stop>) {
    path != [] && forall k | 0 <= k < |path| - 1 :: HandsDown(top, path[k], path[k + 1])
  }

  /** The address came up to `n`. */
  ghost predicate Climbed(top: Topology, x: Item, n: Node) {
    exists path :: IsClimb(top, path) && path[|path| - 1] == Stop(n, x)
  }

  /** The address came up to some server and from there down to `n`. */
  ghost predicate Routed(top: Topology, x: Item, n: Node) {
    exists path: seq<Stop> :: IsDescent(top, path) && Climbed(top, path[0].x, path[0].n) && path[|path| - 1] == Stop(n, x)
  }

  /** A server below handed the address to `n`. */
  ghost predicate FromBelow(top: Topology, x: Item, n: Node) {
    exists c, y :: Climbed(top, y, c) && HandsUp(top, Stop(c, y), Stop(n, x))
  }

  /** A server above handed the address to `n`. */
  ghost predicate FromAbove(top: Topology, x: Item, n: Node) {
    exists p, y :: Routed(top, y, p) && HandsDown(top, Stop(p, y), Stop(n, x))
  }

  lemma ClimbsFurther(top: Topology, x: Item, n: Node)
    requires FromBelow(top, x, n)
    ensures Climbed(top, x, n)
  {
    var c, y :| Climbed(top, y, c) && HandsUp(top, Stop(c, y), Stop(n, x));
    var path: seq<Stop> :| IsClimb(top, path) && path[|path| - 1] == Stop(c, y);
    OneUp(top, path, Stop(n, x));
  }

  lemma OneUp(top: Topology, path: seq<Stop>, next: Stop)
    requires IsClimb(top, path) && HandsUp(top, path[|path| - 1], next)
    ensures Climbed(top, next.x, next.n)
  {
    var more := path + [next];
    assert more[0] == path[0];
    forall k | 0 <= k < |more| - 1 ensures HandsUp(top, more[k], more[k + 1]) {
      assert more[k] == path[k] && more[k + 1] == if k + 1 < |path| then path[k + 1] else next;
    }
    assert IsClimb(top, more) && more[|more| - 1] == next;
  }

  lemma DescendsFurther(top: Topology, x: Item, n: Node)
    requires FromAbove(top, x, n)
    ensures Routed(top, x, n)
  {
    var p, y :| Routed(top, y, p) && HandsDown(top, Stop(p, y), Stop(n, x));
    var path: seq<Stop> :| IsDescent(top, path) && Climbed(top, path[0].x, path[0].n) && path[|path| - 1] == Stop(p, y);
    OneDown(top, path, Stop(n, x));
  }

  lemma OneDown(top: Topology, path: seq<Stop>, next: Stop)
    requires IsDescent(top, path) && Climbed(top, path[0].x, path[0].n) && HandsDown(top, path[|path| - 1], next)
    ensures Routed(top, next.x, next.n)
  {
    var more := path + [next];
    forall k | 0 <= k < |more| - 1 ensures HandsDown(top, more[k], more[k + 1]) {
      assert more[k] == path[k] && more[k + 1] == if k + 1 < |path| then path[k + 1] else next;
    }
    assert IsDescent(top, more) && more[0] == path[0] && more[|more| - 1] == next;
  }

  lemma Home(top: Topology, x: Item, n: Node)
    requires Published(top, n, x)
    ensures Climbed(top, x, n)
  {
    assert IsClimb(top, [Stop(n, x)]);
  }

  lemma ClimbIsRoute(top: Topology, x: Item, n: Node)
    requires Climbed(top, x, n)
    ensures Routed(top, x, n)
  {
    assert IsDescent(top, [Stop(n, x)]);
  }

  // ------------------------------------------------------------------
  // What every reachable world satisfies.

  /** Local tables are from here, downstream tables came up from below, and
      upstream tables came down from above. */
  ghost predicate TablesHaveRoutes(top: Topology, n: Node, s: State) {
    && (forall x | PeersHold(s.locals, x) :: Published(top, n, x))
    && (forall x | PeersHold(s.domains, x) :: FromBelow(top, x, n))
    && (forall x | TablesHold(s.upstream, x) :: FromAbove(top, x, n))
  }

  ghost predicate MessageHasRoutes(top: Topology, n: Node, m: Msg) {
    match m
    case ToUpstream(_, tbl) =>
      forall x | Holds(tbl, x) :: Climbed(top, x, n) && GoesUp(x.level, top.setup(n).minUpstream)
    case ToDownstream(_, tbl) => forall x | Holds(tbl, x) :: Routed(top, x, n) && GoesDown(x.level, top.setup(n).maxDomain)
    case ToLocal(tbl) => forall x | Holds(tbl, x) :: Routed(top, x, n) && GoesDown(x.level, top.setup(n).maxDomain)
    case _ => true
  }

  ghost predicate MessagesHaveRoutes(top: Topology, n: Node, msgs: seq<Msg>) {
    forall m | m in msgs :: MessageHasRoutes(top, n, m)
  }

  ghost predicate Inv(top: Topology, w: World) {
    && (forall n | n in w.states :: TablesHaveRoutes(top, n, w.states[n]))
    && (forall p | p in w.sent :: MessageHasRoutes(top, p.from, p.msg))
  }

  // ------------------------------------------------------------------
  // Messages come from tables.

  lemma ReadyIsHeld(m: map<int, Peer>, x: Item)
    requires ReadyHold(m, x)
    ensures PeersHold(m, x)
  {
    var k :| k in m.Keys && m[k].ready && Holds(m[k].tbl, x);
  }

  lemma PeersClimbed(top: Topology, n: Node, s: State, x: Item)
    requires TablesHaveRoutes(top, n, s) && (PeersHold(s.locals, x) || PeersHold(s.domains, x))
    ensures Climbed(top, x, n)
  {
    if PeersHold(s.locals, x) {
      Home(top, x, n);
    } else {
      ClimbsFurther(top, x, n);
    }
  }

  lemma UpstreamTableHasRoutes(top: Topology, n: Node, s: State)
    requires TablesHaveRoutes(top, n, s)
    ensures forall k :: MessageHasRoutes(top, n, ToUpstream(k, ForUpstream(top.setup(n), s)))
  {
    forall x | Holds(ForUpstream(top.setup(n), s), x)
      ensures Climbed(top, x, n) && GoesUp(x.level, top.setup(n).minUpstream)
    {
      UpstreamHolds(top.setup(n), s, x);
      if ReadyHold(s.domains, x) {
        ReadyIsHeld(s.domains, x);
      } else {
        ReadyIsHeld(s.locals, x);
      }
      PeersClimbed(top, n, s, x);
    }
  }

  lemma DownstreamTableHasRoutes(top: Topology, n: Node, s: State)
    requires TablesHaveRoutes(top, n, s)
    ensures forall to :: MessageHasRoutes(top, n, ToDownstream(to, ForDownstream(top.setup(n), s)))
  {
    forall x | Holds(ForDownstream(top.setup(n), s), x)
      ensures Routed(top, x, n) && GoesDown(x.level, top.setup(n).maxDomain)
    {
      DownstreamHolds(top.setup(n), s, x);
      HeldHasRoute(top, n, s, x);
    }
  }

  lemma LocalTableHasRoutes(top: Topology, n: Node, s: State)
    requires TablesHaveRoutes(top, n, s)
    ensures MessageHasRoutes(top, n, ToLocal(ForLocal(top.setup(n), s)))
  {
    forall x | Holds(ForLocal(top.setup(n), s), x)
      ensures Routed(top, x, n) && GoesDown(x.level, top.setup(n).maxDomain)
    {
      LocalHolds(top.setup(n), s, x);
      HeldHasRoute(top, n, s, x);
    }
  }

  lemma HeldHasRoute(top: Topology, n: Node, s: State, x: Item)
    requires TablesHaveRoutes(top, n, s)
    requires TablesHold(s.upstream, x) || ReadyHold(s.domains, x) || ReadyHold(s.locals, x)
    ensures Routed(top, x, n)
  {
    if TablesHold(s.upstream, x) {
      DescendsFurther(top, x, n);
    } else {
      if ReadyHold(s.domains, x) {
        ReadyIsHeld(s.domains, x);
      } else {
        ReadyIsHeld(s.locals, x);
      }
      PeersClimbed(top, n, s, x);
      ClimbIsRoute(top, x, n);
    }
  }

  lemma {:induction false} PostsHaveRoutes(top: Topology, n: Node, connected: set<int>, keys: set<int>, tbl: SvcTable)
    requires forall k :: MessageHasRoutes(top, n, ToUpstream(k, tbl))
    ensures MessagesHaveRoutes(top, n, Posts(connected, keys, tbl))
    decreases |keys|
  {
    if keys != {} {
      PostsHaveRoutes(top, n, connected, keys - {KeyOrder.Least(keys)}, tbl);
    }
  }

  /** Whatever a server sends from good tables has routes. */
  lemma ChangesHaveRoutes(top: Topology, n: Node, s: State)
    requires TablesHaveRoutes(top, n, s)
    ensures MessagesHaveRoutes(top, n, LocalChanged(top.setup(n), s))
    ensures MessagesHaveRoutes(top, n, UpstreamChanged(top.setup(n), s))
    ensures MessagesHaveRoutes(top, n, DomainChanged(top.setup(n), s))
  {
    UpstreamTableHasRoutes(top, n, s);
    DownstreamTableHasRoutes(top, n, s);
    LocalTableHasRoutes(top, n, s);
    PostsHaveRoutes(top, n, s.connected, s.upstream.Keys, ForUpstream(top.setup(n), s));
  }

  // ------------------------------------------------------------------
  // Tables after an event.

  lemma LocalPost(top: Topology, n: Node, s: State, sid: int, ready: bool, tbl: SvcTable, peer: Maybe<string>)
    requires TablesHaveRoutes(top, n, s) && sid in s.locals && PostedAt(n, tbl) && top.seen(n, sid, peer)
    ensures TablesHaveRoutes(top, n, WithLocal(top.setup(n), s, sid, ready, tbl, peer))
  {
    var s' := WithLocal(top.setup(n), s, sid, ready, tbl, peer);
    forall x | PeersHold(s'.locals, x) ensures Published(top, n, x) {
      var k :| k in s'.locals && Holds(s'.locals[k].tbl, x);
      if k == sid {
        InDomainHolds(Stored(Verify(tbl, peer)), top.setup(n).name, x);
        StoredHolds(Verify(tbl, peer), x);
        InVerify(tbl, peer, x);
      } else {
        assert PeersHold(s.locals, x);
      }
    }
  }

  lemma DomainPost(top: Topology, w: World, n: Node, s: State, sid: int, ready: bool, tbl: SvcTable, peer: Maybe<string>)
    requires TablesHaveRoutes(top, n, s) && sid in s.domains && Inv(top, w)
    requires ArrivesFromBelow(top, w, n, sid, tbl) && top.seen(n, sid, peer)
    ensures TablesHaveRoutes(top, n, WithDomain(s, sid, ready, tbl, peer))
  {
    var s' := WithDomain(s, sid, ready, tbl, peer);
    forall x | PeersHold(s'.domains, x) ensures FromBelow(top, x, n) {
      var k :| k in s'.domains && Holds(s'.domains[k].tbl, x);
      if k == sid {
        StoredHolds(Verify(tbl, peer), x);
        BelowIsFromBelow(top, w, n, sid, tbl, peer, x);
      } else {
        assert PeersHold(s.domains, x);
      }
    }
  }

  lemma UpstreamUpdate(top: Topology, n: Node, s: State, k: int, tbl: SvcTable)
    requires TablesHaveRoutes(top, n, s) && forall x | Holds(tbl, x) :: FromAbove(top, x, n)
    ensures TablesHaveRoutes(top, n, WithUpstream(top.setup(n), s, k, tbl))
  {
    var s' := WithUpstream(top.setup(n), s, k, tbl);
    forall x | TablesHold(s'.upstream, x) ensures FromAbove(top, x, n) {
      var j :| j in s'.upstream && Holds(s'.upstream[j], x);
      if j == k {
        DropLocalHolds(Stored(tbl), s.locals, s.locals.Keys, top.setup(n).ips, x);
        StoredHolds(tbl, x);
      } else {
        assert TablesHold(s.upstream, x);
      }
    }
  }

  /** A table that arrives from below, after its addresses were checked. */
  lemma BelowIsFromBelow(top: Topology, w: World, n: Node, sid: int, tbl: SvcTable, peer: Maybe<string>, x: Item)
    requires Inv(top, w) && ArrivesFromBelow(top, w, n, sid, tbl) && top.seen(n, sid, peer)
    requires Holds(Verify(tbl, peer), x)
    ensures FromBelow(top, x, n)
  {
    var c, k :| IsLink(top, c, k, n, sid) && Packet(c, ToUpstream(k, tbl)) in w.sent;
    assert MessageHasRoutes(top, c, ToUpstream(k, tbl));
    InVerify(tbl, peer, x);
    var y :| Holds(tbl, y) && x in VerifyOne(y, peer);
    assert HandsUp(top, Stop(c, y), Stop(n, x));
  }

  /** A table that arrives from above, after its addresses were chosen. */
  lemma AboveIsFromAbove(top: Topology, w: World, n: Node, k: int, tbl: SvcTable, peer: Maybe<string>)
    requires Inv(top, w) && ArrivesFromAbove(top, w, n, k, tbl) && top.seenAbove(n, k, peer)
    ensures forall x | Holds(Validate(tbl, peer), x) :: FromAbove(top, x, n)
  {
    var p, sid, to :| IsLink(top, n, k, p, sid) && sid in to && Packet(p, ToDownstream(to, tbl)) in w.sent;
    assert MessageHasRoutes(top, p, ToDownstream(to, tbl));
    forall x | Holds(Validate(tbl, peer), x) ensures FromAbove(top, x, n) {
      InValidate(tbl, peer, x);
      var y :| Holds(tbl, y) && x == ValidateOne(y, peer);
      assert HandsDown(top, Stop(p, y), Stop(n, x));
    }
  }

  lemma FewerPeers(m: map<int, Peer>, m': map<int, Peer>)
    requires forall k | k in m' :: (k in m && m'[k].tbl == m[k].tbl) || m'[k].tbl == []
    ensures forall x | PeersHold(m', x) :: PeersHold(m, x)
  {}

  /** The tables after any possible event. */
  lemma TablesKeepRoutes(top: Topology, w: World, n: Node, ev: Event)
    requires Inv(top, w) && Possible(top, w, n, ev)
    ensures TablesHaveRoutes(top, n, Handle(top.setup(n), w.states[n], ev).0)
  {
    var s := w.states[n];
    assert TablesHaveRoutes(top, n, s);
    match ev
    case RegisterLocal(sid, ip) => FewerPeers(s.locals, Registered(s.locals, sid, ip));
    case LocalReady(sid, tbl, peer) =>
      if sid in s.locals {
        LocalPost(top, n, s, sid, true, tbl, peer);
      }
    case PostLocal(sid, tbl, peer) =>
      if sid in s.locals {
        LocalPost(top, n, s, sid, s.locals[sid].ready, tbl, peer);
      }
    case UnregisterLocal(ip) =>
      var k := AtIp(s.locals, s.locals.Keys, ip);
      if k.Just? {
        FewerPeers(s.locals, s.locals - {k.value});
      }
    case RegisterDomain(sid) => FewerPeers(s.domains, Registered(s.domains, sid, ""));
    case DomainReady(sid, tbl, peer) =>
      if sid in s.domains {
        DomainPost(top, w, n, s, sid, true, tbl, peer);
      }
    case PostDomain(sid, tbl, peer) =>
      if sid in s.domains {
        DomainPost(top, w, n, s, sid, s.domains[sid].ready, tbl, peer);
      }
    case Offline(sid) =>
      FewerPeers(s.locals, s.locals - {sid});
      FewerPeers(s.domains, s.domains - {sid});
    case FromUpstream(k, tbl, peer) =>
      AboveIsFromAbove(top, w, n, k, tbl, peer);
      UpstreamUpdate(top, n, s, k, Validate(tbl, peer));
    case UpstreamLost(k) => UpstreamUpdate(top, n, s, k, []);
    case _ =>
  }

  lemma MessagesKeepRoutes(top: Topology, w: World, n: Node, ev: Event)
    requires Inv(top, w) && Possible(top, w, n, ev)
    ensures MessagesHaveRoutes(top, n, Handle(top.setup(n), w.states[n], ev).1)
  {
    TablesKeepRoutes(top, w, n, ev);
    var s' := Handle(top.setup(n), w.states[n], ev).0;
    ChangesHaveRoutes(top, n, s');
    UpstreamTableHasRoutes(top, n, s');
    DownstreamTableHasRoutes(top, n, s');
    LocalTableHasRoutes(top, n, s');
  }

  lemma StepKeepsRoutes(top: Topology, w: World, n: Node, ev: Event, w': World)
    requires Inv(top, w) && Next(top, w, n, ev, w')
    ensures Inv(top, w')
  {
    TablesKeepRoutes(top, w, n, ev);
    MessagesKeepRoutes(top, w, n, ev);
  }

  /** In every run, every address in every table and every message has a route. */
  lemma {:induction false} RunHasRoutes(top: Topology, worlds: seq<World>, steps: seq<Step>, i: nat)
    requires IsRun(top, worlds, steps) && IsInitial(worlds[0]) && i < |worlds|
    ensures Inv(top, worlds[i])
  {
    if i > 0 {
      RunHasRoutes(top, worlds, steps, i - 1);
      StepKeepsRoutes(top, worlds[i - 1], steps[i - 1].n, steps[i - 1].ev, worlds[i]);
    }
  }

  // ------------------------------------------------------------------
  // Never learned from above.

  /** Every server of the path but the last forwarded upward and asks for at most this level. */
  ghost predicate IsGuardedClimb(top: Topology, path: seq<Node>, level: int) {
    && path != []
    && forall k | 0 <= k < |path| - 1 :: IsUp(top, path[k], path[k + 1]) && level >= top.setup(path[k]).minUpstream
  }

  /** The address was published at `n` or at a server reachable downward from
      it, and every server on the way up let it pass. */
  ghost predicate IsFromHereOrBelow(top: Topology, x: Item, n: Node) {
    exists path :: IsGuardedClimb(top, path, x.level) && path[0] == x.origin && path[|path| - 1] == n
  }

  /** Level and origin stay the same all the way up. */
  lemma {:induction false} ClimbKeepsSource(top: Topology, path: seq<Stop>, k: nat)
    requires IsClimb(top, path) && k < |path|
    ensures path[k].x.level == path[0].x.level && path[k].x.origin == path[0].n
  {
    if k == 0 {
      var y: Item, sid, peer :| y.origin == path[0].n && top.seen(path[0].n, sid, peer) && path[0].x in VerifyOne(y, peer);
      RewritingKeepsSource(y, peer);
    } else {
      ClimbKeepsSource(top, path, k - 1);
      assert HandsUp(top, path[k - 1], path[k - 1 + 1]);
      var j, sid, peer :| IsLink(top, path[k - 1].n, j, path[k].n, sid) && top.seen(path[k].n, sid, peer)
                          && path[k].x in VerifyOne(path[k - 1].x, peer);
      RewritingKeepsSource(path[k - 1].x, peer);
    }
  }

  lemma ClimbIsGuarded(top: Topology, x: Item, n: Node)
    requires Climbed(top, x, n)
    ensures IsFromHereOrBelow(top, x, n)
  {
    var path: seq<Stop> :| IsClimb(top, path) && path[|path| - 1] == Stop(n, x);
    var nodes := seq(|path|, k requires 0 <= k < |path| => path[k].n);
    ClimbKeepsSource(top, path, |path| - 1);
    forall k | 0 <= k < |nodes| - 1
      ensures IsUp(top, nodes[k], nodes[k + 1]) && x.level >= top.setup(nodes[k]).minUpstream
    {
      ClimbKeepsSource(top, path, k);
      assert HandsUp(top, path[k], path[k + 1]);
      MinimumHoldsIff(top.setup(path[k].n).minUpstream);
    }
    assert IsGuardedClimb(top, nodes, x.level);
  }

  /** In every run, each address in a downstream table, and each address in a
      message posted upstream, comes from a name server of that host server or
      of one reachable downward from it, and its level is at least the minimum
      of every server that forwarded it. */
  lemma NeverLearnedFromAbove(top: Topology, worlds: seq<World>, steps: seq<Step>, i: nat, n: Node, x: Item)
    requires IsRun(top, worlds, steps) && IsInitial(worlds[0]) && i < |worlds|
    ensures n in worlds[i].states && PeersHold(worlds[i].states[n].domains, x) ==> IsFromHereOrBelow(top, x, n)
    ensures forall k, tbl | Packet(n, ToUpstream(k, tbl)) in worlds[i].sent && Holds(tbl, x) ::
              IsFromHereOrBelow(top, x, n) && x.level >= top.setup(n).minUpstream
  {
    RunHasRoutes(top, worlds, steps, i);
    var w := worlds[i];
    if n in w.states && PeersHold(w.states[n].domains, x) {
      HeldIsFromBelow(top, w, n, x);
    }
    forall k, tbl | Packet(n, ToUpstream(k, tbl)) in w.sent && Holds(tbl, x)
      ensures IsFromHereOrBelow(top, x, n) && x.level >= top.setup(n).minUpstream
    {
      SentIsFromBelow(top, w, n, k, tbl, x);
    }
  }

  lemma HeldIsFromBelow(top: Topology, w: World, n: Node, x: Item)
    requires Inv(top, w) && n in w.states && PeersHold(w.states[n].domains, x)
    ensures IsFromHereOrBelow(top, x, n)
  {
    assert TablesHaveRoutes(top, n, w.states[n]);
    ClimbsFurther(top, x, n);
    ClimbIsGuarded(top, x, n);
  }

  lemma SentIsFromBelow(top: Topology, w: World, n: Node, k: int, tbl: SvcTable, x: Item)
    requires Inv(top, w) && Packet(n, ToUpstream(k, tbl)) in w.sent && Holds(tbl, x)
    ensures IsFromHereOrBelow(top, x, n) && x.level >= top.setup(n).minUpstream
  {
    assert MessageHasRoutes(top, n, ToUpstream(k, tbl));
    ClimbIsGuarded(top, x, n);
    MinimumHoldsIff(top.setup(n).minUpstream);
    assert GoesUp(x.level, top.setup(n).minUpstream);
  }

  // ------------------------------------------------------------------
  // Every route can happen.

  ghost predicate Reaches(top: Topology, w: World, w': World) {
    exists worlds, steps :: IsRun(top, worlds, steps) && worlds[0] == w && worlds[|steps|] == w'
  }

  lemma ReachesItself(top: Topology, w: World)
    ensures Reaches(top, w, w)
  {
    assert IsRun(top, [w], []);
  }

  lemma ReachesOneMore(top: Topology, w: World, w1: World, n: Node, ev: Event, w2: World)
    requires Reaches(top, w, w1) && Next(top, w1, n, ev, w2)
    ensures Reaches(top, w, w2)
  {
    var worlds, steps :| IsRun(top, worlds, steps) && worlds[0] == w && worlds[|steps|] == w1;
    var worlds', steps' := worlds + [w2], steps + [Step(n, ev)];
    forall i | 0 <= i < |steps'| ensures Next(top, worlds'[i], steps'[i].n, steps'[i].ev, worlds'[i + 1]) {
      if i < |steps| {
        assert worlds'[i] == worlds[i] && worlds'[i + 1] == worlds[i + 1] && steps'[i] == steps[i];
      }
    }
    assert IsRun(top, worlds', steps');
  }

  lemma ReachesOn(top: Topology, a: World, b: World, c: World)
    requires Reaches(top, a, b) && Reaches(top, b, c)
    ensures Reaches(top, a, c)
  {
    var worlds: seq<World>, steps: seq<Step> :| IsRun(top, worlds, steps) && worlds[0] == b && worlds[|steps|] == c;
    for i := 0 to |steps|
      invariant Reaches(top, a, worlds[i])
    {
      ReachesOneMore(top, a, worlds[i], steps[i].n, steps[i].ev, worlds[i + 1]);
    }
  }

  ghost function After(top: Topology, w: World, n: Node, ev: Event): World
    requires n in w.states
  {
    var (s', msgs) := Handle(top.setup(n), w.states[n], ev);
    World(w.states[n := s'], w.sent + set m | m in msgs :: Packet(n, m))
  }

  /** A server knows an address from a ready name server or domain below it. */
  ghost predicate KnownTo(s: State, x: Item) {
    ReadyHold(s.locals, x) || ReadyHold(s.domains, x)
  }

  ghost predicate Knows(w: World, n: Node, x: Item) {
    n in w.states && KnownTo(w.states[n], x)
  }

  ghost predicate Hears(w: World, n: Node, x: Item) {
    n in w.states && TablesHold(w.states[n].upstream, x)
  }

  /** No service has more than one address. */
  ghost predicate Slim(tbl: SvcTable) {
    forall k | 0 <= k < |tbl| :: |tbl[k].addrs| <= 1
  }

  ghost predicate SlimPeers(m: map<int, Peer>) {
    forall k | k in m :: Slim(m[k].tbl)
  }

  ghost predicate SlimTables(m: map<int, SvcTable>) {
    forall k | k in m :: Slim(m[k])
  }

  ghost predicate SlimState(s: State) {
    SlimPeers(s.locals) && SlimPeers(s.domains) && SlimTables(s.upstream)
  }

  lemma {:induction false} FilterShortens(addrs: seq<Item>, e: int)
    ensures |Filter(addrs, e)| <= |addrs|
  {
    if addrs != [] {
      FilterShortens(addrs[..|addrs| - 1], e);
    }
  }

  lemma {:induction false} SlimExport(tbl: SvcTable, e: int)
    requires Slim(tbl)
    ensures Slim(Export(tbl, e))
  {
    if tbl != [] {
      SlimExport(tbl[..|tbl| - 1], e);
      FilterShortens(tbl[|tbl| - 1].addrs, e);
    }
  }

  lemma {:induction false} SlimFromPeers(m: map<int, Peer>, keys: set<int>, e: int)
    requires keys <= m.Keys && SlimPeers(m)
    ensures Slim(FromPeers(m, keys, e))
    decreases |keys|
  {
    if keys != {} {
      var k := KeyOrder.Least(keys);
      SlimExport(m[k].tbl, e);
      SlimFromPeers(m, keys - {k}, e);
      SlimConcat(if m[k].ready then Export(m[k].tbl, e) else [], FromPeers(m, keys - {k}, e));
    }
  }

  lemma {:induction false} SlimFromTables(m: map<int, SvcTable>, keys: set<int>, e: int)
    requires keys <= m.Keys && SlimTables(m)
    ensures Slim(FromTables(m, keys, e))
    decreases |keys|
  {
    if keys != {} {
      var k := KeyOrder.Least(keys);
      SlimExport(m[k], e);
      SlimFromTables(m, keys - {k}, e);
      SlimConcat(Export(m[k], e), FromTables(m, keys - {k}, e));
    }
  }

  lemma SlimConcat(a: SvcTable, b: SvcTable)
    requires Slim(a) && Slim(b)
    ensures Slim(a + b)
  {}

  lemma SlimUp(c: Setup, s: State)
    requires SlimState(s)
    ensures Slim(ForUpstream(c, s))
  {
    SlimFromPeers(s.domains, s.domains.Keys, -c.minUpstream);
    SlimFromPeers(s.locals, s.locals.Keys, -c.minUpstream);
    SlimConcat(FromPeers(s.domains, s.domains.Keys, -c.minUpstream), FromPeers(s.locals, s.locals.Keys, -c.minUpstream));
  }

  lemma SlimDown(c: Setup, s: State)
    requires SlimState(s)
    ensures Slim(ForDownstream(c, s))
  {
    SlimFromTables(s.upstream, s.upstream.Keys, c.maxDomain);
    SlimFromPeers(s.domains, s.domains.Keys, c.maxDomain);
    SlimFromPeers(s.locals, s.locals.Keys, c.maxDomain);
    SlimConcat(FromTables(s.upstream, s.upstream.Keys, c.maxDomain), FromPeers(s.domains, s.domains.Keys, c.maxDomain));
    SlimConcat(ForLocal(c, s), FromPeers(s.locals, s.locals.Keys, c.maxDomain));
  }

  lemma {:induction false} VerifyShortens(addrs: seq<Item>, peer: string)
    ensures |VerifyItems(addrs, peer)| <= |addrs|
  {
    if addrs != [] {
      VerifyShortens(addrs[..|addrs| - 1], peer);
    }
  }

  lemma {:induction false} ChoicesShorten(addrs: seq<Item>, peer: string)
    ensures |Best(addrs, peer)| <= |addrs| && |AllInterface(addrs, peer)| <= |addrs| && |Fallback(addrs, peer)| <= |addrs|
  {
    if addrs != [] {
      ChoicesShorten(addrs[..|addrs| - 1], peer);
    }
  }

  lemma SlimIn(tbl: SvcTable, peer: Maybe<string>)
    requires Slim(tbl)
    ensures Slim(Stored(Verify(tbl, peer))) && Slim(Stored(Validate(tbl, peer)))
  {
    forall k | 0 <= k < |tbl|
      ensures |Verify(tbl, peer)[k].addrs| <= 1 && |Validate(tbl, peer)[k].addrs| <= 1
    {
      if peer.Just? {
        VerifyShortens(tbl[k].addrs, peer.value);
        ChoicesShorten(tbl[k].addrs, peer.value);
      }
    }
  }

  /** What a run of one published address looks like: `o` alone has a name server,
      in session `sid`, services have one address, and registered servers were
      acknowledged. */
  ghost predicate Orderly(w: World, o: Node, sid: int) {
    && (forall n | n in w.states :: w.states[n].locals.Keys <= if n == o then {sid} else {})
    && (forall n | n in w.states :: SlimState(w.states[n]))
    && (forall n, j | n in w.states && j in w.states[n].domains :: Packet(n, Ack(j)) in w.sent)
  }

  /** A run of the network that only adds to what was sent. */
  ghost predicate Extends(top: Topology, w: World, w': World) {
    Reaches(top, w, w') && w.sent <= w'.sent && w'.states.Keys == w.states.Keys
  }

  lemma ExtendsOn(top: Topology, a: World, b: World, c: World)
    requires Extends(top, a, b) && Extends(top, b, c)
    ensures Extends(top, a, c)
  {
    ReachesOn(top, a, b, c);
  }

  lemma OneEvent(top: Topology, w: World, n: Node, ev: Event) returns (w': World)
    requires Possible(top, w, n, ev)
    ensures w' == After(top, w, n, ev) && Extends(top, w, w')
  {
    w' := After(top, w, n, ev);
    ReachesItself(top, w);
    ReachesOneMore(top, w, w, n, ev, w');
  }

  /** A server may lose name servers and gain acknowledged sessions. */
  lemma OrderlyWith(w: World, n: Node, s: State, sent: set<Packet>, o: Node, sid: int)
    requires Orderly(w, o, sid) && n in w.states && w.sent <= sent && SlimState(s)
    requires s.locals.Keys <= if n == o then {sid} else {}
    requires forall j | j in s.domains :: j in w.states[n].domains || Packet(n, Ack(j)) in sent
    ensures Orderly(World(w.states[n := s], sent), o, sid)
  {
    var w' := World(w.states[n := s], sent);
    forall m, j | m in w'.states && j in w'.states[m].domains ensures Packet(m, Ack(j)) in sent {
      if m != n {
        assert j in w.states[m].domains;
      }
    }
  }

  /** An event that brings no table keeps things orderly. */
  lemma StaysOrderly(top: Topology, w: World, n: Node, ev: Event, o: Node, sid: int)
    requires Orderly(w, o, sid) && n in w.states
    requires ev.UpstreamOnline? || ev.UpstreamAck? || ev.SubscribeDownstream? || ev.RegisterDomain? || ev.Offline?
             || (ev == RegisterLocal(sid, "") && n == o)
    ensures Orderly(After(top, w, n, ev), o, sid)
  {
    var (s', msgs) := Handle(top.setup(n), w.states[n], ev);
    var w' := After(top, w, n, ev);
    if ev.RegisterDomain? {
      assert Ack(ev.sid) in msgs;
      assert Packet(n, Ack(ev.sid)) in w'.sent;
    }
    NoNewTable(top.setup(n), w.states[n], ev);
    OrderlyWith(w, n, s', w'.sent, o, sid);
  }

  lemma NoNewTable(c: Setup, s: State, ev: Event)
    requires SlimState(s)
    requires ev.UpstreamOnline? || ev.UpstreamAck? || ev.SubscribeDownstream? || ev.RegisterDomain? || ev.Offline? || ev.RegisterLocal?
    ensures var s' := Handle(c, s, ev).0;
            && SlimState(s')
            && s'.locals.Keys <= s.locals.Keys + (if ev.RegisterLocal? then {ev.sid} else {})
            && s'.domains.Keys <= s.domains.Keys + (if ev.RegisterDomain? then {ev.sid} else {})
  {}

  function JustOne(x: Item): SvcTable {
    [Svc("", 0, "", [x])]
  }

  lemma JustOneHolds(x: Item)
    ensures Holds(JustOne(x), x) && forall y | Holds(JustOne(x), y) :: y == x
  {
    assert x in JustOne(x)[0].addrs;
  }

  /** A name server publishes an address, and its host server knows what it becomes. */
  lemma CanPublish(top: Topology, w: World, n: Node, x: Item, y: Item, sid: int, peer: Maybe<string>) returns (w': World)
    requires n in w.states && Orderly(w, n, sid)
    requires y.origin == n && top.seen(n, sid, peer) && x in VerifyOne(y, peer)
    ensures Extends(top, w, w') && Orderly(w', n, sid) && Knows(w', n, x)
  {
    var w1 := OneEvent(top, w, n, RegisterLocal(sid, ""));
    StaysOrderly(top, w, n, RegisterLocal(sid, ""), n, sid);
    w' := CanPost(top, w1, n, x, y, sid, peer);
    ExtendsOn(top, w, w1, w');
  }

  lemma CanPost(top: Topology, w: World, n: Node, x: Item, y: Item, sid: int, peer: Maybe<string>) returns (w': World)
    requires n in w.states && Orderly(w, n, sid) && sid in w.states[n].locals
    requires y.origin == n && top.seen(n, sid, peer) && x in VerifyOne(y, peer)
    ensures Extends(top, w, w') && Orderly(w', n, sid) && Knows(w', n, x)
  {
    JustOneHolds(y);
    w' := OneEvent(top, w, n, LocalReady(sid, JustOne(y), peer));
    LocalArrives(top.setup(n), w.states[n], sid, JustOne(y), peer, x, y);
    OrderlyWith(w, n, w'.states[n], w'.sent, n, sid);
  }

  lemma LocalArrives(c: Setup, s: State, sid: int, tbl: SvcTable, peer: Maybe<string>, x: Item, y: Item)
    requires sid in s.locals && Holds(tbl, y) && x in VerifyOne(y, peer) && Slim(tbl) && SlimState(s)
    ensures var s' := WithLocal(c, s, sid, true, tbl, peer); SlimState(s') && ReadyHold(s'.locals, x)
  {
    var s' := WithLocal(c, s, sid, true, tbl, peer);
    InVerify(tbl, peer, x);
    StoredHolds(Verify(tbl, peer), x);
    InDomainHolds(Stored(Verify(tbl, peer)), c.name, x);
    SlimIn(tbl, peer);
    assert sid in s'.locals.Keys && s'.locals[sid].ready && Holds(s'.locals[sid].tbl, x);
  }

  lemma DomainArrives(s: State, sid: int, tbl: SvcTable, peer: Maybe<string>, x: Item, y: Item)
    requires sid in s.domains && Holds(tbl, y) && x in VerifyOne(y, peer) && Slim(tbl) && SlimState(s)
    ensures var s' := WithDomain(s, sid, true, tbl, peer); SlimState(s') && ReadyHold(s'.domains, x)
  {
    var s' := WithDomain(s, sid, true, tbl, peer);
    InVerify(tbl, peer, x);
    StoredHolds(Verify(tbl, peer), x);
    SlimIn(tbl, peer);
    assert sid in s'.domains.Keys && s'.domains[sid].ready && Holds(s'.domains[sid].tbl, x);
  }

  /** Without local services and with one address a service, everything from above is kept. */
  lemma UpstreamArrives(c: Setup, s: State, k: int, tbl: SvcTable, peer: Maybe<string>, x: Item)
    requires s.locals == map[] && Holds(tbl, x) && Slim(tbl) && SlimState(s)
    ensures var s' := WithUpstream(c, s, k, Validate(tbl, peer)); SlimState(s') && TablesHold(s'.upstream, ValidateOne(x, peer))
  {
    var s' := WithUpstream(c, s, k, Validate(tbl, peer));
    var y := ValidateOne(x, peer);
    var j :| 0 <= j < |tbl| && x in tbl[j].addrs;
    if peer.Just? {
      assert IsTop(tbl[j].addrs, x, peer.value);
      HighestRankSurvives(tbl[j].addrs, peer.value, y);
    }
    assert y in Validate(tbl, peer)[j].addrs;
    StoredHolds(Validate(tbl, peer), y);
    SlimIn(tbl, peer);
    assert s'.upstream[k] == Stored(Validate(tbl, peer));
  }

  /** `w'` has the tables of `w` and perhaps sessions that are not ready. */
  ghost predicate Keeps(w: World, w': World) {
    && w'.states.Keys == w.states.Keys
    && forall n | n in w.states ::
         && w'.states[n].locals == w.states[n].locals && w'.states[n].upstream == w.states[n].upstream
         && forall x | ReadyHold(w.states[n].domains, x) :: ReadyHold(w'.states[n].domains, x)
  }

  /** Unless it is registered, a server connects to the one above, asks to be
      registered, and is. */
  lemma CanConnect(top: Topology, w: World, c: Node, k: int, p: Node, sid: int, o: Node, s0: int) returns (w': World)
    requires c in w.states && p in w.states && IsLink(top, c, k, p, sid) && Orderly(w, o, s0)
    ensures Extends(top, w, w') && Orderly(w', o, s0) && Keeps(w, w')
    ensures Packet(p, Ack(sid)) in w'.sent && sid in w'.states[p].domains
  {
    if sid in w.states[p].domains {
      ReachesItself(top, w);
      w' := w;
    } else {
      var w1 := GoesOnline(top, w, c, k, o, s0);
      w' := IsRegistered(top, w1, c, k, p, sid, o, s0);
      ExtendsOn(top, w, w1, w');
    }
  }

  lemma GoesOnline(top: Topology, w: World, c: Node, k: int, o: Node, s0: int) returns (w': World)
    requires c in w.states && top.up(c, k).Just? && Orderly(w, o, s0)
    ensures Extends(top, w, w') && Orderly(w', o, s0) && Keeps(w, w') && Packet(c, Register(k)) in w'.sent
    ensures forall m | m in w.states :: w'.states[m].domains == w.states[m].domains
  {
    w' := OneEvent(top, w, c, UpstreamOnline(k));
    StaysOrderly(top, w, c, UpstreamOnline(k), o, s0);
    assert Register(k) in Handle(top.setup(c), w.states[c], UpstreamOnline(k)).1;
  }

  lemma IsRegistered(top: Topology, w: World, c: Node, k: int, p: Node, sid: int, o: Node, s0: int) returns (w': World)
    requires p in w.states && IsLink(top, c, k, p, sid) && Orderly(w, o, s0)
    requires Packet(c, Register(k)) in w.sent && sid !in w.states[p].domains
    ensures Extends(top, w, w') && Orderly(w', o, s0) && Keeps(w, w') && sid in w'.states[p].domains
  {
    w' := OneEvent(top, w, p, RegisterDomain(sid));
    StaysOrderly(top, w, p, RegisterDomain(sid), o, s0);
    NewSessionHides(w.states[p].domains, sid);
  }

  lemma NewSessionHides(m: map<int, Peer>, sid: int)
    requires sid !in m
    ensures forall x | ReadyHold(m, x) :: ReadyHold(Registered(m, sid, ""), x)
  {
    var m' := Registered(m, sid, "");
    forall x | ReadyHold(m, x) ensures ReadyHold(m', x) {
      var k :| k in m.Keys && m[k].ready && Holds(m[k].tbl, x);
      assert k in m'.Keys && m'[k] == m[k];
    }
  }

  /** Once acknowledged, it posts its table and follows the broadcasts. */
  lemma CanRegister(top: Topology, w: World, c: Node, k: int, p: Node, sid: int, o: Node, s0: int) returns (w': World)
    requires c in w.states && p in w.states && IsLink(top, c, k, p, sid) && Orderly(w, o, s0)
    ensures Extends(top, w, w') && Orderly(w', o, s0) && Keeps(w, w')
    ensures sid in w'.states[p].domains && Packet(c, Follow(k)) in w'.sent
    ensures Packet(c, ToUpstream(k, ForUpstream(top.setup(c), w'.states[c]))) in w'.sent
  {
    var w1 := CanConnect(top, w, c, k, p, sid, o, s0);
    w' := OneEvent(top, w1, c, UpstreamAck(k));
    StaysOrderly(top, w1, c, UpstreamAck(k), o, s0);
    ExtendsOn(top, w, w1, w');
    var msgs := Handle(top.setup(c), w1.states[c], UpstreamAck(k)).1;
    assert msgs[0] in msgs && msgs[1] in msgs;
    assert w'.states == w1.states;
  }

  /** A server that knows an address of a passing level registers and hands it up. */
  lemma CanHandUp(top: Topology, w: World, a: Stop, b: Stop, o: Node, s0: int) returns (w': World)
    requires Knows(w, a.n, a.x) && HandsUp(top, a, b) && b.n in w.states && Orderly(w, o, s0)
    ensures Extends(top, w, w') && Orderly(w', o, s0) && Knows(w', b.n, b.x)
  {
    var k, sid, peer :| IsLink(top, a.n, k, b.n, sid) && top.seen(b.n, sid, peer) && b.x in VerifyOne(a.x, peer);
    var w1 := CanRegister(top, w, a.n, k, b.n, sid, o, s0);
    var tbl := ForUpstream(top.setup(a.n), w1.states[a.n]);
    UpstreamHolds(top.setup(a.n), w1.states[a.n], a.x);
    SlimUp(top.setup(a.n), w1.states[a.n]);
    assert ArrivesFromBelow(top, w1, b.n, sid, tbl);
    w' := Arrive(top, w1, b.n, sid, tbl, peer, b.x, a.x, o, s0);
    ExtendsOn(top, w, w1, w');
  }

  /** A table that was posted arrives at a registered session. */
  lemma Arrive(top: Topology, w: World, p: Node, sid: int, tbl: SvcTable, peer: Maybe<string>, x: Item, y: Item, o: Node, s0: int)
    returns (w': World)
    requires p in w.states && sid in w.states[p].domains && Orderly(w, o, s0) && Slim(tbl)
    requires ArrivesFromBelow(top, w, p, sid, tbl) && top.seen(p, sid, peer) && Holds(tbl, y) && x in VerifyOne(y, peer)
    ensures Extends(top, w, w') && Orderly(w', o, s0) && Knows(w', p, x)
  {
    w' := OneEvent(top, w, p, DomainReady(sid, tbl, peer));
    DomainArrives(w.states[p], sid, tbl, peer, x, y);
    OrderlyWith(w, p, w'.states[p], w'.sent, o, s0);
  }

  lemma FrontClimbs(top: Topology, path: seq<Stop>)
    requires IsClimb(top, path) && |path| > 1
    ensures IsClimb(top, path[..|path| - 1]) && HandsUp(top, path[|path| - 2], path[|path| - 1])
  {
    var front := path[..|path| - 1];
    forall k | 0 <= k < |front| - 1 ensures HandsUp(top, front[k], front[k + 1]) {
      assert HandsUp(top, path[k], path[k + 1]);
    }
    assert HandsUp(top, path[|path| - 2], path[|path| - 2 + 1]);
  }

  /** The address `y` is published and goes all the way up. */
  lemma {:induction false} ClimbHappens(top: Topology, w: World, path: seq<Stop>, sid: int, y: Item, peer: Maybe<string>)
    returns (w': World)
    requires IsClimb(top, path) && Orderly(w, path[0].n, sid)
    requires y.origin == path[0].n && top.seen(path[0].n, sid, peer) && path[0].x in VerifyOne(y, peer)
    requires forall k | 0 <= k < |path| :: path[k].n in w.states
    ensures Extends(top, w, w') && Orderly(w', path[0].n, sid) && Knows(w', path[|path| - 1].n, path[|path| - 1].x)
    decreases |path|
  {
    if |path| == 1 {
      w' := CanPublish(top, w, path[0].n, path[0].x, y, sid, peer);
    } else {
      var front := path[..|path| - 1];
      FrontClimbs(top, path);
      var w1 := ClimbHappens(top, w, front, sid, y, peer);
      w' := CanHandUp(top, w1, path[|path| - 2], path[|path| - 1], path[0].n, sid);
      ExtendsOn(top, w, w1, w');
    }
  }

  /** Some run lets `n` know the address from below. */
  ghost predicate CanKnow(top: Topology, w: World, n: Node, x: Item) {
    exists w' :: Reaches(top, w, w') && Knows(w', n, x)
  }

  /** Some run lets an upstream table of `n` hold the address. */
  ghost predicate CanHear(top: Topology, w: World, n: Node, x: Item) {
    exists w' :: Reaches(top, w, w') && Hears(w', n, x)
  }

  /** `n` and all servers that are linked are there. */
  ghost predicate IsComplete(top: Topology, w: World, n: Node) {
    n in w.states && forall c, k | top.up(c, k).Just? :: c in w.states && top.up(c, k).value in w.states
  }

  lemma HandsUpIsThere(top: Topology, w: World, a: Stop, b: Stop, n: Node)
    requires IsComplete(top, w, n) && (HandsUp(top, a, b) || HandsDown(top, b, a))
    ensures a.n in w.states && b.n in w.states
  {}

  lemma ClimbIsThere(top: Topology, w: World, path: seq<Stop>)
    requires IsClimb(top, path) && IsComplete(top, w, path[|path| - 1].n)
    ensures forall k | 0 <= k < |path| :: path[k].n in w.states
  {
    forall k | 0 <= k < |path| ensures path[k].n in w.states {
      if k < |path| - 1 {
        assert HandsUp(top, path[k], path[k + 1]);
        HandsUpIsThere(top, w, path[k], path[k + 1], path[|path| - 1].n);
      }
    }
  }

  lemma InitialIsOrderly(w: World, o: Node, sid: int)
    requires IsInitial(w)
    ensures Orderly(w, o, sid)
  {}

  /** A climb from the initial world. */
  lemma CanClimb(top: Topology, w: World, n: Node, x: Item) returns (w': World, o: Node, sid: int)
    requires IsInitial(w) && IsComplete(top, w, n) && Climbed(top, x, n)
    ensures Extends(top, w, w') && Orderly(w', o, sid) && Knows(w', n, x)
  {
    var path: seq<Stop> :| IsClimb(top, path) && path[|path| - 1] == Stop(n, x);
    o := path[0].n;
    var y: Item, s, peer :| y.origin == o && top.seen(o, s, peer) && path[0].x in VerifyOne(y, peer);
    sid := s;
    ClimbIsThere(top, w, path);
    InitialIsOrderly(w, o, sid);
    w' := ClimbHappens(top, w, path, sid, y, peer);
  }

  lemma ReachedHasRoutes(top: Topology, w: World, w': World)
    requires IsInitial(w) && Reaches(top, w, w')
    ensures Inv(top, w')
  {
    var worlds, steps :| IsRun(top, worlds, steps) && worlds[0] == w && worlds[|steps|] == w';
    RunHasRoutes(top, worlds, steps, |steps|);
  }

  lemma KnownIsClimbed(top: Topology, w: World, n: Node, x: Item)
    requires Inv(top, w) && Knows(w, n, x)
    ensures Climbed(top, x, n)
  {
    var s := w.states[n];
    assert TablesHaveRoutes(top, n, s);
    if ReadyHold(s.domains, x) {
      ReadyIsHeld(s.domains, x);
    } else {
      ReadyIsHeld(s.locals, x);
    }
    PeersClimbed(top, n, s, x);
  }

  /** An address can get into the local or downstream tables of `n` if and only
      if it is what some published address becomes on a way up to `n` that lets
      its level pass, rewritten and not erased on any link. */
  lemma KnownIffClimbed(top: Topology, w: World, n: Node, x: Item)
    requires IsInitial(w) && IsComplete(top, w, n)
    ensures CanKnow(top, w, n, x) <==> Climbed(top, x, n)
  {
    if CanKnow(top, w, n, x) {
      var w' :| Reaches(top, w, w') && Knows(w', n, x);
      ReachedHasRoutes(top, w, w');
      KnownIsClimbed(top, w', n, x);
    }
    if Climbed(top, x, n) {
      var w', o, sid := CanClimb(top, w, n, x);
    }
  }

  // ------------------------------------------------------------------
  // The way down.

  /** Once registered, a server subscribes and is sent the current table. */
  lemma CanFollow(top: Topology, w: World, n: Node, k: int, p: Node, sid: int, o: Node, s0: int) returns (w': World)
    requires n in w.states && p in w.states && IsLink(top, n, k, p, sid) && Orderly(w, o, s0)
    ensures Extends(top, w, w') && Orderly(w', o, s0) && Keeps(w, w')
    ensures Packet(p, ToDownstream({sid}, ForDownstream(top.setup(p), w'.states[p]))) in w'.sent
  {
    var w1 := CanRegister(top, w, n, k, p, sid, o, s0);
    var ev := SubscribeDownstream(sid);
    w' := OneEvent(top, w1, p, ev);
    StaysOrderly(top, w1, p, ev, o, s0);
    ExtendsOn(top, w, w1, w');
    var msgs := Handle(top.setup(p), w1.states[p], ev).1;
    assert msgs[0] in msgs;
    assert ForDownstream(top.setup(p), w'.states[p]) == ForDownstream(top.setup(p), w1.states[p]);
  }

  /** The name server at `n`, if it is there, goes away. */
  lemma CanWithdraw(top: Topology, w: World, n: Node, o: Node, s0: int) returns (w': World)
    requires n in w.states && Orderly(w, o, s0)
    ensures Extends(top, w, w') && Orderly(w', o, s0) && w'.states[n].locals == map[]
  {
    if s0 in w.states[n].locals {
      w' := OneEvent(top, w, n, Offline(s0));
      StaysOrderly(top, w, n, Offline(s0), o, s0);
    } else {
      ReachesItself(top, w);
      w' := w;
    }
    assert w'.states[n].locals.Keys == {};
  }

  /** What a server knows or hears of it hands down to a server that follows it,
      once no local service there can duplicate it. */
  lemma CanHandDown(top: Topology, w: World, a: Stop, b: Stop, o: Node, s0: int) returns (w': World)
    requires (Knows(w, a.n, a.x) || Hears(w, a.n, a.x)) && HandsDown(top, a, b) && b.n in w.states && Orderly(w, o, s0)
    ensures Extends(top, w, w') && Orderly(w', o, s0) && Hears(w', b.n, b.x)
  {
    var k, sid, peer :| IsLink(top, b.n, k, a.n, sid) && top.seenAbove(b.n, k, peer) && b.x == ValidateOne(a.x, peer);
    var w1 := CanFollow(top, w, b.n, k, a.n, sid, o, s0);
    var tbl := ForDownstream(top.setup(a.n), w1.states[a.n]);
    DownstreamHolds(top.setup(a.n), w1.states[a.n], a.x);
    SlimDown(top.setup(a.n), w1.states[a.n]);
    var w2 := CanWithdraw(top, w1, b.n, o, s0);
    ExtendsOn(top, w, w1, w2);
    assert sid in {sid} && Packet(a.n, ToDownstream({sid}, tbl)) in w2.sent;
    w' := HearsIt(top, w2, b.n, k, tbl, peer, a.x, o, s0);
    ExtendsOn(top, w, w2, w');
  }

  lemma HearsIt(top: Topology, w: World, n: Node, k: int, tbl: SvcTable, peer: Maybe<string>, x: Item, o: Node, s0: int)
    returns (w': World)
    requires n in w.states && w.states[n].locals == map[] && Orderly(w, o, s0) && Slim(tbl) && Holds(tbl, x)
    requires ArrivesFromAbove(top, w, n, k, tbl) && top.seenAbove(n, k, peer)
    ensures Extends(top, w, w') && Orderly(w', o, s0) && Hears(w', n, ValidateOne(x, peer))
  {
    w' := OneEvent(top, w, n, FromUpstream(k, tbl, peer));
    UpstreamArrives(top.setup(n), w.states[n], k, tbl, peer, x);
    OrderlyWith(w, n, w'.states[n], w'.sent, o, s0);
  }

  lemma {:induction false} DescentHappens(top: Topology, w: World, path: seq<Stop>, o: Node, s0: int) returns (w': World)
    requires IsDescent(top, path) && Orderly(w, o, s0) && Knows(w, path[0].n, path[0].x)
    requires forall k | 0 <= k < |path| :: path[k].n in w.states
    ensures Extends(top, w, w') && Orderly(w', o, s0)
    ensures var last := path[|path| - 1]; Knows(w', last.n, last.x) || Hears(w', last.n, last.x)
    decreases |path|
  {
    if |path| == 1 {
      ReachesItself(top, w);
      w' := w;
    } else {
      var front := path[..|path| - 1];
      assert IsDescent(top, front);
      var w1 := DescentHappens(top, w, front, o, s0);
      assert HandsDown(top, path[|path| - 2], path[|path| - 2 + 1]);
      w' := CanHandDown(top, w1, path[|path| - 2], path[|path| - 1], o, s0);
      ExtendsOn(top, w, w1, w');
    }
  }

  lemma DescentIsThere(top: Topology, w: World, path: seq<Stop>, n: Node)
    requires IsDescent(top, path) && IsComplete(top, w, n) && path[|path| - 1].n in w.states
    ensures forall k | 0 <= k < |path| :: path[k].n in w.states
  {
    forall k | 0 <= k < |path| ensures path[k].n in w.states {
      if k < |path| - 1 {
        assert HandsDown(top, path[k], path[k + 1]);
        HandsUpIsThere(top, w, path[k + 1], path[k], n);
      }
    }
  }

  lemma CanDescend(top: Topology, w: World, n: Node, x: Item)
    requires IsInitial(w) && IsComplete(top, w, n) && FromAbove(top, x, n)
    ensures CanHear(top, w, n, x)
  {
    var p, y :| Routed(top, y, p) && HandsDown(top, Stop(p, y), Stop(n, x));
    var path: seq<Stop> :| IsDescent(top, path) && Climbed(top, path[0].x, path[0].n) && path[|path| - 1] == Stop(p, y);
    HandsUpIsThere(top, w, Stop(n, x), Stop(p, y), n);
    DescentIsThere(top, w, path, n);
    var w1, o, sid := CanClimb(top, w, path[0].n, path[0].x);
    var w2 := DescentHappens(top, w1, path, o, sid);
    ExtendsOn(top, w, w1, w2);
    var w3 := CanHandDown(top, w2, Stop(p, y), Stop(n, x), o, sid);
    ExtendsOn(top, w, w2, w3);
  }

  /** An address can get into an upstream table of `n` if and only if it is what
      some published address becomes on a way up and then down to `n` that passes
      every minimum and maximum. */
  lemma HeardIffRouted(top: Topology, w: World, n: Node, x: Item)
    requires IsInitial(w) && IsComplete(top, w, n)
    ensures CanHear(top, w, n, x) <==> FromAbove(top, x, n)
  {
    if CanHear(top, w, n, x) {
      var w' :| Reaches(top, w, w') && Hears(w', n, x);
      ReachedHasRoutes(top, w, w');
      assert TablesHaveRoutes(top, n, w'.states[n]);
    }
    if FromAbove(top, x, n) {
      CanDescend(top, w, n, x);
    }
  }

  // ------------------------------------------------------------------
  // Which addresses survive.

  /** The other end of every downstream session is another host of known address. */
  ghost predicate RemoteBelow(top: Topology) {
    forall c, k, n, sid, peer | IsLink(top, c, k, n, sid) && top.seen(n, sid, peer) ::
      peer.Just? && peer.value !in {"", LOCAL_HOST, ALL_INTERFACES}
  }

  /** In every run, when servers below are on other hosts, their tables hold only
      addresses that can be reached from here: no IPC address, no local-host
      address and none for all interfaces. */
  lemma OnlyReachableFromBelow(top: Topology, worlds: seq<World>, steps: seq<Step>, i: nat, n: Node, x: Item)
    requires IsRun(top, worlds, steps) && IsInitial(worlds[0]) && i < |worlds| && RemoteBelow(top)
    requires n in worlds[i].states && PeersHold(worlds[i].states[n].domains, x)
    ensures !OnlyLocal(x) && x.addr.ip != ALL_INTERFACES
  {
    RunHasRoutes(top, worlds, steps, i);
    assert TablesHaveRoutes(top, n, worlds[i].states[n]);
    FromBelowIsReachable(top, x, n);
  }

  lemma FromBelowIsReachable(top: Topology, x: Item, n: Node)
    requires RemoteBelow(top) && FromBelow(top, x, n)
    ensures !OnlyLocal(x) && x.addr.ip != ALL_INTERFACES
  {
    var c, y :| Climbed(top, y, c) && HandsUp(top, Stop(c, y), Stop(n, x));
    var k, sid, peer :| IsLink(top, c, k, n, sid) && top.seen(n, sid, peer) && x in VerifyOne(y, peer);
    assert peer.value !in {"", LOCAL_HOST, ALL_INTERFACES};
  }
}
