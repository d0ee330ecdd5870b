/** Allocation of addresses for new services (server/CAddressAllocator.cpp and
    allocateAddress and findAddress of server/CNameServer.cpp).

    An allocator offers one address after the other; a user service takes the
    first offer that no registered service holds, within a number of tries. */
module AddressAllocator {
  import opened Maybes
  import opened Registry
  import KeyOrder

  const UINT32_SPAN := 0x1_0000_0000
  const PORT_AUTO := 0
  const INVALID_ID := -1
  const NODE_INTERNAL := 0
  const DOMAIN_LEVEL := 1
  const LOCAL_HOST := "127.0.0.1"
  const ALL_INTERFACES := "0"

  /** Paths and ports from the configuration, by service type and security. */
  datatype Config = Config(ipcPath: string, ipcUrl: string, knownPath: map<ServerType, string>, knownUrl: map<ServerType, string>,
                           knownPort: map<(ServerType, bool), int>)
  {
    predicate Complete() {
      && NameServerType in knownPath && HostServerType in knownPath
      && NameServerType in knownUrl && HostServerType in knownUrl
      && (NameServerType, false) in knownPort && (NameServerType, true) in knownPort
      && (HostServerType, false) in knownPort && (HostServerType, true) in knownPort
    }
  }

  /** The next socket number, or the next port of a range on one interface.
      With `auto` the system picks the port. */
  datatype Allocator =
    | IpcAllocator(socketId: nat)
    | TcpAllocator(ip: string, minPort: int, maxPort: int, port: int, auto: bool, level: int, interface_: int)
  {
    predicate Valid() {
      match this
      case IpcAllocator(id) => id < UINT32_SPAN
      case TcpAllocator(_, lo, hi, p, _, _, _) => p == lo || lo <= p <= hi
    }
  }

  datatype Allocated = Allocated(addr: SocketAddr, level: int, interface_: int)

  // ------------------------------------------------------------------
  // Numbers in URLs.

  function Digit(d: nat): char
    requires d < 10
  {
    "0123456789"[d]
  }

  function Decimal(n: nat): string {
    if n < 10 then [Digit(n)] else Decimal(n / 10) + [Digit(n % 10)]
  }

  lemma DigitInjective(a: nat, b: nat)
    requires a < 10 && b < 10 && Digit(a) == Digit(b)
    ensures a == b
  {}

  /** Different numbers are printed differently. */
  lemma {:induction false} DecimalInjective(m: nat, n: nat)
    requires Decimal(m) == Decimal(n)
    ensures m == n
  {
    var a, b := Decimal(m), Decimal(n);
    assert a[|a| - 1] == Digit(m % 10) && b[|b| - 1] == Digit(n % 10);
    DigitInjective(m % 10, n % 10);
    if m >= 10 && n >= 10 {
      assert a[..|a| - 1] == Decimal(m / 10) && b[..|b| - 1] == Decimal(n / 10);
      DecimalInjective(m / 10, n / 10);
    }
  }

  function TcpPrefix(ip: string, secure: bool): string {
    (if secure then "tcps://" else "tcp://") + ip + ":"
  }

  function TcpUrl(ip: string, port: int, secure: bool): string {
    TcpPrefix(ip, secure) + Decimal(port % UINT32_SPAN)
  }

  // ------------------------------------------------------------------
  // Offers.

  /** The address an allocator offers next. */
  function Offer(cfg: Config, a: Allocator, kind: ServerType, secure: bool): Allocated
    requires cfg.Complete()
  {
    match a
    case IpcAllocator(id) =>
      if kind.UserService?
      then Allocated(SocketAddr(Ipc, cfg.ipcPath + Decimal(id), 0, secure, cfg.ipcUrl + Decimal(id)), NODE_INTERNAL, INVALID_ID)
      else Allocated(SocketAddr(Ipc, cfg.knownPath[kind], 0, secure, cfg.knownUrl[kind]), NODE_INTERNAL, INVALID_ID)
    case TcpAllocator(ip, _, _, p, auto, level, ifc) =>
      var port := if !kind.UserService? then cfg.knownPort[(kind, secure)] else if auto then PORT_AUTO else p;
      Allocated(SocketAddr(Tcp, ip, port, secure, TcpUrl(ip, port, secure)), level, ifc)
  }

  /** The allocator after an offer: only user services use up numbers. */
  function Advance(a: Allocator, kind: ServerType): (a': Allocator)
    ensures a.Valid() ==> a'.Valid()
  {
    if !kind.UserService? then a
    else
      match a
      case IpcAllocator(id) => IpcAllocator((id + 1) % UINT32_SPAN)
      case TcpAllocator(_, lo, hi, p, auto, _, _) =>
        if auto then a else a.(port := if p + 1 > hi then lo else p + 1)
  }

  /** The allocator after `k` offers to user services. */
  function After(a: Allocator, k: nat): Allocator {
    if k == 0 then a else Advance(After(a, k - 1), UserService)
  }

  function Candidate(cfg: Config, a: Allocator, secure: bool, k: nat): Allocated
    requires cfg.Complete()
  {
    Offer(cfg, After(a, k), UserService, secure)
  }

  lemma {:induction false} AfterShift(a: Allocator, k: nat)
    ensures After(Advance(a, UserService), k) == After(a, k + 1)
  {
    if k > 0 {
      AfterShift(a, k - 1);
    }
  }

  lemma NextId(id: nat)
    requires id < UINT32_SPAN
    ensures (id + 1) % UINT32_SPAN == if id + 1 < UINT32_SPAN then id + 1 else 0
  {}

  lemma {:induction false} IpcAfter(a: Allocator, k: nat)
    requires a.IpcAllocator? && a.Valid() && k < UINT32_SPAN
    ensures After(a, k) == IpcAllocator(if a.socketId + k < UINT32_SPAN then a.socketId + k else a.socketId + k - UINT32_SPAN)
  {
    if k > 0 {
      IpcAfter(a, k - 1);
      NextId(After(a, k - 1).socketId);
    }
  }

  lemma {:induction false} TcpAfter(a: Allocator, k: nat)
    requires a.TcpAllocator? && a.Valid() && !a.auto && k <= a.maxPort - a.minPort
    ensures After(a, k) == a.(port := if a.port + k <= a.maxPort then a.port + k else a.port + k - (a.maxPort - a.minPort + 1))
  {
    if k > 0 {
      TcpAfter(a, k - 1);
    }
  }

  /** How many different offers an allocator can make in a row. */
  function Span(a: Allocator): int {
    match a
    case IpcAllocator(_) => UINT32_SPAN
    case TcpAllocator(_, lo, hi, _, _, _, _) => hi - lo + 1
  }

  predicate PortsFit(a: Allocator) {
    a.TcpAllocator? ==> !a.auto && 0 <= a.minPort && a.maxPort < UINT32_SPAN
  }

  /** Offers within the span of the allocator are all different. */
  lemma OffersDiffer(cfg: Config, a: Allocator, secure: bool, j: nat, k: nat)
    requires cfg.Complete() && a.Valid() && PortsFit(a) && j < k < Span(a)
    ensures Candidate(cfg, a, secure, j).addr.url != Candidate(cfg, a, secure, k).addr.url
  {
    if a.IpcAllocator? {
      IpcAfter(a, j);
      IpcAfter(a, k);
      SameTail(cfg.ipcUrl, After(a, j).socketId, After(a, k).socketId);
    } else {
      TcpAfter(a, j);
      TcpAfter(a, k);
      TcpUrlsDiffer(a.ip, After(a, j).port, After(a, k).port, secure);
    }
  }

  lemma TcpUrlsDiffer(ip: string, p: nat, q: nat, secure: bool)
    requires p < UINT32_SPAN && q < UINT32_SPAN && p != q
    ensures TcpUrl(ip, p, secure) != TcpUrl(ip, q, secure)
  {
    NumbersDiffer(TcpPrefix(ip, secure), p, q);
  }

  lemma NumbersDiffer(prefix: string, p: nat, q: nat)
    requires p < UINT32_SPAN && q < UINT32_SPAN && p != q
    ensures prefix + Decimal(p % UINT32_SPAN) != prefix + Decimal(q % UINT32_SPAN)
  {
    assert p % UINT32_SPAN == p && q % UINT32_SPAN == q;
    SameTail(prefix, p, q);
  }

  lemma SameTail(prefix: string, m: nat, n: nat)
    ensures prefix + Decimal(m) == prefix + Decimal(n) ==> m == n
  {
    if prefix + Decimal(m) == prefix + Decimal(n) {
      assert Decimal(m) == (prefix + Decimal(m))[|prefix|..] == Decimal(n);
      DecimalInjective(m, n);
    }
  }

  // ------------------------------------------------------------------
  // Allocation.

  /** Some registered service holds the URL on this transport. */
  ghost predicate Held(t: Table, transport: Transport, url: string) {
    exists n, i, d :: Has(t, n, i) && d in t[n][i].addrs && d.addr.transport == transport && d.addr.url == url
  }

  predicate IsAuto(a: Allocated) {
    a.addr.transport.Tcp? && a.addr.port == PORT_AUTO
  }

  ghost predicate Usable(t: Table, a: Allocated) {
    IsAuto(a) || !Held(t, a.addr.transport, a.addr.url)
  }

  function Tries(t: Table): nat {
    |t| + 7
  }

  /** The `k`-th offer is the first usable one. */
  ghost predicate FirstUsable(cfg: Config, t: Table, a: Allocator, secure: bool, k: nat)
    requires cfg.Complete()
  {
    Usable(t, Candidate(cfg, a, secure, k)) && NoneUsable(cfg, t, a, secure, k)
  }

  /** None of the first `n` offers is usable. */
  ghost predicate NoneUsable(cfg: Config, t: Table, a: Allocator, secure: bool, n: nat)
    requires cfg.Complete()
  {
    forall k: nat | k < n :: !Usable(t, Candidate(cfg, a, secure, k))
  }

  /** The result of an allocation: a user service gets the first usable one of
      the next offers, or nothing; others get their fixed address. */
  ghost predicate IsAllocation(cfg: Config, t: Table, a: Allocator, kind: ServerType, secure: bool, r: Maybe<Allocated>, a': Allocator)
    requires cfg.Complete()
  {
    if !kind.UserService? then r == Just(Offer(cfg, a, kind, secure)) && a' == a
    else if r.Nothing? then NoneUsable(cfg, t, a, secure, Tries(t)) && a' == After(a, Tries(t))
    else exists k: nat ::
        && k < Tries(t) && FirstUsable(cfg, t, a, secure, k) && r.value == Candidate(cfg, a, secure, k)
        && a' == After(a, k + 1)
  }

  /** A user service with an ordinary port gets a URL that nobody holds; it gets
      nothing if and only if none of the next offers is usable. */
  lemma AllocatedIsFree(cfg: Config, t: Table, a: Allocator, secure: bool, r: Maybe<Allocated>, a': Allocator)
    requires cfg.Complete() && IsAllocation(cfg, t, a, UserService, secure, r, a')
    ensures r.Just? && !IsAuto(r.value) ==> !Held(t, r.value.addr.transport, r.value.addr.url)
    ensures r.Nothing? <==> NoneUsable(cfg, t, a, secure, Tries(t))
  {}

  /** The URLs registered for a transport. */
  ghost function HeldUrls(t: Table, transport: Transport): set<string> {
    set n, i, d | n in t && i in t[n] && d in t[n][i].addrs && d.addr.transport == transport :: d.addr.url
  }

  /** The URLs of the first `n` offers. */
  ghost function Offered(cfg: Config, a: Allocator, secure: bool, n: nat): seq<string>
    requires cfg.Complete()
  {
    seq(n, k requires 0 <= k < n => Candidate(cfg, a, secure, k).addr.url)
  }

  /** A sequence without repetitions has as many elements as positions. */
  lemma {:induction false} SizeOfDistinct(s: seq<string>)
    requires forall j, k | 0 <= j < k < |s| :: s[j] != s[k]
    ensures |set x | x in s| == |s|
  {
    if s == [] {
      assert (set x | x in s) == {};
    } else {
      var front, last := s[..|s| - 1], s[|s| - 1];
      SizeOfDistinct(front);
      assert s == front + [last];
      assert (set x | x in s) == (set x | x in front) + {last};
      assert last !in front;
    }
  }

  function TransportOf(a: Allocator): Transport {
    if a.IpcAllocator? then Ipc else Tcp
  }

  /** Pigeonhole: with fewer registered URLs of the transport than tries, and an
      allocator that has that many different offers, allocation succeeds. */
  lemma EnoughOffers(cfg: Config, t: Table, a: Allocator, secure: bool, r: Maybe<Allocated>, a': Allocator)
    requires cfg.Complete() && a.Valid() && PortsFit(a)
    requires |HeldUrls(t, TransportOf(a))| < Tries(t) <= Span(a)
    requires IsAllocation(cfg, t, a, UserService, secure, r, a')
    ensures r.Just?
  {
    if NoneUsable(cfg, t, a, secure, Tries(t)) {
      var offered, held := Offered(cfg, a, secure, Tries(t)), HeldUrls(t, TransportOf(a));
      forall k: nat | k < Tries(t) ensures offered[k] in held {
        KeepsTransport(a, k);
        HeldIsListed(t, TransportOf(a), Candidate(cfg, a, secure, k));
      }
      forall j, k | 0 <= j < k < |offered| ensures offered[j] != offered[k] {
        OffersDiffer(cfg, a, secure, j, k);
      }
      SizeOfDistinct(offered);
      Fewer((set url | url in offered), held);
    }
  }

  lemma {:induction false} KeepsTransport(a: Allocator, k: nat)
    ensures TransportOf(After(a, k)) == TransportOf(a)
  {
    if k > 0 {
      KeepsTransport(a, k - 1);
    }
  }

  lemma HeldIsListed(t: Table, transport: Transport, offer: Allocated)
    requires !Usable(t, offer) && offer.addr.transport == transport
    ensures offer.addr.url in HeldUrls(t, transport)
  {
    var n, i, d :| Has(t, n, i) && d in t[n][i].addrs && d.addr.transport == transport && d.addr.url == offer.addr.url;
    assert n in t && i in t[n];
  }

  lemma {:induction false} Fewer(a: set<string>, b: set<string>)
    requires a <= b
    ensures |a| <= |b|
  {
    if a != {} {
      var x :| x in a;
      Fewer(a - {x}, b - {x});
    }
  }

  /** The tries follow the number of service names, not of addresses: a service
      whose eight addresses are the next eight offers leaves no usable try,
      although the ninth offer is free. */
  lemma MissesFreeAddress(cfg: Config, a: Allocator, desc: AddrDesc)
    requires cfg.Complete() && a.IpcAllocator? && a.Valid()
    ensures var addrs := seq(8, k requires 0 <= k < 8 => desc.(addr := Candidate(cfg, a, false, k).addr));
            var t: Table := map["svc" := map[0 := Entry("svc", 0, 0, UserService, 0, true, false, addrs)]];
            && NoneUsable(cfg, t, a, false, Tries(t))
            && Usable(t, Candidate(cfg, a, false, 8))
  {
    var addrs := seq(8, k requires 0 <= k < 8 => desc.(addr := Candidate(cfg, a, false, k).addr));
    var t: Table := map["svc" := map[0 := Entry("svc", 0, 0, UserService, 0, true, false, addrs)]];
    assert |t| == 1;
    forall k: nat | k < 8 ensures !Usable(t, Candidate(cfg, a, false, k)) {
      KeepsTransport(a, k);
      assert Has(t, "svc", 0) && addrs[k] in t["svc"][0].addrs;
    }
    NinthIsFree(cfg, a, desc, addrs, t);
  }

  lemma NinthIsFree(cfg: Config, a: Allocator, desc: AddrDesc, addrs: seq<AddrDesc>, t: Table)
    requires cfg.Complete() && a.IpcAllocator? && a.Valid()
    requires |addrs| == 8 && forall k: nat | k < 8 :: addrs[k] == desc.(addr := Candidate(cfg, a, false, k).addr)
    requires t == map["svc" := map[0 := Entry("svc", 0, 0, UserService, 0, true, false, addrs)]]
    ensures Usable(t, Candidate(cfg, a, false, 8))
  {
    forall n, i, d | Has(t, n, i) && d in t[n][i].addrs ensures d.addr.url != Candidate(cfg, a, false, 8).addr.url {
      var k :| 0 <= k < 8 && d == addrs[k];
      OffersDiffer(cfg, a, false, k, 8);
    }
  }

  // ------------------------------------------------------------------
  // In place.

  /** Looks through all entries for an address. */
  method FindAddress(t: Table, transport: Transport, url: string) returns (found: bool)
    ensures found <==> Held(t, transport, url)
  {
    var names := t.Keys;
    while names != {}
      invariant names <= t.Keys
      invariant forall n, i, d | Has(t, n, i) && n !in names && d in t[n][i].addrs ::
                  !(d.addr.transport == transport && d.addr.url == url)
      decreases |names|
    {
      var n :| n in names;
      var ids := t[n].Keys;
      while ids != {}
        invariant ids <= t[n].Keys
        invariant forall i, d | i in t[n] && i !in ids && d in t[n][i].addrs ::
                    !(d.addr.transport == transport && d.addr.url == url)
        decreases |ids|
      {
        var i := KeyOrder.Least(ids);
        found := InList(t[n][i].addrs, transport, url);
        if found {
          assert Has(t, n, i);
          return;
        }
        ids := ids - {i};
      }
      names := names - {n};
    }
    return false;
  }

  method InList(addrs: seq<AddrDesc>, transport: Transport, url: string) returns (found: bool)
    ensures found <==> exists d :: d in addrs && d.addr.transport == transport && d.addr.url == url
  {
    for n := 0 to |addrs|
      invariant forall d | d in addrs[..n] :: !(d.addr.transport == transport && d.addr.url == url)
    {
      if addrs[n].addr.transport == transport && addrs[n].addr.url == url {
        return true;
      }
      assert addrs[..n + 1] == addrs[..n] + [addrs[n]];
    }
    assert addrs[..|addrs|] == addrs;
    return false;
  }

  /** An allocator of either kind, with its counter. */
  class AddressSource {
    var state: Allocator

    constructor (a: Allocator)
      ensures state == a
    {
      state := a;
    }

    /** Hands out the next address and moves the counter on. */
    method Allocate(cfg: Config, kind: ServerType, secure: bool) returns (offer: Allocated)
      requires cfg.Complete()
      modifies this
      ensures offer == Offer(cfg, old(state), kind, secure) && state == Advance(old(state), kind)
    {
      match state
      case IpcAllocator(_) =>
        if kind.UserService? {
          var id := state.socketId;
          state := IpcAllocator((id + 1) % UINT32_SPAN);
          var number := Decimal(id);
          offer := Allocated(SocketAddr(Ipc, cfg.ipcPath + number, 0, secure, cfg.ipcUrl + number), NODE_INTERNAL, INVALID_ID);
        } else {
          offer := Allocated(SocketAddr(Ipc, cfg.knownPath[kind], 0, secure, cfg.knownUrl[kind]), NODE_INTERNAL, INVALID_ID);
        }
      case TcpAllocator(_, _, _, _, _, _, _) =>
        var port;
        if !kind.UserService? {
          port := cfg.knownPort[(kind, secure)];
        } else if state.auto {
          port := PORT_AUTO;
        } else {
          port := state.port;
          state := state.(port := port + 1);
          if state.port > state.maxPort {
            state := state.(port := state.minPort);
          }
        }
        var url := TcpUrl(state.ip, port, secure);
        offer := Allocated(SocketAddr(Tcp, state.ip, port, secure, url), state.level, state.interface_);
    }
  }

  /** Takes offers until one can be used or the tries are used up. */
  method AllocateAddress(cfg: Config, t: Table, source: AddressSource, kind: ServerType, secure: bool)
    returns (r: Maybe<Allocated>)
    requires cfg.Complete()
    modifies source
    ensures IsAllocation(cfg, t, old(source.state), kind, secure, r, source.state)
  {
    ghost var a := source.state;
    var retries := |t| + 8;
    ghost var k: nat := 0;
    while retries > 1
      invariant retries >= 1 && k == |t| + 8 - retries
      invariant kind.UserService? ==> source.state == After(a, k) && NoneUsable(cfg, t, a, secure, k)
      invariant !kind.UserService? ==> k == 0 && source.state == a
      decreases retries
    {
      retries := retries - 1;
      var offer := source.Allocate(cfg, kind, secure);
      assert kind.UserService? ==> offer == Candidate(cfg, a, secure, k) && source.state == After(a, k + 1);
      if IsAuto(offer) || !kind.UserService? {
        assert kind.UserService? ==> FirstUsable(cfg, t, a, secure, k);
        return Just(offer);
      }
      var held := FindAddress(t, offer.addr.transport, offer.addr.url);
      if !held {
        assert FirstUsable(cfg, t, a, secure, k);
        return Just(offer);
      }
      k := k + 1;
    }
    return Nothing;
  }
}
