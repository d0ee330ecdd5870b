/** What a name server tells others about registered services
    (server/CNameServer.cpp): address lists for clients, monitors, remote name
    servers and host servers. */
module Announce {
  import opened Maybes
  import opened EventCode
  import opened Registry
  import opened AddressAllocator

  const ANY_LEVEL := 0x7FFF_FFFF

  datatype Item = Item(addr: SocketAddr, level: int, interface_: int)

  datatype Audience = LocalClients | LocalMonitors | RemoteServers | RemoteMonitors | HostServers | Listener(sid: int) | Inquirer

  datatype Announcement = Announcement(audience: Audience, name: string, instance: Code, items: seq<Item>)

  // ------------------------------------------------------------------
  // Which addresses are told.

  predicate Exportable(d: AddrDesc, max: int) {
    && d.level <= max
    && (d.level == NODE_INTERNAL ==> max == ANY_LEVEL || max == NODE_INTERNAL)
  }

  function Select(addrs: seq<AddrDesc>, wanted: AddrDesc -> bool): seq<AddrDesc> {
    if addrs == [] then []
    else
      var last := addrs[|addrs| - 1];
      Select(addrs[..|addrs| - 1], wanted) + if wanted(last) then [last] else []
  }

  lemma {:induction false} InSelect(addrs: seq<AddrDesc>, wanted: AddrDesc -> bool, d: AddrDesc)
    ensures d in Select(addrs, wanted) <==> d in addrs && wanted(d)
  {
    if addrs != [] {
      var front, last := addrs[..|addrs| - 1], addrs[|addrs| - 1];
      InSelect(front, wanted, d);
      assert addrs == front + [last];
    }
  }

  lemma SelectOneMore(addrs: seq<AddrDesc>, n: nat, wanted: AddrDesc -> bool)
    requires n < |addrs|
    ensures Select(addrs[..n + 1], wanted) == Select(addrs[..n], wanted) + if wanted(addrs[n]) then [addrs[n]] else []
  {
    assert addrs[..n + 1][..n] == addrs[..n];
  }

  function ItemOf(d: AddrDesc): Item {
    Item(d.addr, d.level, d.interface_)
  }

  function Items(addrs: seq<AddrDesc>): seq<Item> {
    seq(|addrs|, k requires 0 <= k < |addrs| => ItemOf(addrs[k]))
  }

  /** The address under the local host. */
  function AtLocalHost(d: AddrDesc): AddrDesc {
    d.(addr := d.addr.(ip := LOCAL_HOST, url := TcpUrl(LOCAL_HOST, d.addr.port, d.addr.secure)))
  }

  function AllAtLocalHost(addrs: seq<AddrDesc>): seq<AddrDesc> {
    seq(|addrs|, k requires 0 <= k < |addrs| => AtLocalHost(addrs[k]))
  }

  predicate HasPending(addrs: seq<AddrDesc>) {
    exists k :: 0 <= k < |addrs| && addrs[k].status.Pending?
  }

  // The choices, one function each.

  function UpTo(max: int): AddrDesc -> bool {
    (d: AddrDesc) => Exportable(d, max)
  }

  function ForRemote(max: int): AddrDesc -> bool {
    (d: AddrDesc) => d.addr.transport.Tcp? && d.addr.ip != LOCAL_HOST && Exportable(d, max)
  }

  function IsIpc(): AddrDesc -> bool {
    (d: AddrDesc) => d.addr.transport.Ipc?
  }

  function OnHost(ip: string): AddrDesc -> bool {
    (d: AddrDesc) => d.addr.transport.Tcp? && d.addr.ip == ip
  }

  function BoundOf(transport: Maybe<Transport>, max: int): AddrDesc -> bool {
    (d: AddrDesc) => (transport.Nothing? || d.addr.transport == transport.value) && d.status.Bound? && Exportable(d, max)
  }

  function BoundForRemote(max: int): AddrDesc -> bool {
    (d: AddrDesc) => d.addr.transport.Tcp? && d.status.Bound? && d.addr.ip != LOCAL_HOST && Exportable(d, max)
  }

  function BoundFrom(min: int): AddrDesc -> bool {
    (d: AddrDesc) => d.level >= min && d.status.Bound?
  }

  /** For local clients: the last local socket, else the local-host addresses,
      else the all-interface addresses under the local host. */
  function ForLocal(addrs: seq<AddrDesc>): seq<AddrDesc> {
    var ipc := Select(addrs, IsIpc());
    if ipc != [] then Select([ipc[|ipc| - 1]], UpTo(NODE_INTERNAL))
    else if Select(addrs, OnHost(LOCAL_HOST)) != [] then Select(Select(addrs, OnHost(LOCAL_HOST)), UpTo(NODE_INTERNAL))
    else Select(AllAtLocalHost(Select(addrs, OnHost(ALL_INTERFACES))), UpTo(DOMAIN_LEVEL))
  }

  datatype Subscriber = LocalNormal | LocalMonitor | RemoteNormal | RemoteMonitor

  /** For one new subscriber whose session uses `transport`. */
  function ForSubscriber(addrs: seq<AddrDesc>, isNameServer: bool, who: Subscriber, transport: Transport, maxDomain: int): seq<AddrDesc> {
    if (who.RemoteNormal? && isNameServer) || HasPending(addrs) then []
    else if who.LocalMonitor? || who.RemoteMonitor? then Select(addrs, BoundOf(Nothing, ANY_LEVEL))
    else
      var list := Select(addrs, BoundOf(Just(transport), if who.LocalNormal? then NODE_INTERNAL else maxDomain));
      if transport.Ipc? && list == [] then Select(addrs, BoundOf(Just(Tcp), maxDomain)) else list
  }

  // ------------------------------------------------------------------
  // Every announced address is bound.

  /** Every address of every service is pending or bound. */
  ghost predicate Settled(t: Table) {
    forall n, i, k | Has(t, n, i) && 0 <= k < |t[n][i].addrs| :: !t[n][i].addrs[k].status.Free?
  }

  predicate AllSettled(addrs: seq<AddrDesc>) {
    forall k | 0 <= k < |addrs| :: !addrs[k].status.Free?
  }

  /** The item is a bound address of the list, or such an address under the local host. */
  ghost predicate Backs(addrs: seq<AddrDesc>, item: Item) {
    exists d :: d in addrs && d.status.Bound? && (item == ItemOf(d) || item == ItemOf(AtLocalHost(d)))
  }

  /** Every announced address belongs to that service and is bound. */
  ghost predicate Backed(t: Table, a: Announcement) {
    a.items == [] || (Has(t, a.name, a.instance) && BackedBy(t[a.name][a.instance].addrs, a.items))
  }

  ghost predicate BackedBy(addrs: seq<AddrDesc>, items: seq<Item>) {
    forall k | 0 <= k < |items| :: Backs(addrs, items[k])
  }

  lemma SelectedIsBacked(addrs: seq<AddrDesc>, wanted: AddrDesc -> bool)
    requires forall d | d in addrs && wanted(d) :: d.status.Bound?
    ensures BackedBy(addrs, Items(Select(addrs, wanted)))
  {
    var list := Select(addrs, wanted);
    forall k | 0 <= k < |list| ensures Backs(addrs, Items(list)[k]) {
      InSelect(addrs, wanted, list[k]);
    }
  }

  /** Without free or pending addresses all are bound. */
  lemma SettledIsBound(addrs: seq<AddrDesc>)
    requires AllSettled(addrs) && !HasPending(addrs)
    ensures forall d | d in addrs :: d.status.Bound?
  {}

  lemma LocalIsBacked(addrs: seq<AddrDesc>)
    requires AllSettled(addrs) && !HasPending(addrs)
    ensures BackedBy(addrs, Items(ForLocal(addrs)))
  {
    SettledIsBound(addrs);
    var list := ForLocal(addrs);
    forall k | 0 <= k < |list| ensures Backs(addrs, Items(list)[k]) {
      var d := LocalOrigin(addrs, list[k]);
    }
  }

  /** Where an address for local clients comes from. */
  lemma LocalOrigin(addrs: seq<AddrDesc>, x: AddrDesc) returns (d: AddrDesc)
    requires x in ForLocal(addrs)
    ensures d in addrs && (x == d || x == AtLocalHost(d))
  {
    var ipc := Select(addrs, IsIpc());
    var onHost := Select(addrs, OnHost(LOCAL_HOST));
    if ipc != [] {
      InSelect([ipc[|ipc| - 1]], UpTo(NODE_INTERNAL), x);
      InSelect(addrs, IsIpc(), x);
      d := x;
    } else if onHost != [] {
      InSelect(onHost, UpTo(NODE_INTERNAL), x);
      InSelect(addrs, OnHost(LOCAL_HOST), x);
      d := x;
    } else {
      var all := Select(addrs, OnHost(ALL_INTERFACES));
      InSelect(AllAtLocalHost(all), UpTo(DOMAIN_LEVEL), x);
      var k :| 0 <= k < |all| && x == AtLocalHost(all[k]);
      d := all[k];
      InSelect(addrs, OnHost(ALL_INTERFACES), d);
    }
  }

  lemma SubscriberIsBacked(addrs: seq<AddrDesc>, isNameServer: bool, who: Subscriber, transport: Transport, maxDomain: int)
    ensures BackedBy(addrs, Items(ForSubscriber(addrs, isNameServer, who, transport, maxDomain)))
  {
    SelectedIsBacked(addrs, BoundOf(Nothing, ANY_LEVEL));
    SelectedIsBacked(addrs, BoundOf(Just(Tcp), maxDomain));
    SelectedIsBacked(addrs, BoundOf(Just(transport), if who.LocalNormal? then NODE_INTERNAL else maxDomain));
  }
}
