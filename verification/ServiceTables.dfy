/** Tables of exported services and how host servers filter, rewrite and store
    them (server/CSvcAddrUtils.cpp).

    `origin` is the host server whose name server published an address.  It is
    a label for stating where addresses come from; no operation looks at it. */
module ServiceTables {
  import opened Maybes
  import opened EventCode
  import opened Registry
  import opened AddressAllocator

  type Node = int

  datatype Item = Item(addr: SocketAddr, level: int, interface_: int, origin: Node)

  datatype Svc = Svc(name: string, instance: Code, domain: string, addrs: seq<Item>)

  type SvcTable = seq<Svc>

  // ------------------------------------------------------------------
  // Export filters.

  /** An exportable level: negative asks for at least, positive for at most,
      and zero lets nothing pass. */
  predicate Passes(level: int, exportable: int) {
    if exportable < 0 then level >= -exportable
    else exportable > 0 && level <= exportable
  }

  function Filter(addrs: seq<Item>, exportable: int): seq<Item> {
    if addrs == [] then []
    else
      var last := addrs[|addrs| - 1];
      Filter(addrs[..|addrs| - 1], exportable) + if Passes(last.level, exportable) then [last] else []
  }

  /** The services with addresses that pass, and only those addresses. */
  function Export(tbl: SvcTable, exportable: int): SvcTable {
    if tbl == [] then []
    else
      var last := tbl[|tbl| - 1];
      var addrs := Filter(last.addrs, exportable);
      Export(tbl[..|tbl| - 1], exportable) + if addrs != [] then [last.(addrs := addrs)] else []
  }

  lemma {:induction false} FilterConcat(a: seq<Item>, b: seq<Item>, e: int)
    ensures Filter(a + b, e) == Filter(a, e) + Filter(b, e)
    decreases |b|
  {
    if b == [] {
      assert a + b == a;
    } else {
      FilterConcat(a, b[..|b| - 1], e);
      assert (a + b)[..|a + b| - 1] == a + b[..|b| - 1];
    }
  }

  lemma {:induction false} InFilter(addrs: seq<Item>, e: int, x: Item)
    ensures x in Filter(addrs, e) <==> x in addrs && Passes(x.level, e)
  {
    if addrs != [] {
      var front, last := addrs[..|addrs| - 1], addrs[|addrs| - 1];
      InFilter(front, e, x);
      assert addrs == front + [last];
    }
  }

  /** `c` lets exactly those levels pass that both `a` and `b` let pass. */
  ghost predicate Both(a: int, b: int, c: int) {
    forall level :: Passes(level, c) <==> Passes(level, a) && Passes(level, b)
  }

  lemma {:induction false} FilterTwice(addrs: seq<Item>, a: int, b: int, c: int)
    requires Both(a, b, c)
    ensures Filter(Filter(addrs, a), b) == Filter(addrs, c)
  {
    if addrs != [] {
      var front, last := addrs[..|addrs| - 1], addrs[|addrs| - 1];
      FilterTwice(front, a, b, c);
      FilterConcat(Filter(front, a), if Passes(last.level, a) then [last] else [], b);
      assert Passes(last.level, c) <==> Passes(last.level, a) && Passes(last.level, b);
    }
  }

  lemma {:induction false} ExportConcat(a: SvcTable, b: SvcTable, e: int)
    ensures Export(a + b, e) == Export(a, e) + Export(b, e)
    decreases |b|
  {
    if b == [] {
      assert a + b == a;
    } else {
      ExportConcat(a, b[..|b| - 1], e);
      assert (a + b)[..|a + b| - 1] == a + b[..|b| - 1];
    }
  }

  /** Filtering on two servers in a row is filtering once by both conditions. */
  lemma {:induction false} ExportTwice(tbl: SvcTable, a: int, b: int, c: int)
    requires Both(a, b, c)
    ensures Export(Export(tbl, a), b) == Export(tbl, c)
  {
    if tbl != [] {
      var front, last := tbl[..|tbl| - 1], tbl[|tbl| - 1];
      ExportTwice(front, a, b, c);
      FilterTwice(last.addrs, a, b, c);
      var kept := Filter(last.addrs, a);
      ExportConcat(Export(front, a), if kept != [] then [last.(addrs := kept)] else [], b);
      assert kept == [] ==> Filter(kept, b) == [];
    }
  }

  /** On the way up, where levels are negated minimums, the largest minimum counts. */
  lemma HopsUp(tbl: SvcTable, a: int, b: int)
    requires a < 0 && b < 0
    ensures Export(Export(tbl, a), b) == Export(tbl, if a < b then a else b)
  {
    ExportTwice(tbl, a, b, if a < b then a else b);
  }

  /** On the way down the smallest maximum counts. */
  lemma HopsDown(tbl: SvcTable, a: int, b: int)
    requires a > 0 && b > 0
    ensures Export(Export(tbl, a), b) == Export(tbl, if a < b then a else b)
  {
    ExportTwice(tbl, a, b, if a < b then a else b);
  }

  /** What a server with a minimum upstream level forwards upward. */
  predicate GoesUp(level: int, min: int) {
    Passes(level, -min)
  }

  /** What a server with a maximum domain level tells name servers and servers below. */
  predicate GoesDown(level: int, max: int) {
    Passes(level, max)
  }

  /** The upward filter is the minimum exactly when that is not zero. */
  lemma MinimumHoldsIff(min: int)
    requires min >= 0
    ensures (forall level :: GoesUp(level, min) <==> level >= min) <==> min > 0
    ensures forall level :: GoesUp(level, min) ==> level >= min
  {
    if min == 0 {
      assert !GoesUp(0, 0);
    }
  }

  /** The downward filter is the maximum exactly when that is not zero. */
  lemma MaximumHoldsIff(max: int)
    requires max >= 0
    ensures (forall level :: GoesDown(level, max) <==> level <= max) <==> max > 0
    ensures forall level :: GoesDown(level, max) ==> level <= max
  {
    if max == 0 {
      assert !GoesDown(0, 0);
    }
  }

  /** A level of zero lets nothing pass, not even addresses of level zero or above. */
  lemma {:induction false} ZeroLetsNothingPass(tbl: SvcTable)
    ensures Export(tbl, 0) == []
  {
    if tbl != [] {
      ZeroLetsNothingPass(tbl[..|tbl| - 1]);
      FilterZero(tbl[|tbl| - 1].addrs);
    }
  }

  lemma {:induction false} FilterZero(addrs: seq<Item>)
    ensures Filter(addrs, 0) == []
  {
    if addrs != [] {
      FilterZero(addrs[..|addrs| - 1]);
    }
  }

  // ------------------------------------------------------------------
  // Which addresses a table holds.

  ghost predicate Holds(tbl: SvcTable, x: Item) {
    exists k :: 0 <= k < |tbl| && x in tbl[k].addrs
  }

  lemma HoldsConcat(a: SvcTable, b: SvcTable, x: Item)
    ensures Holds(a + b, x) <==> Holds(a, x) || Holds(b, x)
  {
    if Holds(a, x) {
      var k :| 0 <= k < |a| && x in a[k].addrs;
      assert (a + b)[k] == a[k];
    }
    if Holds(b, x) {
      var k :| 0 <= k < |b| && x in b[k].addrs;
      assert (a + b)[|a| + k] == b[k];
    }
  }

  /** An exported table holds exactly the addresses that pass. */
  lemma {:induction false} InExport(tbl: SvcTable, e: int, x: Item)
    ensures Holds(Export(tbl, e), x) <==> Holds(tbl, x) && Passes(x.level, e)
  {
    if tbl != [] {
      var front, last := tbl[..|tbl| - 1], tbl[|tbl| - 1];
      var kept := Filter(last.addrs, e);
      var more := if kept != [] then [last.(addrs := kept)] else [];
      InExport(front, e, x);
      InFilter(last.addrs, e, x);
      assert tbl == front + [last];
      HoldsConcat(front, [last], x);
      HoldsConcat(Export(front, e), more, x);
      HoldsOne(last, x);
      if kept != [] {
        HoldsOne(last.(addrs := kept), x);
      }
    }
  }

  lemma HoldsOne(s: Svc, x: Item)
    ensures Holds([s], x) <==> x in s.addrs
  {
    assert x in s.addrs ==> x in [s][0].addrs;
  }

  // ------------------------------------------------------------------
  // Rewriting addresses on arrival.

  /** The same published address, possibly with another IP. */
  predicate SameSource(x: Item, y: Item) {
    x.level == y.level && x.origin == y.origin
  }

  predicate OnlyLocal(x: Item) {
    x.addr.transport.Ipc? || x.addr.ip == LOCAL_HOST
  }

  function MovedTo(x: Item, ip: string): Item {
    x.(addr := x.addr.(ip := ip, url := TcpUrl(ip, x.addr.port, x.addr.secure)))
  }

  /** Local addresses are dropped and all-interface addresses get the peer's IP. */
  function VerifyItem(x: Item, peer: string): seq<Item> {
    if OnlyLocal(x) then []
    else if x.addr.ip == ALL_INTERFACES && peer != "" then [MovedTo(x, peer)]
    else [x]
  }

  function VerifyItems(addrs: seq<Item>, peer: string): seq<Item> {
    if addrs == [] then []
    else VerifyItems(addrs[..|addrs| - 1], peer) + VerifyItem(addrs[|addrs| - 1], peer)
  }

  /** Addresses of a table that arrives from below; without a session, or from
      this host, they stay as they are. */
  function Verify(tbl: SvcTable, peer: Maybe<string>): SvcTable {
    seq(|tbl|, k requires 0 <= k < |tbl| =>
      if peer.Nothing? || peer.value == LOCAL_HOST then tbl[k] else tbl[k].(addrs := VerifyItems(tbl[k].addrs, peer.value)))
  }

  function Best(addrs: seq<Item>, peer: string): seq<Item> {
    if addrs == [] then []
    else
      var last := addrs[|addrs| - 1];
      Best(addrs[..|addrs| - 1], peer) + if !OnlyLocal(last) && last.addr.ip == peer then [last] else []
  }

  function AllInterface(addrs: seq<Item>, peer: string): seq<Item> {
    if addrs == [] then []
    else
      var last := addrs[|addrs| - 1];
      AllInterface(addrs[..|addrs| - 1], peer)
      + if !OnlyLocal(last) && last.addr.ip != peer && last.addr.ip == ALL_INTERFACES && peer != "" then [MovedTo(last, peer)] else []
  }

  function Fallback(addrs: seq<Item>, peer: string): seq<Item> {
    if addrs == [] then []
    else
      var last := addrs[|addrs| - 1];
      Fallback(addrs[..|addrs| - 1], peer)
      + if !OnlyLocal(last) && last.addr.ip != peer && !(last.addr.ip == ALL_INTERFACES && peer != "") then [last] else []
  }

  /** Addresses of a service that arrives from above: those on the peer's IP,
      else all-interface ones with that IP, else the others, else unchanged. */
  function ValidateItems(addrs: seq<Item>, peer: string): seq<Item> {
    if Best(addrs, peer) != [] then Best(addrs, peer)
    else if AllInterface(addrs, peer) != [] then AllInterface(addrs, peer)
    else if Fallback(addrs, peer) != [] then Fallback(addrs, peer)
    else addrs
  }

  function Validate(tbl: SvcTable, peer: Maybe<string>): SvcTable {
    seq(|tbl|, k requires 0 <= k < |tbl| =>
      if peer.Nothing? then tbl[k] else tbl[k].(addrs := ValidateItems(tbl[k].addrs, peer.value)))
  }

  /** What an address becomes on arrival from below, if it is kept. */
  function VerifyOne(x: Item, peer: Maybe<string>): seq<Item> {
    if peer.Nothing? || peer.value == LOCAL_HOST then [x] else VerifyItem(x, peer.value)
  }

  /** What an address becomes on arrival from above, if it is kept. */
  function ValidateOne(x: Item, peer: Maybe<string>): Item {
    if peer.Just? && Rank(x, peer.value) == 2 then MovedTo(x, peer.value) else x
  }

  /** How an address of a service from above is rated: on the peer's IP, on all
      interfaces, elsewhere, or only on the host it comes from. */
  function Rank(x: Item, peer: string): int {
    if OnlyLocal(x) then 0
    else if x.addr.ip == peer then 3
    else if x.addr.ip == ALL_INTERFACES && peer != "" then 2
    else 1
  }

  lemma {:induction false} InVerifyItems(addrs: seq<Item>, peer: string, y: Item)
    ensures y in VerifyItems(addrs, peer) <==> exists x :: x in addrs && y in VerifyItem(x, peer)
  {
    if addrs != [] {
      var front, last := addrs[..|addrs| - 1], addrs[|addrs| - 1];
      InVerifyItems(front, peer, y);
      assert addrs == front + [last];
      if x :| x in addrs && y in VerifyItem(x, peer) {
        assert x in front || x == last;
      }
    }
  }

  /** A table from below holds exactly what its addresses become. */
  lemma InVerify(tbl: SvcTable, peer: Maybe<string>, y: Item)
    ensures Holds(Verify(tbl, peer), y) <==> exists x :: Holds(tbl, x) && y in VerifyOne(x, peer)
  {
    var remote := peer.Just? && peer.value != LOCAL_HOST;
    if Holds(Verify(tbl, peer), y) {
      var k :| 0 <= k < |tbl| && y in Verify(tbl, peer)[k].addrs;
      if remote {
        InVerifyItems(tbl[k].addrs, peer.value, y);
        var x :| x in tbl[k].addrs && y in VerifyItem(x, peer.value);
        assert Holds(tbl, x) && y in VerifyOne(x, peer);
      } else {
        assert Holds(tbl, y) && y in VerifyOne(y, peer);
      }
    }
    if x :| Holds(tbl, x) && y in VerifyOne(x, peer) {
      var k :| 0 <= k < |tbl| && x in tbl[k].addrs;
      if remote {
        InVerifyItems(tbl[k].addrs, peer.value, y);
      }
      assert y in Verify(tbl, peer)[k].addrs;
    }
  }

  lemma {:induction false} InChoices(addrs: seq<Item>, peer: string, y: Item)
    ensures y in Best(addrs, peer) <==> y in addrs && Rank(y, peer) == 3
    ensures y in AllInterface(addrs, peer) <==> exists x :: x in addrs && Rank(x, peer) == 2 && y == MovedTo(x, peer)
    ensures y in Fallback(addrs, peer) <==> y in addrs && Rank(y, peer) == 1
  {
    if addrs != [] {
      var front, last := addrs[..|addrs| - 1], addrs[|addrs| - 1];
      InChoices(front, peer, y);
      assert addrs == front + [last];
      if x :| x in addrs && Rank(x, peer) == 2 && y == MovedTo(x, peer) {
        assert x in front || x == last;
      }
    }
  }

  /** No address of the service is rated higher. */
  ghost predicate IsTop(addrs: seq<Item>, x: Item, peer: string) {
    x in addrs && forall z | z in addrs :: Rank(z, peer) <= Rank(x, peer)
  }

  lemma ChoicesAreThere(addrs: seq<Item>, peer: string)
    ensures Best(addrs, peer) != [] <==> exists x :: x in addrs && Rank(x, peer) == 3
    ensures AllInterface(addrs, peer) != [] <==> exists x :: x in addrs && Rank(x, peer) == 2
    ensures Fallback(addrs, peer) != [] <==> exists x :: x in addrs && Rank(x, peer) == 1
  {
    if Best(addrs, peer) != [] {
      InChoices(addrs, peer, Best(addrs, peer)[0]);
    }
    if AllInterface(addrs, peer) != [] {
      InChoices(addrs, peer, AllInterface(addrs, peer)[0]);
    }
    if Fallback(addrs, peer) != [] {
      InChoices(addrs, peer, Fallback(addrs, peer)[0]);
    }
    forall x | x in addrs
      ensures Rank(x, peer) == 3 ==> x in Best(addrs, peer)
      ensures Rank(x, peer) == 2 ==> MovedTo(x, peer) in AllInterface(addrs, peer)
      ensures Rank(x, peer) == 1 ==> x in Fallback(addrs, peer)
    {
      InChoices(addrs, peer, x);
      InChoices(addrs, peer, MovedTo(x, peer));
    }
  }

  /** Of a service from above exactly the addresses of the highest rating are kept. */
  lemma HighestRankSurvives(addrs: seq<Item>, peer: string, y: Item)
    ensures y in ValidateItems(addrs, peer) <==> exists x :: IsTop(addrs, x, peer) && y == ValidateOne(x, Just(peer))
  {
    ChoicesAreThere(addrs, peer);
    InChoices(addrs, peer, y);
    if y in ValidateItems(addrs, peer) {
      if Best(addrs, peer) == [] && AllInterface(addrs, peer) != [] {
        var x :| x in addrs && Rank(x, peer) == 2 && y == MovedTo(x, peer);
        assert IsTop(addrs, x, peer);
      } else {
        assert IsTop(addrs, y, peer);
      }
    }
  }

  lemma InValidate(tbl: SvcTable, peer: Maybe<string>, y: Item)
    requires Holds(Validate(tbl, peer), y)
    ensures exists x :: Holds(tbl, x) && y == ValidateOne(x, peer)
  {
    var k :| 0 <= k < |tbl| && y in Validate(tbl, peer)[k].addrs;
    if peer.Just? {
      HighestRankSurvives(tbl[k].addrs, peer.value, y);
      var x :| IsTop(tbl[k].addrs, x, peer.value) && y == ValidateOne(x, peer);
      assert Holds(tbl, x);
    } else {
      assert Holds(tbl, y) && y == ValidateOne(y, peer);
    }
  }

  /** Some address is only good on its own host. */
  ghost predicate AnyLocal(addrs: seq<Item>) {
    exists y :: y in addrs && OnlyLocal(y)
  }

  ghost predicate AnyRank(addrs: seq<Item>, peer: string, rank: int) {
    exists x :: x in addrs && Rank(x, peer) == rank
  }

  /** Addresses that are only good on their own host get through from above
      exactly when the service has no others, or when the peer is this host and
      an address for all interfaces is rewritten to it. */
  lemma LocalKeptIff(addrs: seq<Item>, peer: string)
    ensures AnyLocal(ValidateItems(addrs, peer)) <==>
              (addrs != [] && forall x | x in addrs :: OnlyLocal(x)) || (peer == LOCAL_HOST && AnyRank(addrs, peer, 2))
  {
    if AnyLocal(ValidateItems(addrs, peer)) {
      var y :| y in ValidateItems(addrs, peer) && OnlyLocal(y);
      HighestRankSurvives(addrs, peer, y);
      var x :| IsTop(addrs, x, peer) && y == ValidateOne(x, Just(peer));
      assert Rank(x, peer) == 0 || (peer == LOCAL_HOST && Rank(x, peer) == 2);
    }
    if addrs != [] && forall x | x in addrs :: OnlyLocal(x) {
      assert IsTop(addrs, addrs[0], peer);
      HighestRankSurvives(addrs, peer, addrs[0]);
    } else if peer == LOCAL_HOST && AnyRank(addrs, peer, 2) {
      var x :| x in addrs && Rank(x, peer) == 2;
      assert IsTop(addrs, x, peer);
      HighestRankSurvives(addrs, peer, MovedTo(x, peer));
    }
  }

  /** An instance: the local-host address of a service without others. */
  lemma LocalHostIsPassedDown(x: Item)
    requires x.addr.ip == LOCAL_HOST
    ensures ValidateItems([x], "10.0.0.1") == [x]
  {
    InChoices([x], "10.0.0.1", x);
    ChoicesAreThere([x], "10.0.0.1");
  }

  /** Level and origin stay. */
  lemma RewritingKeepsSource(x: Item, peer: Maybe<string>)
    ensures forall y | y in VerifyOne(x, peer) :: SameSource(x, y)
    ensures SameSource(x, ValidateOne(x, peer))
  {}

  // ------------------------------------------------------------------
  // Storing a received table.

  const NO_SERVICE := Svc("", 0, "", [])

  /** A service without addresses leaves an empty entry. */
  function Stored(tbl: SvcTable): SvcTable {
    seq(|tbl|, k requires 0 <= k < |tbl| => if tbl[k].addrs == [] then NO_SERVICE else tbl[k])
  }

  lemma StoredHolds(tbl: SvcTable, x: Item)
    ensures Holds(Stored(tbl), x) <==> Holds(tbl, x)
  {
    if Holds(tbl, x) {
      var k :| 0 <= k < |tbl| && x in tbl[k].addrs;
      assert x in Stored(tbl)[k].addrs;
    }
    if Holds(Stored(tbl), x) {
      var k :| 0 <= k < |tbl| && x in Stored(tbl)[k].addrs;
      assert x in tbl[k].addrs;
    }
  }

  function InDomain(tbl: SvcTable, domain: string): SvcTable {
    seq(|tbl|, k requires 0 <= k < |tbl| => tbl[k].(domain := domain))
  }

  lemma InDomainHolds(tbl: SvcTable, domain: string, x: Item)
    ensures Holds(InDomain(tbl, domain), x) <==> Holds(tbl, x)
  {
    if Holds(tbl, x) {
      var k :| 0 <= k < |tbl| && x in tbl[k].addrs;
      assert x in InDomain(tbl, domain)[k].addrs;
    }
    if Holds(InDomain(tbl, domain), x) {
      var k :| 0 <= k < |tbl| && x in InDomain(tbl, domain)[k].addrs;
      assert x in tbl[k].addrs;
    }
  }

  // ------------------------------------------------------------------
  // Duplicates of local services.

  /** Two addresses of the same socket; `ips` are the addresses of this host. */
  predicate SameSocket(x: Item, local: Item, ips: set<string>) {
    if local.addr.ip == ALL_INTERFACES then x.addr.ip in ips && x.addr.port == local.addr.port
    else x.addr.url == local.addr.url
  }

  predicate SameService(s: Svc, local: Svc, ips: set<string>) {
    s.name == local.name && exists j, k :: 0 <= j < |s.addrs| && 0 <= k < |local.addrs| && SameSocket(s.addrs[j], local.addrs[k], ips)
  }

  predicate IsDuplicate(s: Svc, local: SvcTable, ips: set<string>) {
    exists k :: 0 <= k < |local| && SameService(s, local[k], ips)
  }

  /** Drops the services that are local ones seen from outside. */
  function WithoutDuplicates(tbl: SvcTable, local: SvcTable, ips: set<string>): SvcTable {
    if tbl == [] then []
    else
      var last := tbl[|tbl| - 1];
      WithoutDuplicates(tbl[..|tbl| - 1], local, ips) + if IsDuplicate(last, local, ips) then [] else [last]
  }

  lemma {:induction false} InWithoutDuplicates(tbl: SvcTable, local: SvcTable, ips: set<string>, s: Svc)
    ensures s in WithoutDuplicates(tbl, local, ips) <==> s in tbl && !IsDuplicate(s, local, ips)
  {
    if tbl != [] {
      var front, last := tbl[..|tbl| - 1], tbl[|tbl| - 1];
      InWithoutDuplicates(front, local, ips, s);
      assert tbl == front + [last];
    }
  }

  // ------------------------------------------------------------------
  // In place.

  /** Appends what passes, one service after the other. */
  method PopulateFromHostInfo(tbl: SvcTable, into: SvcTable, exportable: int) returns (out: SvcTable)
    ensures out == into + Export(tbl, exportable)
  {
    out := into;
    for n := 0 to |tbl|
      invariant out == into + Export(tbl[..n], exportable)
    {
      assert tbl[..n + 1][..n] == tbl[..n];
      var addrs := tbl[n].addrs;
      var kept := [];
      for k := 0 to |addrs|
        invariant kept == Filter(addrs[..k], exportable)
      {
        assert addrs[..k + 1][..k] == addrs[..k];
        if Passes(addrs[k].level, exportable) {
          kept := kept + [addrs[k]];
        }
      }
      assert addrs[..|addrs|] == addrs;
      if kept != [] {
        out := out + [tbl[n].(addrs := kept)];
      }
    }
    assert tbl[..|tbl|] == tbl;
  }

  /** The table as it is kept, built entry by entry. */
  method PopulateToHostInfo(tbl: SvcTable) returns (out: SvcTable)
    ensures out == Stored(tbl)
  {
    out := [];
    for n := 0 to |tbl|
      invariant |out| == n && forall k | 0 <= k < n :: out[k] == Stored(tbl)[k]
    {
      out := out + [if tbl[n].addrs == [] then NO_SERVICE else tbl[n]];
    }
  }

  /** Walks over the addresses, dropping and rewriting. */
  method VerifyAddresses(addrs: seq<Item>, peer: string) returns (out: seq<Item>)
    ensures out == VerifyItems(addrs, peer)
  {
    out := [];
    for n := 0 to |addrs|
      invariant out == VerifyItems(addrs[..n], peer)
    {
      assert addrs[..n + 1][..n] == addrs[..n];
      var x := addrs[n];
      if !(x.addr.transport.Ipc? || x.addr.ip == LOCAL_HOST) {
        if x.addr.ip == ALL_INTERFACES && peer != "" {
          x := x.(addr := x.addr.(ip := peer, url := TcpUrl(peer, x.addr.port, x.addr.secure)));
        }
        out := out + [x];
      }
    }
    assert addrs[..|addrs|] == addrs;
  }

  method VerifyUrl(tbl: SvcTable, peer: Maybe<string>) returns (out: SvcTable)
    ensures out == Verify(tbl, peer)
  {
    out := [];
    for n := 0 to |tbl|
      invariant |out| == n && forall k | 0 <= k < n :: out[k] == Verify(tbl, peer)[k]
    {
      var s := tbl[n];
      if peer.Just? && peer.value != LOCAL_HOST {
        var addrs := VerifyAddresses(s.addrs, peer.value);
        s := s.(addrs := addrs);
      }
      out := out + [s];
    }
  }

  /** Sorts the addresses into candidates and takes the best kind there is. */
  method ValidateAddresses(addrs: seq<Item>, peer: string) returns (out: seq<Item>)
    ensures out == ValidateItems(addrs, peer)
  {
    var best, allInterface, fallback := [], [], [];
    for n := 0 to |addrs|
      invariant best == Best(addrs[..n], peer)
      invariant allInterface == AllInterface(addrs[..n], peer)
      invariant fallback == Fallback(addrs[..n], peer)
    {
      assert addrs[..n + 1][..n] == addrs[..n];
      var x := addrs[n];
      if x.addr.transport.Ipc? || x.addr.ip == LOCAL_HOST {
      } else if x.addr.ip == peer {
        best := best + [x];
      } else if x.addr.ip == ALL_INTERFACES && peer != "" {
        allInterface := allInterface + [MovedTo(x, peer)];
      } else {
        fallback := fallback + [x];
      }
    }
    assert addrs[..|addrs|] == addrs;
    out := if best != [] then best else if allInterface != [] then allInterface else if fallback != [] then fallback else addrs;
  }

  method ValidateUrl(tbl: SvcTable, peer: Maybe<string>) returns (out: SvcTable)
    ensures out == Validate(tbl, peer)
  {
    out := [];
    for n := 0 to |tbl|
      invariant |out| == n && forall k | 0 <= k < n :: out[k] == Validate(tbl, peer)[k]
    {
      var s := tbl[n];
      if peer.Just? {
        var addrs := ValidateAddresses(s.addrs, peer.value);
        s := s.(addrs := addrs);
      }
      out := out + [s];
    }
  }

  /** Whether any two addresses of the services are the same socket. */
  method IsSameService(s: Svc, local: Svc, ips: set<string>) returns (same: bool)
    ensures same <==> SameService(s, local, ips)
  {
    if s.name != local.name {
      return false;
    }
    for j := 0 to |s.addrs|
      invariant forall j', k | 0 <= j' < j && 0 <= k < |local.addrs| :: !SameSocket(s.addrs[j'], local.addrs[k], ips)
    {
      for k := 0 to |local.addrs|
        invariant forall k' | 0 <= k' < k :: !SameSocket(s.addrs[j], local.addrs[k'], ips)
      {
        if SameSocket(s.addrs[j], local.addrs[k], ips) {
          return true;
        }
      }
    }
    return false;
  }

  /** Erases the services that are also local. */
  method RemoveDuplicateService(tbl: SvcTable, local: SvcTable, ips: set<string>) returns (out: SvcTable)
    ensures out == WithoutDuplicates(tbl, local, ips)
  {
    out := [];
    for n := 0 to |tbl|
      invariant out == WithoutDuplicates(tbl[..n], local, ips)
    {
      assert tbl[..n + 1][..n] == tbl[..n];
      var same := false;
      var k := 0;
      while k < |local| && !same
        invariant k <= |local|
        invariant !same ==> forall m | 0 <= m < k :: !SameService(tbl[n], local[m], ips)
        invariant same ==> IsDuplicate(tbl[n], local, ips)
      {
        same := IsSameService(tbl[n], local[k], ips);
        k := k + 1;
      }
      if !same {
        out := out + [tbl[n]];
      }
    }
    assert tbl[..|tbl|] == tbl;
  }
}
