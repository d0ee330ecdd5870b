/** The service registry of a name server (server/CNameServer.cpp): entries by
    service name and instance id, each with the addresses of the service. */
module Registry {
  import opened EventCode
  import KeyOrder

  datatype Transport = Ipc | Tcp

  datatype SocketAddr = SocketAddr(transport: Transport, ip: string, port: int, secure: bool, url: string)

  datatype Status = Free | Pending | Bound

  datatype AddrDesc = AddrDesc(addr: SocketAddr, level: int, interface_: int, status: Status, rebinds: int)

  datatype ServerType = UserService | NameServerType | HostServerType

  datatype Entry = Entry(name: string, instance: Code, sid: int, kind: ServerType, level: int, normal: bool, secure: bool,
                         addrs: seq<AddrDesc>)

  type Table = map<string, map<Code, Entry>>

  predicate Has(t: Table, name: string, inst: Code) {
    name in t && inst in t[name]
  }

  function Put(t: Table, name: string, inst: Code, e: Entry): Table {
    t[name := (if name in t then t[name] else map[])[inst := e]]
  }

  /** Removes an entry, and its name once no instance is left. */
  function Erase(t: Table, name: string, inst: Code): Table {
    if name !in t then t
    else
      var rest := t[name] - {inst};
      if rest == map[] then t - {name} else t[name := rest]
  }

  /** Every entry sits under its own name and instance; no name is empty of instances. */
  ghost predicate Canonical(t: Table) {
    && (forall n | n in t :: t[n] != map[])
    && forall n, i | Has(t, n, i) :: t[n][i].name == n && t[n][i].instance == i
  }

  lemma PutHas(t: Table, name: string, inst: Code, e: Entry)
    ensures forall n, i :: Has(Put(t, name, inst, e), n, i) <==> Has(t, n, i) || (n == name && i == inst)
    ensures forall n, i | Has(Put(t, name, inst, e), n, i) ::
              Put(t, name, inst, e)[n][i] == if n == name && i == inst then e else t[n][i]
    ensures Canonical(t) && e.name == name && e.instance == inst ==> Canonical(Put(t, name, inst, e))
  {
    var t' := Put(t, name, inst, e);
    assert inst in t'[name];
  }

  lemma EraseHas(t: Table, name: string, inst: Code)
    ensures forall n, i :: Has(Erase(t, name, inst), n, i) <==> Has(t, n, i) && !(n == name && i == inst)
    ensures forall n, i | Has(Erase(t, name, inst), n, i) :: Erase(t, name, inst)[n][i] == t[n][i]
    ensures Canonical(t) ==> Canonical(Erase(t, name, inst))
  {
    if name in t {
      assert forall i | i in t[name] && i != inst :: i in t[name] - {inst};
    }
  }

  /** Canonical tables with the same entries are the same table. */
  lemma CanonicalUnique(a: Table, b: Table)
    requires Canonical(a) && Canonical(b)
    requires forall n, i :: Has(a, n, i) <==> Has(b, n, i)
    requires forall n, i | Has(a, n, i) :: a[n][i] == b[n][i]
    ensures a == b
  {
    SameNames(a, b);
    SameNames(b, a);
    forall n | n in a ensures a[n] == b[n] {
      forall i ensures (i in a[n] <==> i in b[n]) && (i in a[n] ==> a[n][i] == b[n][i]) {
        assert Has(a, n, i) <==> Has(b, n, i);
      }
    }
  }

  lemma SameNames(a: Table, b: Table)
    requires Canonical(a) && forall n, i | Has(a, n, i) :: Has(b, n, i)
    ensures forall n | n in a :: n in b
  {
    forall n | n in a ensures n in b {
      assert a[n].Keys != {};
      assert Has(a, n, KeyOrder.Least(a[n].Keys));
    }
  }

  // ------------------------------------------------------------------
  // Finding services.

  /** Whether a request for instance `inst`, possibly a group, covers instance `i`. */
  predicate Covers(inst: Code, i: Code) {
    if IsGroup(inst) then InGroup(inst, ALL_GROUPS) || SameGroup(inst, i) else i == inst
  }

  /** Entry (n, i) answers a request; an empty name asks for every service. */
  predicate Matches(t: Table, name: string, inst: Code, n: string, i: Code) {
    Has(t, n, i) && (name == "" || n == name) && Covers(inst, i)
  }

  ghost predicate Found(t: Table, name: string, inst: Code) {
    exists n, i :: Matches(t, name, inst, n, i)
  }

  // ------------------------------------------------------------------
  // A session goes away.

  ghost predicate IsOwned(t: Table, sid: int, n: string, i: Code) {
    Has(t, n, i) && t[n][i].sid == sid
  }

  /** Exactly the entries of the session are gone; the others are as before. */
  ghost predicate IsOffline(t: Table, sid: int, t': Table) {
    && (forall n, i :: Has(t', n, i) <==> Has(t, n, i) && t[n][i].sid != sid)
    && (forall n, i | Has(t', n, i) :: t'[n][i] == t[n][i])
    && Canonical(t')
  }

  lemma OfflineUnique(t: Table, sid: int, a: Table, b: Table)
    requires IsOffline(t, sid, a) && IsOffline(t, sid, b)
    ensures a == b
  {
    CanonicalUnique(a, b);
  }

  /** The entries of a session. */
  ghost function Owned(t: Table, sid: int): set<(string, Code)> {
    set n, i | n in t && i in t[n] && t[n][i].sid == sid :: (n, i)
  }

  /** Removing one owned entry: fewer are left, and going on from there ends the same. */
  lemma EraseOwned(t: Table, sid: int, n: string, i: Code)
    requires IsOwned(t, sid, n, i)
    ensures |Owned(Erase(t, n, i), sid)| < |Owned(t, sid)|
    ensures forall t' :: IsOffline(Erase(t, n, i), sid, t') ==> IsOffline(t, sid, t')
  {
    EraseHas(t, n, i);
    var less := Owned(Erase(t, n, i), sid);
    assert less == Owned(t, sid) - {(n, i)} by {
      forall k: (string, Code) ensures k in less <==> k in Owned(t, sid) - {(n, i)} {
        assert k in less <==> IsOwned(Erase(t, n, i), sid, k.0, k.1);
        assert k in Owned(t, sid) <==> IsOwned(t, sid, k.0, k.1);
      }
    }
    assert (n, i) in Owned(t, sid);
  }
}
