/** The data pool (datapool/CDataPool.cpp, datapool/CDpClient.cpp):
    subscriptions wait in a pending table or live on the client that serves
    their topic, and move when topics appear and clients vanish.

    A client is identified by a number; its topic table is kept by the pool. */
module DataPool {
  import opened EventCode
  import KeyOrder

  type Topic = string
  type Listener = int
  type Client = int

  datatype TopicInfo = TopicInfo(id: Code, topic: Topic)

  type TopicTable = map<Code, map<Topic, TopicInfo>>

  /** Listeners by topic id and topic, in order of subscription. */
  type Handles = map<Code, map<Topic, seq<Listener>>>

  datatype Subscription = Subscription(id: Code, topic: Topic, listener: Listener)

  // ------------------------------------------------------------------
  // Matching.

  /** Two topic ids match: equal, or one of them is a group that covers the other. */
  predicate IdMatched(intended: Code, stored: Code) {
    || stored == intended
    || ((IsGroup(intended) || IsGroup(stored))
        && (InGroup(intended, ALL_GROUPS) || InGroup(stored, ALL_GROUPS) || SameGroup(intended, stored)))
  }

  predicate TopicMatched(intended: Topic, stored: Topic) {
    stored == intended || stored == "" || intended == ""
  }

  /** A created topic serves (id, topic): its name is empty or equal, and its
      id is equal or a group that holds `id`. */
  predicate Serves(info: TopicInfo, id: Code, topic: Topic) {
    && (info.topic == "" || info.topic == topic)
    && (info.id == id || (IsGroup(info.id) && (InGroup(info.id, ALL_GROUPS) || SameGroup(info.id, id))))
  }

  predicate Listed(tbl: TopicTable, id: Code, topic: Topic) {
    id in tbl && topic in tbl[id]
  }

  /** Some topic of the table serves (id, topic). */
  ghost predicate Created(tbl: TopicTable, id: Code, topic: Topic) {
    || Listed(tbl, id, topic)
    || exists i, t :: Listed(tbl, i, t) && Serves(tbl[i][t], id, topic)
  }

  /** The table of the listed topics; a later entry replaces an earlier one. */
  function FromList(list: seq<TopicInfo>): TopicTable {
    if list == [] then map[]
    else
      var last := list[|list| - 1];
      var tbl := FromList(list[..|list| - 1]);
      tbl[last.id := (if last.id in tbl then tbl[last.id] else map[])[last.topic := last]]
  }

  lemma {:induction false} TableHoldsTheList(list: seq<TopicInfo>, i: Code, t: Topic)
    requires Listed(FromList(list), i, t)
    ensures FromList(list)[i][t] == TopicInfo(i, t) && TopicInfo(i, t) in list
  {
    if list != [] {
      var last, front := list[|list| - 1], list[..|list| - 1];
      if !(last.id == i && last.topic == t) {
        TableHoldsTheList(front, i, t);
        assert TopicInfo(i, t) in front;
      }
    }
  }

  /** Whatever the table serves, some listed topic passes both matching tests. */
  lemma CreatedIsMatched(list: seq<TopicInfo>, id: Code, topic: Topic)
    requires Created(FromList(list), id, topic)
    ensures exists n :: 0 <= n < |list| && IdMatched(list[n].id, id) && TopicMatched(list[n].topic, topic)
  {
    var tbl := FromList(list);
    var i, t := CreatedBy(tbl, id, topic);
    TableHoldsTheList(list, i, t);
    ServesIsMatched(tbl[i][t], id, topic);
    var n :| 0 <= n < |list| && list[n] == TopicInfo(i, t);
  }

  /** The entry that serves (id, topic), given that entries sit under their own keys. */
  lemma CreatedBy(tbl: TopicTable, id: Code, topic: Topic) returns (i: Code, t: Topic)
    requires Created(tbl, id, topic)
    ensures Listed(tbl, i, t) && (tbl[i][t] == TopicInfo(i, t) ==> Serves(tbl[i][t], id, topic))
  {
    if Listed(tbl, id, topic) {
      i, t := id, topic;
    } else {
      i, t :| Listed(tbl, i, t) && Serves(tbl[i][t], id, topic);
    }
  }

  lemma ServesIsMatched(info: TopicInfo, id: Code, topic: Topic)
    requires Serves(info, id, topic)
    ensures IdMatched(info.id, id) && TopicMatched(info.topic, topic)
  {}

  // ------------------------------------------------------------------
  // The state of the pool.

  datatype Pool = Pool(pending: Handles, clients: seq<Client>, served: map<Client, Handles>, topics: map<Client, TopicTable>)

  predicate Has(h: Handles, id: Code, topic: Topic) {
    id in h && topic in h[id]
  }

  function At(h: Handles, id: Code, topic: Topic): seq<Listener> {
    if Has(h, id, topic) then h[id][topic] else []
  }

  function Append(h: Handles, id: Code, topic: Topic, more: seq<Listener>): Handles {
    if more == [] then h
    else h[id := (if id in h then h[id] else map[])[topic := At(h, id, topic) + more]]
  }

  lemma AppendAt(h: Handles, id: Code, topic: Topic, more: seq<Listener>)
    ensures forall i, t :: At(Append(h, id, topic, more), i, t)
                           == if i == id && t == topic then At(h, id, topic) + more else At(h, i, t)
    ensures forall i, t :: Has(Append(h, id, topic, more), i, t) <==> Has(h, i, t) || (i == id && t == topic && more != [])
  {}

  lemma AppendTwice(h: Handles, id: Code, topic: Topic, a: seq<Listener>, x: Listener)
    ensures Append(Append(h, id, topic, a), id, topic, [x]) == Append(h, id, topic, a + [x])
  {
    if a != [] {
      var m: map<Topic, seq<Listener>> := if id in h then h[id] else map[];
      var v := At(h, id, topic);
      assert v + a + [x] == v + (a + [x]);
      assert m[topic := v + a][topic := v + a + [x]] == m[topic := v + (a + [x])];
      var h' := h[id := m[topic := v + a]];
      assert h'[id := m[topic := v + (a + [x])]] == h[id := m[topic := v + (a + [x])]];
    } else {
      assert a + [x] == [x];
    }
  }

  function ServedBy(p: Pool, c: Client): Handles {
    if c in p.served then p.served[c] else map[]
  }

  function TopicsOf(p: Pool, c: Client): TopicTable {
    if c in p.topics then p.topics[c] else map[]
  }

  /** The first connected client that serves the topic. */
  ghost predicate IsFirst(p: Pool, id: Code, topic: Topic, n: nat) {
    && n < |p.clients| && Created(TopicsOf(p, p.clients[n]), id, topic)
    && forall m | 0 <= m < n :: !Created(TopicsOf(p, p.clients[m]), id, topic)
  }

  function Give(p: Pool, c: Client, id: Code, topic: Topic, more: seq<Listener>): Pool {
    if more == [] then p
    else p.(served := p.served[c := Append(ServedBy(p, c), id, topic, more)])
  }

  ghost predicate IsSubscribe(p: Pool, s: Subscription, p': Pool) {
    if exists n: nat :: IsFirst(p, s.id, s.topic, n)
    then exists n: nat :: IsFirst(p, s.id, s.topic, n) && p' == Give(p, p.clients[n], s.id, s.topic, [s.listener])
    else p' == p.(pending := Append(p.pending, s.id, s.topic, [s.listener]))
  }

  // ------------------------------------------------------------------
  // No missed subscription.

  /** No pending subscription is for a topic that a connected client serves. */
  ghost predicate NoneMissed(p: Pool) {
    forall c, id, topic :: c in p.clients && Has(p.pending, id, topic) ==> !Created(TopicsOf(p, c), id, topic)
  }

  // ------------------------------------------------------------------
  // Conservation of listeners.

  /** All listeners of (id, topic) on the given clients. */
  ghost function Sum(served: map<Client, Handles>, cs: set<Client>, id: Code, topic: Topic): multiset<Listener>
    requires cs <= served.Keys
    decreases |cs|
  {
    if cs == {} then multiset{}
    else
      var c := KeyOrder.Least(cs);
      multiset(At(served[c], id, topic)) + Sum(served, cs - {c}, id, topic)
  }

  ghost function Everywhere(p: Pool, id: Code, topic: Topic): multiset<Listener> {
    multiset(At(p.pending, id, topic)) + Sum(p.served, p.served.Keys, id, topic)
  }

  /** The listeners that were subscribed to (id, topic). */
  function Subscribed(made: seq<Subscription>, id: Code, topic: Topic): multiset<Listener> {
    if made == [] then multiset{}
    else
      var last := made[|made| - 1];
      Subscribed(made[..|made| - 1], id, topic)
      + if last.id == id && last.topic == topic then multiset{last.listener} else multiset{}
  }

  /** Pending and served listeners together are exactly those ever subscribed. */
  ghost predicate Conserved(p: Pool, made: seq<Subscription>) {
    forall id, topic :: Everywhere(p, id, topic) == Subscribed(made, id, topic)
  }

  /** Taking one client out of the sum. */
  lemma {:induction false} SumSplit(served: map<Client, Handles>, cs: set<Client>, c: Client, id: Code, topic: Topic)
    requires cs <= served.Keys && c in cs
    ensures Sum(served, cs, id, topic) == multiset(At(served[c], id, topic)) + Sum(served, cs - {c}, id, topic)
    decreases |cs|
  {
    var first := KeyOrder.Least(cs);
    if first != c {
      SumSplit(served, cs - {first}, c, id, topic);
      var rest := cs - {c};
      assert KeyOrder.Least(rest) == first by {
        assert first in rest;
      }
      assert cs - {first} - {c} == rest - {first};
    }
  }

  lemma {:induction false} SumFrame(a: map<Client, Handles>, b: map<Client, Handles>, cs: set<Client>, id: Code, topic: Topic)
    requires cs <= a.Keys && cs <= b.Keys
    requires forall c | c in cs :: At(a[c], id, topic) == At(b[c], id, topic)
    ensures Sum(a, cs, id, topic) == Sum(b, cs, id, topic)
    decreases |cs|
  {
    if cs != {} {
      SumFrame(a, b, cs - {KeyOrder.Least(cs)}, id, topic);
    }
  }

  /** Giving listeners to a client adds exactly them. */
  lemma GiveAdds(p: Pool, c: Client, id: Code, topic: Topic, more: seq<Listener>)
    ensures forall i, t :: Everywhere(Give(p, c, id, topic, more), i, t)
                           == Everywhere(p, i, t) + if i == id && t == topic then multiset(more) else multiset{}
  {
    forall i, t ensures Everywhere(Give(p, c, id, topic, more), i, t)
                        == Everywhere(p, i, t) + if i == id && t == topic then multiset(more) else multiset{}
    {
      GiveAddsAt(p, c, id, topic, more, i, t);
    }
  }

  lemma GiveAddsAt(p: Pool, c: Client, id: Code, topic: Topic, more: seq<Listener>, i: Code, t: Topic)
    ensures Everywhere(Give(p, c, id, topic, more), i, t)
            == Everywhere(p, i, t) + if i == id && t == topic then multiset(more) else multiset{}
  {
    var before := At(ServedBy(p, c), i, t);
    var added := if i == id && t == topic then more else [];
    var q := Give(p, c, id, topic, more);
    AppendAt(ServedBy(p, c), id, topic, more);
    if more != [] {
      SumReplace(p.served, c, q.served[c], i, t);
      assert At(q.served[c], i, t) == before + added;
      Cancel(multiset(At(p.pending, i, t)), Sum(q.served, q.served.Keys, i, t), Sum(p.served, p.served.Keys, i, t),
             multiset(before), multiset(added));
    }
  }

  lemma Cancel(p: multiset<Listener>, a: multiset<Listener>, b: multiset<Listener>, x: multiset<Listener>, m: multiset<Listener>)
    requires a + x == b + (x + m)
    ensures p + a == p + b + m
  {
    forall e ensures (p + a)[e] == (p + b + m)[e] {
      assert (a + x)[e] == (b + (x + m))[e];
    }
  }

  /** Replacing what one client serves changes the sum by the difference. */
  lemma SumReplace(served: map<Client, Handles>, c: Client, h: Handles, i: Code, t: Topic)
    ensures var old_ := if c in served then At(served[c], i, t) else [];
            Sum(served[c := h], served[c := h].Keys, i, t) + multiset(old_)
            == Sum(served, served.Keys, i, t) + multiset(At(h, i, t))
  {
    var after := served[c := h];
    var rest := after.Keys - {c};
    SumSplit(after, after.Keys, c, i, t);
    SumFrame(served, after, rest, i, t);
    if c in served {
      SumSplit(served, served.Keys, c, i, t);
      assert served.Keys - {c} == rest;
    } else {
      assert served.Keys == rest;
    }
  }

  lemma SubscribeAdds(p: Pool, s: Subscription, p': Pool)
    requires IsSubscribe(p, s, p')
    ensures forall i, t :: Everywhere(p', i, t)
                           == Everywhere(p, i, t) + if i == s.id && t == s.topic then multiset{s.listener} else multiset{}
  {
    assert multiset([s.listener]) == multiset{s.listener};
    if n: nat :| IsFirst(p, s.id, s.topic, n) && p' == Give(p, p.clients[n], s.id, s.topic, [s.listener]) {
      GiveAdds(p, p.clients[n], s.id, s.topic, [s.listener]);
    } else {
      AppendAt(p.pending, s.id, s.topic, [s.listener]);
      forall i, t ensures Everywhere(p', i, t)
                          == Everywhere(p, i, t) + if i == s.id && t == s.topic then multiset{s.listener} else multiset{}
      {
        PendingGrows(p, p', i, t, if i == s.id && t == s.topic then [s.listener] else []);
      }
    }
  }

  lemma SubscribeFrame(p: Pool, s: Subscription, p': Pool)
    requires IsSubscribe(p, s, p')
    ensures NoneMissed(p) ==> NoneMissed(p')
    ensures SameUnlisted(p, p')
  {
    if n: nat :| IsFirst(p, s.id, s.topic, n) && p' == Give(p, p.clients[n], s.id, s.topic, [s.listener]) {
      GiveFrame(p, p.clients[n], s.id, s.topic, [s.listener]);
    } else {
      NotServedByAnyone(p, s.id, s.topic);
      WaitFrame(p, s, p');
    }
  }

  lemma GiveFrame(p: Pool, c: Client, id: Code, topic: Topic, more: seq<Listener>)
    requires c in p.clients
    ensures NoneMissed(p) ==> NoneMissed(Give(p, c, id, topic, more))
    ensures SameUnlisted(p, Give(p, c, id, topic, more))
  {
    var p' := Give(p, c, id, topic, more);
    assert forall k :: TopicsOf(p', k) == TopicsOf(p, k);
  }

  lemma WaitFrame(p: Pool, s: Subscription, p': Pool)
    requires p' == p.(pending := Append(p.pending, s.id, s.topic, [s.listener]))
    requires forall c | c in p.clients :: !Created(TopicsOf(p, c), s.id, s.topic)
    ensures NoneMissed(p) ==> NoneMissed(p')
    ensures SameUnlisted(p, p')
  {
    AppendAt(p.pending, s.id, s.topic, [s.listener]);
    assert forall k :: TopicsOf(p', k) == TopicsOf(p, k);
  }

  lemma PendingGrows(p: Pool, p': Pool, i: Code, t: Topic, more: seq<Listener>)
    requires p'.served == p.served && At(p'.pending, i, t) == At(p.pending, i, t) + more
    ensures Everywhere(p', i, t) == Everywhere(p, i, t) + multiset(more)
  {
    var a, b, c := multiset(At(p.pending, i, t)), multiset(more), Sum(p.served, p.served.Keys, i, t);
    assert a + b + c == a + c + b;
  }

  lemma NotServedByAnyone(p: Pool, id: Code, topic: Topic)
    requires !exists n: nat :: IsFirst(p, id, topic, n)
    ensures forall c | c in p.clients :: !Created(TopicsOf(p, c), id, topic)
  {
    var n := 0;
    while n < |p.clients|
      invariant n <= |p.clients|
      invariant forall m | 0 <= m < n :: !Created(TopicsOf(p, p.clients[m]), id, topic)
    {
      assert !IsFirst(p, id, topic, n);
      n := n + 1;
    }
  }

  lemma SubscribedAppend(made: seq<Subscription>, s: Subscription, i: Code, t: Topic)
    ensures Subscribed(made + [s], i, t)
            == Subscribed(made, i, t) + if i == s.id && t == s.topic then multiset{s.listener} else multiset{}
  {
    assert (made + [s])[..|made|] == made;
  }

  /** One more subscription: nothing is missed and nothing lost. */
  lemma SubscribeKeeps(p: Pool, s: Subscription, p': Pool, made: seq<Subscription>)
    requires IsSubscribe(p, s, p') && NoneMissed(p) && Conserved(p, made)
    ensures NoneMissed(p') && Conserved(p', made + [s])
  {
    SubscribeAdds(p, s, p');
    SubscribeFrame(p, s, p');
    forall i, t ensures Everywhere(p', i, t) == Subscribed(made + [s], i, t) {
      SubscribedAppend(made, s, i, t);
    }
  }

  // ------------------------------------------------------------------
  // Moving pending subscriptions to a client.

  type Place = (Code, Topic)

  function Without(h: Handles, id: Code, topic: Topic): Handles {
    if Has(h, id, topic) then
      var rest := h[id] - {topic};
      if rest == map[] then h - {id} else h[id := rest]
    else h
  }

  lemma WithoutAt(h: Handles, id: Code, topic: Topic)
    ensures forall i, t :: Has(Without(h, id, topic), i, t) <==> Has(h, i, t) && !(i == id && t == topic)
    ensures forall i, t :: At(Without(h, id, topic), i, t) == if i == id && t == topic then [] else At(h, i, t)
  {
    if Has(h, id, topic) {
      assert forall t | t in h[id] && t != topic :: t in h[id] - {topic};
    }
  }

  /** The pending subscriptions at the places `gone`, and no others, now belong
      to client `c`, after what it served before. */
  ghost predicate Moved(p: Pool, c: Client, gone: iset<Place>, p': Pool) {
    && p'.clients == p.clients && p'.topics == p.topics
    && p'.served == (if c in p'.served then p.served[c := ServedBy(p', c)] else p.served)
    && (forall i, t :: Has(p'.pending, i, t) <==> Has(p.pending, i, t) && (i, t) !in gone)
    && (forall i, t :: At(p'.pending, i, t) == if (i, t) in gone then [] else At(p.pending, i, t))
    && (forall i, t :: At(ServedBy(p', c), i, t)
                       == At(ServedBy(p, c), i, t) + if (i, t) in gone then At(p.pending, i, t) else [])
  }

  function MoveOne(p: Pool, c: Client, id: Code, topic: Topic): Pool {
    Give(p, c, id, topic, At(p.pending, id, topic)).(pending := Without(p.pending, id, topic))
  }

  lemma GiveServes(p: Pool, c: Client, id: Code, topic: Topic, more: seq<Listener>)
    ensures var q := Give(p, c, id, topic, more);
            && q.served == (if c in q.served then p.served[c := ServedBy(q, c)] else p.served)
            && forall i, t :: At(ServedBy(q, c), i, t) == At(ServedBy(p, c), i, t) + if i == id && t == topic then more else []
  {
    AppendAt(ServedBy(p, c), id, topic, more);
    if more == [] {
      MovedNothing(p, c);
    }
  }

  lemma MoveOneMoves(p: Pool, c: Client, id: Code, topic: Topic)
    ensures Moved(p, c, iset{(id, topic)}, MoveOne(p, c, id, topic))
  {
    var more := At(p.pending, id, topic);
    var q, p' := Give(p, c, id, topic, more), MoveOne(p, c, id, topic);
    GiveServes(p, c, id, topic, more);
    assert ServedBy(p', c) == ServedBy(q, c);
    WithoutAt(p.pending, id, topic);
  }

  lemma MovedNothing(p: Pool, c: Client)
    ensures Moved(p, c, iset{}, p)
  {
    if c in p.served {
      assert p.served[c := p.served[c]] == p.served;
    }
  }

  lemma MovedTwice(p: Pool, c: Client, a: iset<Place>, p1: Pool, b: iset<Place>, p2: Pool)
    requires Moved(p, c, a, p1) && Moved(p1, c, b, p2)
    ensures Moved(p, c, a + b, p2)
  {
    assert p2.served == if c in p2.served then p.served[c := ServedBy(p2, c)] else p.served;
  }

  /** Moving neither loses nor duplicates a listener. */
  lemma MovedConserves(p: Pool, c: Client, gone: iset<Place>, p': Pool)
    requires Moved(p, c, gone, p')
    ensures forall i, t :: Everywhere(p', i, t) == Everywhere(p, i, t)
  {
    forall i, t ensures Everywhere(p', i, t) == Everywhere(p, i, t) {
      MovedConservesAt(p, c, gone, p', i, t);
    }
  }

  lemma MovedConservesAt(p: Pool, c: Client, gone: iset<Place>, p': Pool, i: Code, t: Topic)
    requires Moved(p, c, gone, p')
    ensures Everywhere(p', i, t) == Everywhere(p, i, t)
  {
    var moved := if (i, t) in gone then At(p.pending, i, t) else [];
    assert At(ServedBy(p', c), i, t) == At(ServedBy(p, c), i, t) + moved;
    if c in p'.served {
      Exchange(p, c, p', i, t, moved);
    } else {
      assert moved == [];
    }
  }

  /** At one place, client `c` gains what the pending table loses. */
  lemma Exchange(p: Pool, c: Client, p': Pool, i: Code, t: Topic, moved: seq<Listener>)
    requires c in p'.served && p'.served == p.served[c := p'.served[c]]
    requires At(p'.served[c], i, t) == At(ServedBy(p, c), i, t) + moved
    requires multiset(At(p.pending, i, t)) == multiset(At(p'.pending, i, t)) + multiset(moved)
    ensures Everywhere(p', i, t) == Everywhere(p, i, t)
  {
    SumReplace(p.served, c, p'.served[c], i, t);
    Rebalance(multiset(At(p'.pending, i, t)), multiset(moved), multiset(At(ServedBy(p, c), i, t)),
              Sum(p.served, p.served.Keys, i, t), Sum(p'.served, p'.served.Keys, i, t));
  }

  lemma Rebalance(stays: multiset<Listener>, moved: multiset<Listener>, before: multiset<Listener>, a: multiset<Listener>, b: multiset<Listener>)
    requires b + before == a + (before + moved)
    ensures stays + b == stays + moved + a
  {
    forall e ensures (stays + b)[e] == (stays + moved + a)[e] {
      assert (b + before)[e] == (a + (before + moved))[e];
    }
  }

  /** The places that a new topic table serves. */
  ghost function ServedPlaces(tbl: TopicTable): iset<Place> {
    iset i: Code, t: Topic | Created(tbl, i, t) :: (i, t)
  }

  /** A new topic list for client `c`: exactly the pending subscriptions that
      the new table serves move to it. */
  ghost predicate IsTopicUpdate(p: Pool, c: Client, list: seq<TopicInfo>, p': Pool) {
    Moved(p.(topics := p.topics[c := FromList(list)]), c, ServedPlaces(FromList(list)), p')
  }

  lemma TopicUpdateMissesNone(p: Pool, c: Client, list: seq<TopicInfo>, p': Pool)
    requires IsTopicUpdate(p, c, list, p') && NoneMissed(p)
    ensures NoneMissed(p')
  {
    var tbl := FromList(list);
    forall k, i, t | k in p'.clients && Has(p'.pending, i, t) ensures !Created(TopicsOf(p', k), i, t) {
      assert Has(p.pending, i, t) && (i, t) !in ServedPlaces(tbl);
      if k == c {
        assert TopicsOf(p', k) == tbl;
      } else {
        assert TopicsOf(p', k) == TopicsOf(p, k);
      }
    }
  }

  lemma TopicUpdateKeeps(p: Pool, c: Client, list: seq<TopicInfo>, p': Pool, made: seq<Subscription>)
    requires IsTopicUpdate(p, c, list, p') && NoneMissed(p) && Conserved(p, made)
    ensures NoneMissed(p') && Conserved(p', made)
  {
    TopicUpdateMissesNone(p, c, list, p');
    var q := p.(topics := p.topics[c := FromList(list)]);
    MovedConserves(q, c, ServedPlaces(FromList(list)), p');
    forall i, t ensures Everywhere(p', i, t) == Subscribed(made, i, t) {
      assert Everywhere(p', i, t) == Everywhere(q, i, t) == Everywhere(p, i, t);
    }
  }

  // ------------------------------------------------------------------
  // A client vanishes.

  ghost predicate IsChain(pools: seq<Pool>, subs: seq<Subscription>) {
    && |pools| == |subs| + 1
    && forall n | 0 <= n < |subs| :: IsSubscribe(pools[n], subs[n], pools[n + 1])
  }

  /** The subscriptions `subs` are made one after the other. */
  ghost predicate IsSubscribes(p: Pool, subs: seq<Subscription>, p': Pool) {
    exists pools :: IsChain(pools, subs) && pools[0] == p && pools[|subs|] == p'
  }

  lemma NoSubscribes(p: Pool)
    ensures IsSubscribes(p, [], p)
  {
    assert IsChain([p], []);
  }

  lemma OneMore(p: Pool, a: seq<Subscription>, q: Pool, s: Subscription, r: Pool)
    requires IsSubscribes(p, a, q) && IsSubscribe(q, s, r)
    ensures IsSubscribes(p, a + [s], r)
  {
    var pools :| IsChain(pools, a) && pools[0] == p && pools[|a|] == q;
    var longer, subs := pools + [r], a + [s];
    forall n | 0 <= n < |subs| ensures IsSubscribe(longer[n], subs[n], longer[n + 1]) {
      if n == |a| {
        assert longer[n] == q && longer[n + 1] == r;
      } else {
        assert longer[n] == pools[n] && longer[n + 1] == pools[n + 1] && subs[n] == a[n];
      }
    }
    assert IsChain(longer, subs);
  }

  lemma {:induction false} SubscribesConcat(p: Pool, a: seq<Subscription>, q: Pool, b: seq<Subscription>, r: Pool)
    requires IsSubscribes(p, a, q) && IsSubscribes(q, b, r)
    ensures IsSubscribes(p, a + b, r)
    decreases |b|
  {
    var m := LastSubscribe(q, b, r);
    if b == [] {
      assert a + b == a;
    } else {
      SubscribesConcat(p, a, q, b[..|b| - 1], m);
      OneMore(p, a + b[..|b| - 1], m, b[|b| - 1], r);
      assert a + b == a + b[..|b| - 1] + [b[|b| - 1]];
    }
  }

  /** The state before the last of some subscriptions. */
  lemma LastSubscribe(p: Pool, subs: seq<Subscription>, p': Pool) returns (q: Pool)
    requires IsSubscribes(p, subs, p')
    ensures subs == [] ==> p' == p
    ensures subs != [] ==> IsSubscribes(p, subs[..|subs| - 1], q) && IsSubscribe(q, subs[|subs| - 1], p')
  {
    var pools :| IsChain(pools, subs) && pools[0] == p && pools[|subs|] == p';
    if subs == [] {
      q := p;
    } else {
      q := pools[|subs| - 1];
      assert IsChain(pools[..|subs|], subs[..|subs| - 1]);
    }
  }

  lemma Assoc(a: multiset<Listener>, b: multiset<Listener>, c: multiset<Listener>)
    ensures a + b + c == a + (b + c)
  {}

  lemma {:induction false} SubscribesAdd(p: Pool, subs: seq<Subscription>, p': Pool)
    requires IsSubscribes(p, subs, p')
    ensures forall i, t :: Everywhere(p', i, t) == Everywhere(p, i, t) + Subscribed(subs, i, t)
  {
    var q := LastSubscribe(p, subs, p');
    if subs != [] {
      var front, last := subs[..|subs| - 1], subs[|subs| - 1];
      SubscribesAdd(p, front, q);
      SubscribeAdds(q, last, p');
      forall i, t ensures Everywhere(p', i, t) == Everywhere(p, i, t) + Subscribed(subs, i, t) {
        Assoc(Everywhere(p, i, t), Subscribed(front, i, t),
              if i == last.id && t == last.topic then multiset{last.listener} else multiset{});
      }
    }
  }

  /** Subscribing leaves clients that are not listed alone. */
  ghost predicate SameUnlisted(p: Pool, p': Pool) {
    && p'.clients == p.clients && p'.topics == p.topics
    && forall c | c !in p.clients :: ServedBy(p', c) == ServedBy(p, c) && (c in p'.served <==> c in p.served)
  }

  lemma {:induction false} SubscribesFrame(p: Pool, subs: seq<Subscription>, p': Pool)
    requires IsSubscribes(p, subs, p')
    ensures NoneMissed(p) ==> NoneMissed(p')
    ensures SameUnlisted(p, p')
  {
    var q := LastSubscribe(p, subs, p');
    if subs != [] {
      var front, last := subs[..|subs| - 1], subs[|subs| - 1];
      SubscribesFrame(p, front, q);
      SubscribeFrame(q, last, p');
    }
  }

  function RemoveFirst(clients: seq<Client>, c: Client): seq<Client> {
    if clients == [] then []
    else if clients[0] == c then clients[1..]
    else [clients[0]] + RemoveFirst(clients[1..], c)
  }

  ghost predicate OccursOnce(clients: seq<Client>, c: Client) {
    forall i, j | 0 <= i < j < |clients| :: !(clients[i] == c && clients[j] == c)
  }

  lemma {:induction false} RemoveFirstRemoves(clients: seq<Client>, c: Client)
    requires OccursOnce(clients, c)
    ensures forall k :: k in RemoveFirst(clients, c) <==> k in clients && k != c
  {
    if clients != [] {
      if clients[0] == c {
        assert forall k | k in clients :: k in clients[1..] || k == c;
        assert c !in clients[1..];
      } else {
        RemoveFirstRemoves(clients[1..], c);
        assert clients == [clients[0]] + clients[1..];
      }
    }
  }

  function Drop(p: Pool, c: Client): Pool {
    p.(served := p.served - {c}, topics := p.topics - {c})
  }

  /** `subs` has exactly the listeners of `h`. */
  ghost predicate Lists(subs: seq<Subscription>, h: Handles) {
    forall i, t :: Subscribed(subs, i, t) == multiset(At(h, i, t))
  }

  /** Client `c` leaves; what it served is subscribed again, in some order. */
  ghost predicate IsUnregister(p: Pool, c: Client, p': Pool) {
    exists again, q ::
      && Lists(again, ServedBy(p, c))
      && IsSubscribes(p.(clients := RemoveFirst(p.clients, c)), again, q)
      && p' == Drop(q, c)
  }

  lemma DropRemoves(p: Pool, c: Client, i: Code, t: Topic)
    ensures Everywhere(p, i, t) == Everywhere(Drop(p, c), i, t) + multiset(At(ServedBy(p, c), i, t))
  {
    var q := Drop(p, c);
    if c in p.served {
      assert q.served.Keys == p.served.Keys - {c};
      SumFrame(p.served, q.served, q.served.Keys, i, t);
      SumSplit(p.served, p.served.Keys, c, i, t);
      var a, b, d := multiset(At(p.pending, i, t)), multiset(At(p.served[c], i, t)), Sum(q.served, q.served.Keys, i, t);
      assert a + (b + d) == a + d + b;
    } else {
      assert q.served == p.served;
    }
  }

  lemma UnregisterConserves(p: Pool, p0: Pool, c: Client, again: seq<Subscription>, q: Pool, i: Code, t: Topic)
    requires p0 == p.(clients := RemoveFirst(p.clients, c)) && IsSubscribes(p0, again, q)
    requires Subscribed(again, i, t) == multiset(At(ServedBy(p, c), i, t))
    requires ServedBy(q, c) == ServedBy(p, c)
    ensures Everywhere(Drop(q, c), i, t) == Everywhere(p, i, t)
  {
    SubscribesAdd(p0, again, q);
    DropRemoves(q, c, i, t);
    assert Everywhere(p0, i, t) == Everywhere(p, i, t);
    CancelRight(Everywhere(Drop(q, c), i, t), Everywhere(p, i, t), multiset(At(ServedBy(p, c), i, t)));
  }

  lemma UnregisteredConserved(p: Pool, p0: Pool, c: Client, again: seq<Subscription>, q: Pool, made: seq<Subscription>)
    requires p0 == p.(clients := RemoveFirst(p.clients, c)) && IsSubscribes(p0, again, q) && Lists(again, ServedBy(p, c))
    requires ServedBy(q, c) == ServedBy(p, c) && Conserved(p, made)
    ensures Conserved(Drop(q, c), made)
  {
    forall i, t ensures Everywhere(Drop(q, c), i, t) == Subscribed(made, i, t) {
      UnregisterConserves(p, p0, c, again, q, i, t);
    }
  }

  /** When a client that is listed once vanishes, its listeners find another
      client or wait; none is lost and none missed. */
  lemma UnregisterKeeps(p: Pool, c: Client, p': Pool, made: seq<Subscription>)
    requires IsUnregister(p, c, p') && OccursOnce(p.clients, c)
    requires NoneMissed(p) && Conserved(p, made)
    ensures NoneMissed(p') && Conserved(p', made)
    ensures c !in p'.clients && c !in p'.served
  {
    var p0 := p.(clients := RemoveFirst(p.clients, c));
    var again, q :| Lists(again, ServedBy(p, c)) && IsSubscribes(p0, again, q) && p' == Drop(q, c);
    RemoveFirstRemoves(p.clients, c);
    SubscribesFrame(p0, again, q);
    UnregisteredConserved(p, p0, c, again, q, made);
    FewerClients(p, p0);
    DropMissesNone(q, c);
  }

  lemma FewerClients(p: Pool, p0: Pool)
    requires NoneMissed(p) && p0.pending == p.pending && p0.topics == p.topics
    requires forall k | k in p0.clients :: k in p.clients
    ensures NoneMissed(p0)
  {
    forall k, id, topic | k in p0.clients && Has(p0.pending, id, topic) ensures !Created(TopicsOf(p0, k), id, topic) {
      assert k in p.clients && Has(p.pending, id, topic);
      assert TopicsOf(p0, k) == TopicsOf(p, k);
    }
  }

  lemma DropMissesNone(q: Pool, c: Client)
    requires NoneMissed(q) && c !in q.clients
    ensures NoneMissed(Drop(q, c))
  {
    forall k | k in q.clients ensures TopicsOf(Drop(q, c), k) == TopicsOf(q, k) {}
  }

  lemma CancelRight(a: multiset<Listener>, b: multiset<Listener>, x: multiset<Listener>)
    requires a + x == b + x
    ensures a == b
  {
    forall e ensures a[e] == b[e] {
      assert (a + x)[e] == (b + x)[e];
    }
  }

  // ------------------------------------------------------------------
  // Runs.

  datatype Step =
    | SubscribeStep(s: Subscription)
    | TopicStep(c: Client, list: seq<TopicInfo>)
    | UnregisterStep(c: Client)
    | ConnectStep(c: Client)

  /** A client is connected with an empty topic table, or once more. */
  ghost predicate Next(p: Pool, step: Step, p': Pool) {
    match step
    case SubscribeStep(s) => IsSubscribe(p, s, p')
    case TopicStep(c, list) => IsTopicUpdate(p, c, list, p')
    case UnregisterStep(c) => OccursOnce(p.clients, c) && IsUnregister(p, c, p')
    case ConnectStep(c) => (c in p.clients || TopicsOf(p, c) == map[]) && p' == p.(clients := p.clients + [c])
  }

  ghost predicate IsRun(pools: seq<Pool>, steps: seq<Step>) {
    |pools| == |steps| + 1 && forall i | 0 <= i < |steps| :: Next(pools[i], steps[i], pools[i + 1])
  }

  function Made(steps: seq<Step>): seq<Subscription> {
    if steps == [] then []
    else
      var last := steps[|steps| - 1];
      Made(steps[..|steps| - 1]) + if last.SubscribeStep? then [last.s] else []
  }

  lemma StepKeeps(p: Pool, step: Step, p': Pool, made: seq<Subscription>)
    requires Next(p, step, p') && NoneMissed(p) && Conserved(p, made)
    ensures NoneMissed(p')
    ensures Conserved(p', made + if step.SubscribeStep? then [step.s] else [])
  {
    match step
    case SubscribeStep(s) => SubscribeKeeps(p, s, p', made);
    case TopicStep(c, list) =>
      TopicUpdateKeeps(p, c, list, p', made);
      assert made + [] == made;
    case UnregisterStep(c) =>
      UnregisterKeeps(p, c, p', made);
      assert made + [] == made;
    case ConnectStep(c) =>
      ConnectKeeps(p, c, p', made);
      assert made + [] == made;
  }

  lemma ConnectKeeps(p: Pool, c: Client, p': Pool, made: seq<Subscription>)
    requires c in p.clients || TopicsOf(p, c) == map[]
    requires p' == p.(clients := p.clients + [c]) && NoneMissed(p) && Conserved(p, made)
    ensures NoneMissed(p') && Conserved(p', made)
  {
    forall i, t ensures Everywhere(p', i, t) == Subscribed(made, i, t) {
      assert Everywhere(p', i, t) == Everywhere(p, i, t);
    }
  }

  /** In every run of a pool, no pending subscription is for a topic that a
      connected client serves, and the listeners pending and served are exactly
      the listeners ever subscribed. */
  lemma {:induction false} NothingMissedNothingLost(pools: seq<Pool>, steps: seq<Step>, n: nat)
    requires IsRun(pools, steps) && n < |pools|
    requires pools[0] == Pool(map[], [], map[], map[])
    ensures NoneMissed(pools[n]) && Conserved(pools[n], Made(steps[..n]))
  {
    if n > 0 {
      NothingMissedNothingLost(pools, steps, n - 1);
      StepKeeps(pools[n - 1], steps[n - 1], pools[n], Made(steps[..n - 1]));
      assert steps[..n][..n - 1] == steps[..n - 1];
    }
  }

  // ------------------------------------------------------------------
  // The pool in place.

  /** Only places with pending listeners matter for a move. */
  lemma MovedAgree(p: Pool, c: Client, a: iset<Place>, b: iset<Place>, p': Pool)
    requires Moved(p, c, a, p')
    requires forall i, t | Has(p.pending, i, t) :: (i, t) in a <==> (i, t) in b
    ensures Moved(p, c, b, p')
  {}

  /** The places that a created topic (id, topic) moves, if they are pending. */
  ghost function MatchedPlaces(tbl: TopicTable, id: Code, topic: Topic): iset<Place> {
    iset i: Code, t: Topic | IdMatched(id, i) && TopicMatched(topic, t) && Created(tbl, i, t) :: (i, t)
  }

  /** The places that the listed topics move. */
  ghost function ListedPlaces(tbl: TopicTable, list: seq<TopicInfo>): iset<Place> {
    if list == [] then iset{}
    else ListedPlaces(tbl, list[..|list| - 1]) + MatchedPlaces(tbl, list[|list| - 1].id, list[|list| - 1].topic)
  }

  lemma {:induction false} InListedPlaces(tbl: TopicTable, list: seq<TopicInfo>, i: Code, t: Topic)
    ensures (i, t) in ListedPlaces(tbl, list)
            <==> Created(tbl, i, t) && exists n :: 0 <= n < |list| && IdMatched(list[n].id, i) && TopicMatched(list[n].topic, t)
  {
    if list != [] {
      var front, last := list[..|list| - 1], list[|list| - 1];
      InListedPlaces(tbl, front, i, t);
      assert forall n | 0 <= n < |front| :: front[n] == list[n];
      if (i, t) in ListedPlaces(tbl, front) {
        var n :| 0 <= n < |front| && IdMatched(front[n].id, i) && TopicMatched(front[n].topic, t);
        assert IdMatched(list[n].id, i) && TopicMatched(list[n].topic, t);
      }
    }
  }

  lemma ListMovesWhatItServes(list: seq<TopicInfo>)
    ensures ListedPlaces(FromList(list), list) == ServedPlaces(FromList(list))
  {
    var tbl := FromList(list);
    forall place: Place ensures place in ListedPlaces(tbl, list) <==> place in ServedPlaces(tbl) {
      var (i, t) := place;
      InListedPlaces(tbl, list, i, t);
      if Created(tbl, i, t) {
        CreatedIsMatched(list, i, t);
      }
    }
  }

  lemma GiveTwice(p: Pool, c: Client, id: Code, topic: Topic, a: seq<Listener>, x: Listener)
    ensures Give(Give(p, c, id, topic, a), c, id, topic, [x]) == Give(p, c, id, topic, a + [x])
  {
    AppendTwice(ServedBy(p, c), id, topic, a, x);
    var h := Append(ServedBy(p, c), id, topic, a);
    var h' := Append(ServedBy(p, c), id, topic, a + [x]);
    if a != [] {
      assert p.served[c := h][c := h'] == p.served[c := h'];
    } else {
      assert a + [x] == [x];
    }
  }

  lemma {:induction false} SubscribedConcat(a: seq<Subscription>, b: seq<Subscription>, i: Code, t: Topic)
    ensures Subscribed(a + b, i, t) == Subscribed(a, i, t) + Subscribed(b, i, t)
    decreases |b|
  {
    if b == [] {
      assert a + b == a;
    } else {
      var front, last := b[..|b| - 1], b[|b| - 1];
      var one := if i == last.id && t == last.topic then multiset{last.listener} else multiset{};
      assert a + b == (a + front) + [last] && b == front + [last];
      SubscribedConcat(a, front, i, t);
      SubscribedAppend(a + front, last, i, t);
      SubscribedAppend(front, last, i, t);
      Assoc(Subscribed(a, i, t), Subscribed(front, i, t), one);
    }
  }

  /** `subs` has the listeners of `h` at the places in `done` and no others. */
  ghost predicate ListsAt(subs: seq<Subscription>, h: Handles, done: iset<Place>) {
    forall i, t :: Subscribed(subs, i, t) == if (i, t) in done then multiset(At(h, i, t)) else multiset{}
  }

  lemma ListsMore(a: seq<Subscription>, b: seq<Subscription>, h: Handles, x: iset<Place>, y: iset<Place>)
    requires ListsAt(a, h, x) && ListsAt(b, h, y) && x !! y
    ensures ListsAt(a + b, h, x + y)
  {
    forall i, t ensures Subscribed(a + b, i, t) == if (i, t) in x + y then multiset(At(h, i, t)) else multiset{} {
      SubscribedConcat(a, b, i, t);
    }
  }

  /** The subscriptions of `listeners` to (id, topic). */
  function Renewed(id: Code, topic: Topic, listeners: seq<Listener>): seq<Subscription> {
    seq(|listeners|, n requires 0 <= n < |listeners| => Subscription(id, topic, listeners[n]))
  }

  lemma RenewedAppend(id: Code, topic: Topic, front: seq<Listener>, last: Listener)
    ensures Renewed(id, topic, front + [last]) == Renewed(id, topic, front) + [Subscription(id, topic, last)]
  {}

  lemma {:induction false} RenewedSubscribes(id: Code, topic: Topic, listeners: seq<Listener>, i: Code, t: Topic)
    ensures Subscribed(Renewed(id, topic, listeners), i, t)
            == if i == id && t == topic then multiset(listeners) else multiset{}
  {
    if listeners == [] {
      assert Renewed(id, topic, listeners) == [];
    } else {
      var front, last := listeners[..|listeners| - 1], listeners[|listeners| - 1];
      RenewedSubscribes(id, topic, front, i, t);
      RenewedAppend(id, topic, front, last);
      SubscribedAppend(Renewed(id, topic, front), Subscription(id, topic, last), i, t);
      assert listeners == front + [last];
    }
  }

  lemma RenewedLists(h: Handles, id: Code, topic: Topic)
    ensures ListsAt(Renewed(id, topic, At(h, id, topic)), h, iset{(id, topic)})
  {
    forall i, t { RenewedSubscribes(id, topic, At(h, id, topic), i, t); }
  }

  lemma RemoveFirstAt(s: seq<Client>, n: nat, c: Client)
    requires n < |s| && RemoveFirst(s, c) == s[..n] + RemoveFirst(s[n..], c)
    ensures RemoveFirst(s, c) == s[..n] + if s[n] == c then s[n + 1..] else [s[n]] + RemoveFirst(s[n + 1..], c)
    ensures s[n] != c ==> RemoveFirst(s, c) == s[..n + 1] + RemoveFirst(s[n + 1..], c)
  {
    assert s[n..][1..] == s[n + 1..];
    assert s[..n + 1] + RemoveFirst(s[n + 1..], c) == s[..n] + ([s[n]] + RemoveFirst(s[n + 1..], c));
  }

  lemma OneMoreRenewed(p: Pool, id: Code, topic: Topic, listeners: seq<Listener>, n: nat, q: Pool, r: Pool)
    requires n < |listeners| && IsSubscribes(p, Renewed(id, topic, listeners[..n]), q)
    requires IsSubscribe(q, Subscription(id, topic, listeners[n]), r)
    ensures IsSubscribes(p, Renewed(id, topic, listeners[..n + 1]), r)
  {
    OneMore(p, Renewed(id, topic, listeners[..n]), q, Subscription(id, topic, listeners[n]), r);
    RenewedAppend(id, topic, listeners[..n], listeners[n]);
    assert listeners[..n + 1] == listeners[..n] + [listeners[n]];
  }

  class DataPool {
    var pending: Handles
    var clients: seq<Client>
    var served: map<Client, Handles>
    var topics: map<Client, TopicTable>

    function State(): Pool
      reads this
    {
      Pool(pending, clients, served, topics)
    }

    /** Whether a table serves a topic: by a look-up first, then by a walk. */
    static method TopicCreated(tbl: TopicTable, id: Code, topic: Topic) returns (created: bool)
      ensures created <==> Created(tbl, id, topic)
    {
      if id in tbl && topic in tbl[id] {
        return true;
      }
      var ids := tbl.Keys;
      while ids != {}
        invariant ids <= tbl.Keys
        invariant forall i, t | Listed(tbl, i, t) && i !in ids :: !Serves(tbl[i][t], id, topic)
        decreases |ids|
      {
        var i := KeyOrder.Least(ids);
        var names := tbl[i].Keys;
        while names != {}
          invariant names <= tbl[i].Keys
          invariant forall t | t in tbl[i] && t !in names :: !Serves(tbl[i][t], id, topic)
          decreases |names|
        {
          var t :| t in names;
          if Serves(tbl[i][t], id, topic) {
            assert Listed(tbl, i, t);
            return true;
          }
          names := names - {t};
        }
        ids := ids - {i};
      }
      return false;
    }

    /** A client takes over the listeners of a topic if it serves the topic. */
    method ClientSubscribe(c: Client, id: Code, topic: Topic, listeners: seq<Listener>) returns (ok: bool)
      modifies `served
      ensures ok <==> Created(TopicsOf(old(State()), c), id, topic)
      ensures State() == if ok then Give(old(State()), c, id, topic, listeners) else old(State())
    {
      ok := TopicCreated(TopicsOf(State(), c), id, topic);
      if !ok {
        return;
      }
      for n := 0 to |listeners|
        invariant State() == Give(old(State()), c, id, topic, listeners[..n])
      {
        GiveTwice(old(State()), c, id, topic, listeners[..n], listeners[n]);
        assert listeners[..n] + [listeners[n]] == listeners[..n + 1];
        served := served[c := Append(ServedBy(State(), c), id, topic, [listeners[n]])];
      }
      assert listeners[..|listeners|] == listeners;
    }

    /** The first client that serves the topic gets the listener; without one it waits. */
    method Subscribe(s: Subscription)
      modifies `served, `pending
      ensures IsSubscribe(old(State()), s, State())
    {
      var n := 0;
      while n < |clients|
        invariant n <= |clients| && State() == old(State())
        invariant forall m | 0 <= m < n :: !Created(TopicsOf(State(), clients[m]), s.id, s.topic)
      {
        var ok := ClientSubscribe(clients[n], s.id, s.topic, [s.listener]);
        if ok {
          assert IsFirst(old(State()), s.id, s.topic, n);
          return;
        }
        n := n + 1;
      }
      assert !exists k: nat :: IsFirst(old(State()), s.id, s.topic, k);
      pending := Append(pending, s.id, s.topic, [s.listener]);
    }

    /** A pending place moves to the client if the created topic matches it and
        the client serves it. */
    method TryMove(id: Code, topic: Topic, c: Client, i: Code, t: Topic)
      modifies `served, `pending
      ensures Moved(old(State()), c,
                    if (i, t) in MatchedPlaces(TopicsOf(old(State()), c), id, topic) then iset{(i, t)} else iset{}, State())
    {
      MovedNothing(State(), c);
      if IdMatched(id, i) && TopicMatched(topic, t) {
        MoveOneMoves(State(), c, i, t);
        var ok := ClientSubscribe(c, i, t, At(pending, i, t));
        if ok {
          pending := Without(pending, i, t);
        }
      }
    }

    /** The topics of one pending id. */
    method MoveTopics(id: Code, topic: Topic, c: Client, i: Code) returns (ghost gone: iset<Place>)
      requires i in pending
      modifies `served, `pending
      ensures Moved(old(State()), c, gone, State())
      ensures forall j, t | (j, t) in gone :: j == i && (i, t) in MatchedPlaces(TopicsOf(old(State()), c), id, topic)
      ensures forall t | Has(old(pending), i, t) && (i, t) in MatchedPlaces(TopicsOf(old(State()), c), id, topic) :: (i, t) in gone
    {
      gone := iset{};
      MovedNothing(State(), c);
      var names := pending[i].Keys;
      ghost var matched := MatchedPlaces(TopicsOf(State(), c), id, topic);
      while names != {}
        invariant Moved(old(State()), c, gone, State())
        invariant forall j, t | (j, t) in gone :: j == i && (i, t) in matched
        invariant forall t | Has(old(pending), i, t) && t !in names && (i, t) in matched :: (i, t) in gone
        decreases |names|
      {
        var t :| t in names;
        ghost var before := State();
        TryMove(id, topic, c, i, t);
        ghost var one := if (i, t) in matched then iset{(i, t)} else iset{};
        MovedTwice(old(State()), c, gone, before, one, State());
        gone := gone + one;
        names := names - {t};
      }
    }

    /** A topic appears on a client: the matching pending subscriptions it serves move to it. */
    method OnTopicCreated(id: Code, topic: Topic, c: Client)
      modifies `served, `pending
      ensures Moved(old(State()), c, MatchedPlaces(TopicsOf(old(State()), c), id, topic), State())
    {
      ghost var matched := MatchedPlaces(TopicsOf(State(), c), id, topic);
      ghost var gone: iset<Place> := iset{};
      MovedNothing(State(), c);
      var ids := pending.Keys;
      while ids != {}
        invariant Moved(old(State()), c, gone, State())
        invariant forall j, t | (j, t) in gone :: j !in ids && (j, t) in matched
        invariant forall j, t | Has(old(pending), j, t) && j !in ids && (j, t) in matched :: (j, t) in gone
        decreases |ids|
      {
        var i := KeyOrder.Least(ids);
        ids := ids - {i};
        if i in pending && IdMatched(id, i) {
          ghost var before := State();
          ghost var more := MoveTopics(id, topic, c, i);
          MovedTwice(old(State()), c, gone, before, more, State());
          gone := gone + more;
        }
      }
      MovedAgree(old(State()), c, gone, matched, State());
    }

    static method ToTopicInfo(list: seq<TopicInfo>) returns (tbl: TopicTable)
      ensures tbl == FromList(list)
    {
      tbl := map[];
      for n := 0 to |list|
        invariant tbl == FromList(list[..n])
      {
        assert list[..n + 1][..n] == list[..n];
        tbl := tbl[list[n].id := (if list[n].id in tbl then tbl[list[n].id] else map[])[list[n].topic := list[n]]];
      }
      assert list[..|list|] == list;
    }

    /** A client announces its topics. */
    method UpdateTopicList(c: Client, list: seq<TopicInfo>)
      modifies `served, `pending, `topics
      ensures IsTopicUpdate(old(State()), c, list, State())
    {
      var tbl := ToTopicInfo(list);
      topics := topics[c := tbl];
      ghost var start := State();
      MoveListed(c, tbl, list);
      ListMovesWhatItServes(list);
      assert start == old(State()).(topics := old(topics)[c := FromList(list)]);
    }

    method MoveListed(c: Client, ghost tbl: TopicTable, list: seq<TopicInfo>)
      requires TopicsOf(State(), c) == tbl
      modifies `served, `pending
      ensures Moved(old(State()), c, ListedPlaces(tbl, list), State())
    {
      MovedNothing(State(), c);
      for n := 0 to |list|
        invariant Moved(old(State()), c, ListedPlaces(tbl, list[..n]), State())
      {
        ghost var before := State();
        OnTopicCreated(list[n].id, list[n].topic, c);
        assert list[..n + 1][..n] == list[..n];
        MovedTwice(old(State()), c, ListedPlaces(tbl, list[..n]), before, MatchedPlaces(tbl, list[n].id, list[n].topic), State());
      }
      assert list[..|list|] == list;
    }

    method Connect(c: Client)
      modifies `clients
      ensures State() == old(State()).(clients := old(clients) + [c])
    {
      clients := clients + [c];
    }

    /** The listeners of one topic are subscribed again, in order. */
    method Resubscribe(id: Code, topic: Topic, listeners: seq<Listener>)
      modifies `served, `pending
      ensures IsSubscribes(old(State()), Renewed(id, topic, listeners), State())
    {
      NoSubscribes(State());
      for n := 0 to |listeners|
        invariant IsSubscribes(old(State()), Renewed(id, topic, listeners[..n]), State())
      {
        ghost var before := State();
        Subscribe(Subscription(id, topic, listeners[n]));
        OneMoreRenewed(old(State()), id, topic, listeners, n, before, State());
      }
      assert listeners[..|listeners|] == listeners;
    }

    method ResubscribeTopics(h: Handles, id: Code) returns (ghost again: seq<Subscription>)
      requires id in h
      modifies `served, `pending
      ensures IsSubscribes(old(State()), again, State())
      ensures ListsAt(again, h, iset t: Topic | Has(h, id, t) :: (id, t))
    {
      again := [];
      NoSubscribes(State());
      var names := h[id].Keys;
      ghost var done: iset<Place> := iset{};
      while names != {}
        invariant names <= h[id].Keys
        invariant done == iset t: Topic | Has(h, id, t) && t !in names :: (id, t)
        invariant IsSubscribes(old(State()), again, State())
        invariant ListsAt(again, h, done)
        decreases |names|
      {
        var t :| t in names;
        ghost var before := State();
        Resubscribe(id, t, h[id][t]);
        ghost var more := Renewed(id, t, h[id][t]);
        RenewedLists(h, id, t);
        SubscribesConcat(old(State()), again, before, more, State());
        ListsMore(again, more, h, done, iset{(id, t)});
        again := again + more;
        done := done + iset{(id, t)};
        names := names - {t};
      }
    }

    /** A client goes away; everything it served is subscribed again. */
    method Unregister(c: Client)
      requires OccursOnce(clients, c)
      modifies this
      ensures IsUnregister(old(State()), c, State())
    {
      RemoveClient(c);
      ghost var start := State();
      var mine := ServedBy(State(), c);
      ghost var again: seq<Subscription> := [];
      NoSubscribes(start);
      ghost var done: iset<Place> := iset{};
      var ids := mine.Keys;
      while ids != {}
        invariant ids <= mine.Keys
        invariant done == iset i: Code, t: Topic | Has(mine, i, t) && i !in ids :: (i, t)
        invariant IsSubscribes(start, again, State())
        invariant ListsAt(again, mine, done)
        decreases |ids|
      {
        var i := KeyOrder.Least(ids);
        ghost var before := State();
        ghost var more := ResubscribeTopics(mine, i);
        ghost var places := iset t: Topic | Has(mine, i, t) :: (i, t);
        SubscribesConcat(start, again, before, more, State());
        ListsMore(again, more, mine, done, places);
        again := again + more;
        done := done + places;
        ids := ids - {i};
      }
      ghost var q := State();
      served := served - {c};
      topics := topics - {c};
      assert Lists(again, mine);
      assert State() == Drop(q, c);
    }

    method RemoveClient(c: Client)
      modifies `clients
      ensures clients == RemoveFirst(old(clients), c)
    {
      var n := 0;
      while n < |clients|
        invariant n <= |clients| && clients == old(clients)
        invariant RemoveFirst(clients, c) == clients[..n] + RemoveFirst(clients[n..], c)
        decreases |clients| - n
      {
        RemoveFirstAt(clients, n, c);
        if clients[n] == c {
          clients := clients[..n] + clients[n + 1..];
          return;
        }
        n := n + 1;
      }
      assert clients[..n] == clients;
    }
  }
}
