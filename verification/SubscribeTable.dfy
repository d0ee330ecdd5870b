/** The four-level subscription table of an object
    (fdbus/CEventSubscribeHandle.cpp): event -> session -> object -> topic.

    The meaning of the table is a flat map from subscriptions to flags. */
module SubscribeTable {
  import opened Maybes
  import opened EventCode
  import KeyOrder

  /** A session is identified by its id. */
  type SessionId = int
  type ObjectId = int
  type Topic = string
  type Flag = int

  /** The topic that stands for any topic. */
  const ANY_TOPIC: Topic := ""

  type SubItems = map<Topic, Flag>
  type Objects = map<ObjectId, SubItems>
  type Sessions = map<SessionId, Objects>
  type Table = map<Code, Sessions>

  /** One subscription: object `obj` of `session` listens to (code, topic). */
  datatype Key = Key(code: Code, session: SessionId, obj: ObjectId, topic: Topic)

  type FlatMap = imap<Key, Flag>

  // ------------------------------------------------------------------
  // Meaning of each level, and of the whole table.

  function InItems(items: SubItems, topic: Topic): Maybe<Flag> {
    if topic in items then Just(items[topic]) else Nothing
  }

  function InObjects(objects: Objects, obj: ObjectId, topic: Topic): Maybe<Flag> {
    if obj in objects then InItems(objects[obj], topic) else Nothing
  }

  function InSessions(sessions: Sessions, session: SessionId, obj: ObjectId, topic: Topic): Maybe<Flag> {
    if session in sessions then InObjects(sessions[session], obj, topic) else Nothing
  }

  function Lookup(t: Table, k: Key): Maybe<Flag> {
    if k.code in t then InSessions(t[k.code], k.session, k.obj, k.topic) else Nothing
  }

  ghost function Flatten(t: Table): FlatMap {
    imap k: Key | Lookup(t, k).Just? :: Lookup(t, k).value
  }

  ghost predicate PrunedObjects(objects: Objects) {
    forall o | o in objects :: objects[o] != map[]
  }

  ghost predicate PrunedSessions(sessions: Sessions) {
    forall s | s in sessions :: sessions[s] != map[] && PrunedObjects(sessions[s])
  }

  /** No level keeps an empty inner map. */
  ghost predicate Pruned(t: Table) {
    forall c | c in t :: t[c] != map[] && PrunedSessions(t[c])
  }

  // ------------------------------------------------------------------
  // The flat map determines a pruned table.

  lemma ObjectsDetermined(a: Objects, b: Objects)
    requires PrunedObjects(a) && PrunedObjects(b)
    requires forall o, topic :: InObjects(a, o, topic) == InObjects(b, o, topic)
    ensures a == b
  {
    forall o | o in a || o in b ensures o in a && o in b && a[o] == b[o] {
      ItemsDetermined(a, b, o);
    }
  }

  lemma ItemsDetermined(a: Objects, b: Objects, o: ObjectId)
    requires PrunedObjects(a) && PrunedObjects(b)
    requires forall topic :: InObjects(a, o, topic) == InObjects(b, o, topic)
    requires o in a || o in b
    ensures o in a && o in b && a[o] == b[o]
  {
    var m := if o in a then a[o] else b[o];
    var topic :| topic in m.Keys;
    assert InObjects(a, o, topic) == InObjects(b, o, topic);
    forall t ensures InItems(a[o], t) == InItems(b[o], t) {
      assert InObjects(a, o, t) == InObjects(b, o, t);
    }
    forall t | t in a[o] || t in b[o] ensures t in a[o] && t in b[o] && a[o][t] == b[o][t] {
      assert InItems(a[o], t) == InItems(b[o], t);
    }
  }

  lemma ObjectsWitness(objects: Objects) returns (o: ObjectId, topic: Topic)
    requires PrunedObjects(objects) && objects != map[]
    ensures InObjects(objects, o, topic).Just?
  {
    assert objects.Keys != {};
    o := KeyOrder.Least(objects.Keys);
    assert objects[o] != map[];
    topic :| topic in objects[o].Keys;
  }

  lemma SessionsDetermined(a: Sessions, b: Sessions)
    requires PrunedSessions(a) && PrunedSessions(b)
    requires forall s, o, topic :: InSessions(a, s, o, topic) == InSessions(b, s, o, topic)
    ensures a == b
  {
    forall s | s in a || s in b ensures s in a && s in b && a[s] == b[s] {
      var o, topic := ObjectsWitness(if s in a then a[s] else b[s]);
      assert InSessions(a, s, o, topic) == InSessions(b, s, o, topic);
      forall o, topic ensures InObjects(a[s], o, topic) == InObjects(b[s], o, topic) {
        assert InSessions(a, s, o, topic) == InSessions(b, s, o, topic);
      }
      ObjectsDetermined(a[s], b[s]);
    }
  }

  lemma SessionsWitness(sessions: Sessions) returns (s: SessionId, o: ObjectId, topic: Topic)
    requires PrunedSessions(sessions) && sessions != map[]
    ensures InSessions(sessions, s, o, topic).Just?
  {
    assert sessions.Keys != {};
    s := KeyOrder.Least(sessions.Keys);
    o, topic := ObjectsWitness(sessions[s]);
  }

  lemma SameLookup(t: Table, u: Table, k: Key)
    requires Flatten(t) == Flatten(u)
    ensures Lookup(t, k) == Lookup(u, k)
  {
    assert k in Flatten(t) <==> k in Flatten(u);
    if k in Flatten(t) {
      assert Flatten(t)[k] == Flatten(u)[k];
    }
  }

  /** Two pruned tables that mean the same are the same. */
  lemma PrunedTablesAreCanonical(t: Table, u: Table)
    requires Pruned(t) && Pruned(u)
    requires Flatten(t) == Flatten(u)
    ensures t == u
  {
    forall c | c in t || c in u ensures c in t && c in u && t[c] == u[c] {
      var s, o, topic := SessionsWitness(if c in t then t[c] else u[c]);
      SameLookup(t, u, Key(c, s, o, topic));
      forall s, o, topic ensures InSessions(t[c], s, o, topic) == InSessions(u[c], s, o, topic) {
        SameLookup(t, u, Key(c, s, o, topic));
      }
      SessionsDetermined(t[c], u[c]);
    }
  }

  // ------------------------------------------------------------------
  // Writing one level back, dropping it when it became empty.

  function PutItems(objects: Objects, obj: ObjectId, items: SubItems): Objects {
    if items == map[] then objects - {obj} else objects[obj := items]
  }

  function PutObjects(sessions: Sessions, session: SessionId, objects: Objects): Sessions {
    if objects == map[] then sessions - {session} else sessions[session := objects]
  }

  function PutSessions(t: Table, code: Code, sessions: Sessions): Table {
    if sessions == map[] then t - {code} else t[code := sessions]
  }

  lemma PutItemsMeaning(objects: Objects, obj: ObjectId, items: SubItems)
    requires PrunedObjects(objects)
    ensures PrunedObjects(PutItems(objects, obj, items))
    ensures forall o, topic :: InObjects(PutItems(objects, obj, items), o, topic)
                               == if o == obj then InItems(items, topic) else InObjects(objects, o, topic)
  {}

  lemma PutObjectsMeaning(sessions: Sessions, session: SessionId, objects: Objects)
    requires PrunedSessions(sessions) && PrunedObjects(objects)
    ensures PrunedSessions(PutObjects(sessions, session, objects))
    ensures forall s, o, topic :: InSessions(PutObjects(sessions, session, objects), s, o, topic)
                                  == if s == session then InObjects(objects, o, topic) else InSessions(sessions, s, o, topic)
  {}

  lemma PutSessionsMeaning(t: Table, code: Code, sessions: Sessions)
    requires Pruned(t) && PrunedSessions(sessions)
    ensures Pruned(PutSessions(t, code, sessions))
    ensures forall k :: Lookup(PutSessions(t, code, sessions), k)
                        == if k.code == code then InSessions(sessions, k.session, k.obj, k.topic) else Lookup(t, k)
  {}

  // ------------------------------------------------------------------
  // Specification of the updates.

  ghost function Without(f: FlatMap, gone: iset<Key>): FlatMap {
    imap k | k in f && k !in gone :: f[k]
  }

  /** The subscriptions named by one unsubscribe request; no topic means all. */
  ghost function Named(session: SessionId, code: Code, obj: ObjectId, topic: Maybe<Topic>): iset<Key> {
    iset k: Key | k.session == session && k.code == code && k.obj == obj
                  && (topic.Just? ==> k.topic == topic.value)
  }

  ghost function OfSession(session: SessionId): iset<Key> {
    iset k: Key | k.session == session
  }

  ghost function OfObject(obj: ObjectId): iset<Key> {
    iset k: Key | k.obj == obj
  }

  // ------------------------------------------------------------------
  // Specification of delivery.

  /** What a broadcast carries: topic, sender and the no-reflect request. */
  datatype Message = Message(code: Code, topic: Topic, sid: SessionId, oid: ObjectId, noReflect: bool)

  /** Bit 0 of a subscription flag asks not to get back one's own events. */
  predicate NoReflect(f: Flag) {
    f % 2 == 1
  }

  /** The low 16 bits of an object id name its class. */
  function ClassOf(o: ObjectId): int {
    o % 0x1_0000
  }

  /** A subscription to `subscribed` wants an event published under `topic`. */
  predicate Wants(subscribed: Topic, topic: Topic) {
    subscribed == topic || subscribed == ANY_TOPIC
  }

  /** The sender's own subscription, when both sides ask for no reflection. */
  predicate Reflection(msg: Message, k: Key, flag: Flag) {
    msg.noReflect && NoReflect(flag) && msg.sid == k.session && msg.oid == k.obj
  }

  /** Entry `k`, present with flag `entry.value`, matches and is not suppressed. */
  predicate Goes(entry: Maybe<Flag>, k: Key, msg: Message) {
    entry.Just? && Wants(k.topic, msg.topic) && !Reflection(msg, k, entry.value)
  }

  /** One object of one session prefers the exact topic over the wildcard. */
  predicate GoesAlone(objects: Objects, k: Key, msg: Message) {
    && ClassOf(k.obj) == ClassOf(msg.oid)
    && Goes(InObjects(objects, k.obj, k.topic), k, msg)
    && (k.topic == msg.topic || InObjects(objects, k.obj, msg.topic).Nothing?)
  }

  ghost predicate Serves(f: FlatMap, event: Code, topic: Topic, k: Key) {
    k in f && k.code == event && Wants(k.topic, topic)
  }

  /** Object and class of `k` fit a message meant for `session` alone. */
  ghost predicate ServesIn(f: FlatMap, event: Code, session: SessionId, msg: Message, k: Key) {
    Serves(f, event, msg.topic, k) && k.session == session && ClassOf(k.obj) == ClassOf(msg.oid)
  }

  /** Within one session an object prefers the exact topic over the wildcard. */
  ghost predicate ServesAlone(f: FlatMap, event: Code, session: SessionId, msg: Message, k: Key) {
    && ServesIn(f, event, session, msg, k)
    && (k.topic == msg.topic || k.(topic := msg.topic) !in f)
  }

  ghost predicate AnyServedIn(f: FlatMap, event: Code, session: SessionId, msg: Message) {
    exists k :: ServesIn(f, event, session, msg, k)
  }

  ghost predicate AnyServed(f: FlatMap, event: Code, topic: Topic) {
    exists k :: Serves(f, event, topic, k)
  }

  /** The sessions that a broadcast of (event, topic) matches. */
  ghost function Audience(f: FlatMap, event: Code, topic: Topic): iset<SessionId> {
    iset k | Serves(f, event, topic, k) :: k.session
  }

  ghost predicate NoDuplicates(keys: seq<Key>) {
    forall i, j | 0 <= i < j < |keys| :: keys[i] != keys[j]
  }

  /** `sent` lists, once each, the subscriptions that receive `msg` for `event`. */
  ghost predicate SentExactly(f: FlatMap, msg: Message, event: Code, sent: seq<Key>) {
    && NoDuplicates(sent)
    && forall k :: k in sent <==> Serves(f, event, msg.topic, k) && !Reflection(msg, k, f[k])
  }

  ghost predicate IsGreatest(objects: Objects, o: ObjectId) {
    o in objects && forall p | p in objects :: p <= o
  }

  /** Object id `o` is the message's id after a lookup of `event` went through
      the table, having entered with id `before`: the greatest object of the
      session that came last.  Sessions come in the order of their addresses in
      memory, so any session may be the last one. */
  ghost predicate IdAfter(t: Table, event: Code, before: ObjectId, o: ObjectId) {
    if event in t then exists s :: s in t[event] && IsGreatest(t[event][s], o) else o == before
  }

  /** An object of the class of `o`. */
  predicate IsPeer(objects: Objects, o: ObjectId, p: ObjectId) {
    p in objects && ClassOf(p) == ClassOf(o)
  }

  /** The same after a lookup in one session, which skips other classes. */
  ghost predicate IdAfterSession(objects: Objects, before: ObjectId, o: ObjectId) {
    if exists p :: IsPeer(objects, before, p)
    then IsPeer(objects, before, o) && forall p | IsPeer(objects, before, p) :: p <= o
    else o == before
  }

  /** The same while the objects `rest`, the greatest ones, are still to come. */
  ghost predicate LeftBy(objects: Objects, rest: set<ObjectId>, before: ObjectId, o: ObjectId) {
    && (forall p, q | p in objects && p !in rest && q in rest :: p < q)
    && if exists p :: IsPeer(objects, before, p) && p !in rest
       then IsPeer(objects, before, o) && o !in rest && forall p | IsPeer(objects, before, p) && p !in rest :: p <= o
       else o == before
  }

  /** `o` is the greatest of the objects already visited in ascending order. */
  ghost predicate GreatestOfVisited(all: set<ObjectId>, rest: set<ObjectId>, o: ObjectId) {
    && o in all && o !in rest
    && (forall p | p in all && p !in rest :: p <= o)
    && (forall q | q in rest :: o < q)
  }

  lemma VisitNext(all: set<ObjectId>, rest: set<ObjectId>, next: ObjectId)
    requires rest <= all && next in rest && forall q | q in rest :: next <= q
    requires rest == all || exists o :: GreatestOfVisited(all, rest, o)
    ensures GreatestOfVisited(all, rest - {next}, next)
  {}

  lemma LeftByNext(objects: Objects, rest: set<ObjectId>, before: ObjectId, o: ObjectId)
    requires rest != {} && rest <= objects.Keys && LeftBy(objects, rest, before, o)
    ensures var next := KeyOrder.Least(rest);
            LeftBy(objects, rest - {next}, before, if ClassOf(next) == ClassOf(before) then next else o)
  {
    var next := KeyOrder.Least(rest);
    if ClassOf(next) == ClassOf(before) {
      assert IsPeer(objects, before, next);
    }
  }

  lemma AppendNoDuplicates(a: seq<Key>, b: seq<Key>)
    requires NoDuplicates(a) && NoDuplicates(b)
    requires forall k | k in a :: k !in b
    ensures NoDuplicates(a + b)
  {
    forall i, j | 0 <= i < j < |a + b| ensures (a + b)[i] != (a + b)[j] {
      if i < |a| <= j {
        assert (a + b)[i] in a && (a + b)[j] in b;
      }
    }
  }

  lemma FlatUpdate(t: Table, u: Table, key: Key, flag: Flag)
    requires forall k :: Lookup(u, k) == if k == key then Just(flag) else Lookup(t, k)
    ensures Flatten(u) == Flatten(t)[key := flag]
  {}

  lemma FlatWithout(t: Table, u: Table, gone: iset<Key>)
    requires forall k :: Lookup(u, k) == if k in gone then Nothing else Lookup(t, k)
    ensures Flatten(u) == Without(Flatten(t), gone)
  {}

  class EventSubscribeHandle {
    var table: Table

    ghost predicate Valid()
      reads this
    {
      Pruned(table)
    }

    ghost function Flat(): FlatMap
      reads this
    {
      Flatten(table)
    }

    constructor ()
      ensures Valid() && Flat() == imap[]
    {
      table := map[];
    }

    method Subscribe(session: SessionId, code: Code, obj: ObjectId, topic: Topic, flag: Flag)
      requires Valid()
      modifies this
      ensures Valid()
      ensures Flat() == old(Flat())[Key(code, session, obj, topic) := flag]
    {
      var sessions := if code in table then table[code] else map[];
      var objects := if session in sessions then sessions[session] else map[];
      var items := if obj in objects then objects[obj] else map[];
      var items' := items[topic := flag];
      var objects' := PutItems(objects, obj, items');
      var sessions' := PutObjects(sessions, session, objects');
      PutItemsMeaning(objects, obj, items');
      PutObjectsMeaning(sessions, session, objects');
      PutSessionsMeaning(table, code, sessions');
      FlatUpdate(table, PutSessions(table, code, sessions'), Key(code, session, obj, topic), flag);
      table := PutSessions(table, code, sessions');
    }

    method Unsubscribe(session: SessionId, code: Code, obj: ObjectId, topic: Maybe<Topic>)
      requires Valid()
      modifies this
      ensures Valid()
      ensures Flat() == Without(old(Flat()), Named(session, code, obj, topic))
    {
      if code !in table { return; }
      var sessions := table[code];
      if session in sessions {
        var objects := DropNamed(sessions[session], obj, topic);
        PutObjectsMeaning(sessions, session, objects);
        sessions := PutObjects(sessions, session, objects);
      }
      PutSessionsMeaning(table, code, sessions);
      FlatWithout(table, PutSessions(table, code, sessions), Named(session, code, obj, topic));
      table := PutSessions(table, code, sessions);
    }

    static method DropNamed(before: Objects, obj: ObjectId, topic: Maybe<Topic>) returns (objects: Objects)
      requires PrunedObjects(before)
      ensures PrunedObjects(objects)
      ensures forall o, tp :: InObjects(objects, o, tp)
                              == if o == obj && (topic.Just? ==> tp == topic.value) then Nothing else InObjects(before, o, tp)
    {
      objects := before;
      if obj in objects {
        var items: SubItems := if topic.Just? then objects[obj] - {topic.value} else map[];
        PutItemsMeaning(objects, obj, items);
        objects := PutItems(objects, obj, items);
      }
    }

    method UnsubscribeSession(session: SessionId)
      requires Valid()
      modifies this
      ensures Valid()
      ensures Flat() == Without(old(Flat()), OfSession(session))
    {
      var rest := table.Keys;
      while rest != {}
        invariant Valid()
        invariant rest <= table.Keys
        invariant forall k :: Lookup(table, k)
                              == if k.session == session && k.code !in rest then Nothing else Lookup(old(table), k)
        decreases |rest|
      {
        var code := KeyOrder.Least(rest);
        rest := rest - {code};
        PutObjectsMeaning(table[code], session, map[]);
        PutSessionsMeaning(table, code, table[code] - {session});
        table := PutSessions(table, code, table[code] - {session});
      }
      FlatWithout(old(table), table, OfSession(session));
    }

    method UnsubscribeObject(obj: ObjectId)
      requires Valid()
      modifies this
      ensures Valid()
      ensures Flat() == Without(old(Flat()), OfObject(obj))
    {
      var rest := table.Keys;
      while rest != {}
        invariant Valid()
        invariant rest <= table.Keys
        invariant forall k :: Lookup(table, k)
                              == if k.obj == obj && k.code !in rest then Nothing else Lookup(old(table), k)
        decreases |rest|
      {
        var code := KeyOrder.Least(rest);
        rest := rest - {code};
        var sessions := DropObject(table[code], obj);
        PutSessionsMeaning(table, code, sessions);
        table := PutSessions(table, code, sessions);
      }
      FlatWithout(old(table), table, OfObject(obj));
    }

    static method DropObject(before: Sessions, obj: ObjectId) returns (sessions: Sessions)
      requires PrunedSessions(before)
      ensures PrunedSessions(sessions)
      ensures forall s, o, topic :: InSessions(sessions, s, o, topic)
                                    == if o == obj then Nothing else InSessions(before, s, o, topic)
    {
      sessions := before;
      var rest := before.Keys;
      while rest != {}
        invariant rest <= sessions.Keys && PrunedSessions(sessions)
        invariant forall s, o, topic :: InSessions(sessions, s, o, topic)
                                        == if o == obj && s !in rest then Nothing else InSessions(before, s, o, topic)
        decreases |rest|
      {
        var s := KeyOrder.Least(rest);
        rest := rest - {s};
        PutItemsMeaning(sessions[s], obj, map[]);
        PutObjectsMeaning(sessions, s, sessions[s] - {obj});
        sessions := PutObjects(sessions, s, sessions[s] - {obj});
      }
    }

    /** Sends to one object: under the exact topic, then under the wildcard. */
    static method SendToObject(items: SubItems, event: Code, session: SessionId, obj: ObjectId, msg: Message)
      returns (sent: seq<Key>, matched: bool)
      ensures NoDuplicates(sent)
      ensures forall k :: k in sent <==> k.code == event && k.session == session && k.obj == obj
                                         && Goes(InItems(items, k.topic), k, msg)
      ensures matched <==> exists topic :: InItems(items, topic).Just? && Wants(topic, msg.topic)
    {
      sent, matched := [], false;
      if msg.topic in items {
        var k := Key(event, session, obj, msg.topic);
        if !Reflection(msg, k, items[msg.topic]) { sent := [k]; }
        assert InItems(items, msg.topic).Just?;
        matched := true;
      }
      if msg.topic != ANY_TOPIC && ANY_TOPIC in items {
        var k := Key(event, session, obj, ANY_TOPIC);
        if !Reflection(msg, k, items[ANY_TOPIC]) { sent := sent + [k]; }
        assert InItems(items, ANY_TOPIC).Just?;
        matched := true;
      }
    }

    static method SendToSession(objects: Objects, event: Code, session: SessionId, msg: Message)
      returns (sent: seq<Key>, matched: bool, oid: ObjectId)
      requires PrunedObjects(objects) && objects != map[]
      ensures NoDuplicates(sent)
      ensures forall k :: k in sent <==> k.code == event && k.session == session
                                         && Goes(InObjects(objects, k.obj, k.topic), k, msg)
      ensures matched <==> exists o, topic :: InObjects(objects, o, topic).Just? && Wants(topic, msg.topic)
      ensures IsGreatest(objects, oid)
    {
      sent, matched, oid := [], false, msg.oid;
      var rest := objects.Keys;
      while rest != {}
        invariant rest <= objects.Keys
        invariant NoDuplicates(sent)
        invariant forall k :: k in sent <==> k.code == event && k.session == session && k.obj !in rest
                                             && Goes(InObjects(objects, k.obj, k.topic), k, msg)
        invariant matched <==> exists o, topic :: o !in rest && InObjects(objects, o, topic).Just? && Wants(topic, msg.topic)
        invariant rest == objects.Keys || GreatestOfVisited(objects.Keys, rest, oid)
        decreases |rest|
      {
        oid := KeyOrder.Least(rest);
        VisitNext(objects.Keys, rest, oid);
        var more, hit := SendToObject(objects[oid], event, session, oid, msg);
        if hit {
          var topic :| InItems(objects[oid], topic).Just? && Wants(topic, msg.topic);
          assert InObjects(objects, oid, topic).Just?;
        }
        rest := rest - {oid};
        sent, matched := sent + more, matched || hit;
      }
    }

    static method SendToSessions(sessions: Sessions, event: Code, msg: Message)
      returns (sent: seq<Key>, matched: bool, oid: ObjectId)
      requires PrunedSessions(sessions) && sessions != map[]
      ensures NoDuplicates(sent)
      ensures forall k :: k in sent <==> k.code == event
                                         && Goes(InSessions(sessions, k.session, k.obj, k.topic), k, msg)
      ensures matched <==> exists s, o, topic :: InSessions(sessions, s, o, topic).Just? && Wants(topic, msg.topic)
      ensures exists s :: s in sessions && IsGreatest(sessions[s], oid)
    {
      sent, matched, oid := [], false, msg.oid;
      var rest := sessions.Keys;
      while rest != {}
        invariant rest <= sessions.Keys
        invariant NoDuplicates(sent)
        invariant forall k :: k in sent <==> k.code == event && k.session !in rest
                                             && Goes(InSessions(sessions, k.session, k.obj, k.topic), k, msg)
        invariant matched <==> exists s, o, topic :: s !in rest && InSessions(sessions, s, o, topic).Just? && Wants(topic, msg.topic)
        invariant (exists s :: s in sessions && IsGreatest(sessions[s], oid)) || rest == sessions.Keys
        decreases |rest|
      {
        var s := KeyOrder.Least(rest);
        var more, hit;
        more, hit, oid := SendToSession(sessions[s], event, s, msg);
        if hit {
          var o, topic :| InObjects(sessions[s], o, topic).Just? && Wants(topic, msg.topic);
          assert InSessions(sessions, s, o, topic).Just?;
        }
        rest := rest - {s};
        sent, matched := sent + more, matched || hit;
      }
    }

    /** Sends `msg` to every matching subscription of `event`.  The message's
        object id is overwritten on the way; `oid` is what it ends up as. */
    method Broadcast(msg: Message, event: Code) returns (sent: seq<Key>, matched: bool, oid: ObjectId)
      requires Valid()
      ensures SentExactly(Flat(), msg, event, sent)
      ensures matched <==> AnyServed(Flat(), event, msg.topic)
      ensures IdAfter(table, event, msg.oid, oid)
    {
      sent, matched, oid := [], false, msg.oid;
      if event !in table { return; }
      sent, matched, oid := SendToSessions(table[event], event, msg);
      if matched {
        var s, o, topic :| InSessions(table[event], s, o, topic).Just? && Wants(topic, msg.topic);
        assert Serves(Flat(), event, msg.topic, Key(event, s, o, topic));
      }
    }

    /** Sends `msg` to the matching objects of one session that have the class
        of the message's object; the greatest of them is left in the message. */
    method BroadcastTo(msg: Message, session: SessionId, event: Code)
      returns (sent: seq<Key>, matched: bool, oid: ObjectId)
      requires Valid()
      ensures NoDuplicates(sent)
      ensures forall k :: k in sent <==> ServesAlone(Flat(), event, session, msg, k) && !Reflection(msg, k, Flat()[k])
      ensures matched <==> AnyServedIn(Flat(), event, session, msg)
      ensures IdAfterSession(ObjectsOf(table, event, session), msg.oid, oid) && ClassOf(oid) == ClassOf(msg.oid)
    {
      var objects := ObjectsOf(table, event, session);
      sent, matched, oid := SendToPeers(objects, event, session, msg);
      if matched {
        var o, topic :| IsPeer(objects, msg.oid, o) && InObjects(objects, o, topic).Just? && Wants(topic, msg.topic);
        assert ServesIn(Flat(), event, session, msg, Key(event, session, o, topic));
      }
      ServesAloneIs(table, event, session, msg);
    }

    static method SendToPeers(objects: Objects, event: Code, session: SessionId, msg: Message)
      returns (sent: seq<Key>, matched: bool, oid: ObjectId)
      ensures NoDuplicates(sent)
      ensures IdAfterSession(objects, msg.oid, oid)
      ensures forall k :: k in sent <==> k.code == event && k.session == session && GoesAlone(objects, k, msg)
      ensures matched <==> exists o, topic :: IsPeer(objects, msg.oid, o) && InObjects(objects, o, topic).Just? && Wants(topic, msg.topic)
    {
      sent, matched, oid := [], false, msg.oid;
      var rest := objects.Keys;
      while rest != {}
        invariant rest <= objects.Keys
        invariant NoDuplicates(sent)
        invariant forall k :: k in sent <==> k.code == event && k.session == session && k.obj !in rest
                                             && GoesAlone(objects, k, msg)
        invariant matched <==> exists o, topic :: o !in rest && IsPeer(objects, msg.oid, o)
                                                  && InObjects(objects, o, topic).Just? && Wants(topic, msg.topic)
        invariant LeftBy(objects, rest, msg.oid, oid)
        decreases |rest|
      {
        var o := KeyOrder.Least(rest);
        LeftByNext(objects, rest, msg.oid, oid);
        rest := rest - {o};
        if ClassOf(o) == ClassOf(msg.oid) {
          oid := o;
          var topic := if msg.topic in objects[o] then msg.topic else ANY_TOPIC;
          if topic in objects[o] {
            var k := Key(event, session, o, topic);
            if !Reflection(msg, k, objects[o][topic]) { sent := sent + [k]; }
            assert IsPeer(objects, msg.oid, o) && InObjects(objects, o, topic).Just?;
            matched := true;
          }
        }
      }
    }

    /** Adds to `found` every session with a matching subscription. */
    method GetSubscribeTable(code: Code, topic: Topic, found: set<SessionId>) returns (sessions: set<SessionId>)
      requires Valid()
      ensures forall s :: s in sessions <==> s in found || s in Audience(Flat(), code, topic)
    {
      sessions := found;
      if code !in table { return; }
      var rest := table[code].Keys;
      while rest != {}
        invariant rest <= table[code].Keys
        invariant forall s :: s in sessions <==> s in found
                                                 || (s !in rest && exists o, tp :: InSessions(table[code], s, o, tp).Just? && Wants(tp, topic))
        decreases |rest|
      {
        var s := KeyOrder.Least(rest);
        var hit := AnyObjectWants(table[code][s], topic);
        if hit {
          var o, tp :| InObjects(table[code][s], o, tp).Just? && Wants(tp, topic);
          assert InSessions(table[code], s, o, tp).Just?;
          sessions := sessions + {s};
        }
        rest := rest - {s};
      }
      AudienceIs(table, code, topic);
    }

    static method AnyObjectWants(objects: Objects, topic: Topic) returns (hit: bool)
      ensures hit <==> exists o, tp :: InObjects(objects, o, tp).Just? && Wants(tp, topic)
    {
      var rest := objects.Keys;
      while rest != {}
        invariant rest <= objects.Keys
        invariant !exists o, tp :: o !in rest && InObjects(objects, o, tp).Just? && Wants(tp, topic)
        decreases |rest|
      {
        var o := KeyOrder.Least(rest);
        if topic in objects[o] {
          assert InObjects(objects, o, topic).Just?;
          return true;
        }
        if topic != ANY_TOPIC && ANY_TOPIC in objects[o] {
          assert InObjects(objects, o, ANY_TOPIC).Just?;
          return true;
        }
        rest := rest - {o};
      }
      hit := false;
    }
  }

  function ObjectsOf(t: Table, event: Code, session: SessionId): Objects {
    if event in t && session in t[event] then t[event][session] else map[]
  }

  lemma ServesAloneIs(t: Table, event: Code, session: SessionId, msg: Message)
    ensures forall k :: ServesAlone(Flatten(t), event, session, msg, k) && !Reflection(msg, k, Flatten(t)[k])
                        <==> k.code == event && k.session == session && GoesAlone(ObjectsOf(t, event, session), k, msg)
  {
    forall k: Key | k.code == event && k.session == session
      ensures Lookup(t, k) == InObjects(ObjectsOf(t, event, session), k.obj, k.topic)
      ensures Lookup(t, k.(topic := msg.topic)) == InObjects(ObjectsOf(t, event, session), k.obj, msg.topic)
    {}
  }

  lemma AudienceIs(t: Table, code: Code, topic: Topic)
    requires code in t
    ensures forall s :: s in Audience(Flatten(t), code, topic)
                        <==> exists o, tp :: InSessions(t[code], s, o, tp).Just? && Wants(tp, topic)
  {
    forall s, o, tp | InSessions(t[code], s, o, tp).Just? && Wants(tp, topic)
      ensures s in Audience(Flatten(t), code, topic)
    {
      assert Serves(Flatten(t), code, topic, Key(code, s, o, tp));
    }
  }
}
