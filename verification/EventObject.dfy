/** An object that publishes events (fdbus/CFdbBaseObject.cpp): subscriptions
    to single events and to groups, the event cache, and delivery. */
module EventObject {
  import opened Maybes
  import opened EventCode
  import opened SubscribeTable
  import opened EventCache
  import KeyOrder

  /** The subscriptions that a broadcast of (code, topic) consults: the event
      itself, its whole group, and everything. */
  ghost predicate Reaches(w: World, code: Code, topic: Topic, k: Key) {
    || Serves(w.events, code, topic, k)
    || ReachesInGroup(w.groups, code, topic, k)
  }

  ghost function Listeners(w: World, code: Code, topic: Topic): iset<SessionId> {
    iset k | Reaches(w, code, topic, k) :: k.session
  }

  ghost function Keys(sent: seq<Key>): iset<Key> {
    iset k | k in sent
  }

  /** Event subscriptions hold no group code, group subscriptions only group codes. */
  ghost predicate Sorted(events: FlatMap, groups: FlatMap) {
    && (forall k :: k in events ==> !IsGroup(k.code))
    && (forall k :: k in groups ==> IsGroup(k.code))
  }

  ghost predicate ReceivesInGroup(groups: FlatMap, msg: Message, oid1: ObjectId, oid2: ObjectId, k: Key) {
    || (Serves(groups, MakeGroup(msg.code), msg.topic, k) && !Reflection(msg.(oid := oid1), k, groups[k]))
    || (!InGroup(msg.code, ALL_GROUPS) && Serves(groups, EVERYTHING, msg.topic, k)
        && !Reflection(msg.(oid := oid2), k, groups[k]))
  }

  /** Subscription `k` receives `msg` when the two group lookups see the sender
      ids `oid1` and `oid2`. */
  ghost predicate Receives(w: World, msg: Message, oid1: ObjectId, oid2: ObjectId, k: Key) {
    || (Serves(w.events, msg.code, msg.topic, k) && !Reflection(msg, k, w.events[k]))
    || ReceivesInGroup(w.groups, msg, oid1, oid2, k)
  }

  ghost predicate ReachesInGroup(groups: FlatMap, code: Code, topic: Topic, k: Key) {
    Serves(groups, MakeGroup(code), topic, k) || Serves(groups, EVERYTHING, topic, k)
  }

  ghost predicate AnyInGroup(groups: FlatMap, code: Code, topic: Topic) {
    AnyServed(groups, MakeGroup(code), topic) || AnyServed(groups, EVERYTHING, topic)
  }

  ghost predicate AnyListener(w: World, code: Code, topic: Topic) {
    AnyServed(w.events, code, topic) || AnyInGroup(w.groups, code, topic)
  }

  ghost predicate GroupsSent(groups: FlatMap, msg: Message, oid2: ObjectId, sent: seq<Key>) {
    && NoDuplicates(sent)
    && forall k :: k in sent <==> ReceivesInGroup(groups, msg, msg.oid, oid2, k)
  }

  lemma CombineGroups(groups: FlatMap, msg: Message, oid2: ObjectId, sent1: seq<Key>, sent2: seq<Key>)
    requires !InGroup(msg.code, ALL_GROUPS)
    requires SentExactly(groups, msg, MakeGroup(msg.code), sent1)
    requires SentExactly(groups, msg.(oid := oid2), EVERYTHING, sent2)
    ensures GroupsSent(groups, msg, oid2, sent1 + sent2)
  {
    AppendNoDuplicates(sent1, sent2);
  }

  ghost predicate AllSent(w: World, msg: Message, oid1: ObjectId, oid2: ObjectId, sent: seq<Key>) {
    && NoDuplicates(sent)
    && forall k :: k in sent <==> Receives(w, msg, oid1, oid2, k)
  }

  lemma CombineAll(w: World, msg: Message, oid1: ObjectId, oid2: ObjectId, sent1: seq<Key>, sent2: seq<Key>)
    requires Sorted(w.events, w.groups)
    requires SentExactly(w.events, msg, msg.code, sent1)
    requires GroupsSent(w.groups, msg.(oid := oid1), oid2, sent2)
    ensures AllSent(w, msg, oid1, oid2, sent1 + sent2)
  {
    assert forall k | k in sent1 :: k in w.events;
    assert forall k | k in sent2 :: k in w.groups;
    AppendNoDuplicates(sent1, sent2);
  }

  class EventObject {
    const events: EventSubscribeHandle
    const groups: EventSubscribeHandle
    const objId: ObjectId
    const settings: Settings
    var cache: CacheTable
    ghost var got: Inbox

    ghost predicate Valid()
      reads this, events, groups
    {
      events != groups && events.Valid() && groups.Valid() && Sorted(events.Flat(), groups.Flat())
    }

    ghost function W(): World
      reads this, events, groups
    {
      World(events.Flat(), groups.Flat(), cache, got)
    }

    constructor (objId: ObjectId, settings: Settings)
      ensures Valid() && fresh(events) && fresh(groups)
      ensures W() == World(imap[], imap[], map[], imap[])
    {
      var e := new EventSubscribeHandle();
      var g := new EventSubscribeHandle();
      events, groups, this.objId, this.settings := e, g, objId, settings;
      cache, got := map[], imap[];
    }

    method Subscribe(session: SessionId, code: Code, obj: ObjectId, topic: Topic, flag: Flag)
      requires Valid()
      modifies events, groups
      ensures Valid()
      ensures W() == if IsGroup(code)
                     then old(W()).(groups := old(W()).groups[Key(code, session, obj, topic) := flag])
                     else old(W()).(events := old(W()).events[Key(code, session, obj, topic) := flag])
    {
      if IsGroup(code) {
        groups.Subscribe(session, code, obj, topic, flag);
      } else {
        events.Subscribe(session, code, obj, topic, flag);
      }
    }

    method Unsubscribe(session: SessionId, code: Code, obj: ObjectId, topic: Maybe<Topic>)
      requires Valid()
      modifies events, groups
      ensures Valid()
      ensures W() == if IsGroup(code)
                     then old(W()).(groups := Without(old(W()).groups, Named(session, code, obj, topic)))
                     else old(W()).(events := Without(old(W()).events, Named(session, code, obj, topic)))
      ensures Next(old(W()), UnsubscribeStep, settings, W())
    {
      if IsGroup(code) {
        groups.Unsubscribe(session, code, obj, topic);
      } else {
        events.Unsubscribe(session, code, obj, topic);
      }
    }

    method UnsubscribeSession(session: SessionId)
      requires Valid()
      modifies events, groups
      ensures Valid()
      ensures W() == old(W()).(events := Without(old(W()).events, OfSession(session)),
                               groups := Without(old(W()).groups, OfSession(session)))
      ensures Next(old(W()), UnsubscribeStep, settings, W())
    {
      groups.UnsubscribeSession(session);
      events.UnsubscribeSession(session);
    }

    method UnsubscribeObject(obj: ObjectId)
      requires Valid()
      modifies events, groups
      ensures Valid()
      ensures W() == old(W()).(events := Without(old(W()).events, OfObject(obj)),
                               groups := Without(old(W()).groups, OfObject(obj)))
      ensures Next(old(W()), UnsubscribeStep, settings, W())
    {
      groups.UnsubscribeObject(obj);
      events.UnsubscribeObject(obj);
    }

    /** Stores the message in the cache unless the event is exempt. */
    method UpdateEventCache(u: Update) returns (action: Action)
      modifies this`cache
      ensures action == ActionFor(old(cache), u, settings)
      ensures cache == CacheAfter(old(cache), u, settings)
    {
      var cached := Get(cache, u.code, u.topic);
      if cached.Just? && !cached.value.allowCache {
        return Bypass;
      }
      var route := if cached.Just? then cached.value.allowRoute else settings.route;
      if !settings.client && u.published && !route {
        return Bypass;
      }
      cache := Put(cache, u.code, u.topic, EventData(u.payload, route, true));
      return if Changes(cached, u.payload) || u.forced then Forward else Drop;
    }

    method BroadcastGroups(msg: Message) returns (sent: seq<Key>, matched: bool, oid2: ObjectId)
      requires groups.Valid()
      ensures GroupsSent(groups.Flat(), msg, oid2, sent)
      ensures matched <==> AnyInGroup(groups.Flat(), msg.code, msg.topic)
      ensures IdAfter(groups.table, MakeGroup(msg.code), msg.oid, oid2)
    {
      sent, matched, oid2 := groups.Broadcast(msg, MakeGroup(msg.code));
      if !InGroup(msg.code, ALL_GROUPS) {
        var sent2, matched2, oid3 := groups.Broadcast(msg.(oid := oid2), EVERYTHING);
        CombineGroups(groups.Flat(), msg, oid2, sent, sent2);
        sent, matched := sent + sent2, matched || matched2;
      }
    }

    /** Sends to the event's subscribers, then to its group's, then to those of
        everything.  Each lookup leaves its last object id in the message. */
    method BroadcastMsg(msg: Message, payload: Bytes)
      returns (sent: seq<Key>, matched: bool, ghost oid1: ObjectId, ghost oid2: ObjectId)
      requires Valid()
      modifies this`got
      ensures Valid()
      ensures W() == old(W()).(got := Deliver(old(got), Keys(sent), msg.code, msg.topic, payload))
      ensures AllSent(old(W()), msg, oid1, oid2, sent)
      ensures matched <==> AnyListener(old(W()), msg.code, msg.topic)
      ensures Possible(events.table, groups.table, msg, oid1, oid2)
    {
      var oid, more, hit, last;
      sent, matched, oid := events.Broadcast(msg, msg.code);
      more, hit, last := BroadcastGroups(msg.(oid := oid));
      CombineAll(W(), msg, oid, last, sent, more);
      sent, matched := sent + more, matched || hit;
      oid1, oid2 := oid, last;
      got := Deliver(got, Keys(sent), msg.code, msg.topic, payload);
    }

    /** Broadcasts to everybody, unless the value is an unforced repeat. */
    method Broadcast(u: Update, msg: Message) returns (ok: bool)
      requires Valid() && !u.published && msg.code == u.code && msg.topic == u.topic && !msg.noReflect
      modifies this`cache, this`got
      ensures Valid()
      ensures !ActionFor(old(cache), u, settings).Bypass? ==> IsSend(old(W()), u, settings, W())
      ensures ok <==> !ActionFor(old(cache), u, settings).Drop? && AnyListener(old(W()), u.code, u.topic)
    {
      ghost var before := W();
      var action := UpdateEventCache(u);
      if action.Drop? {
        return false;
      }
      var sent;
      ghost var oid1, oid2;
      sent, ok, oid1, oid2 := BroadcastMsg(msg, u.payload);
      if action.Forward? {
        ForwardIsSend(before, u, settings, msg, oid1, oid2, sent, W());
      }
    }

    /** Handles an event published by session `sid`: forwards it to everybody
        but the publisher, or hands it to the user. */
    method DoPublish(u: Update, sid: SessionId) returns (toUser: bool)
      requires Valid() && u.published
      modifies this`cache, this`got
      ensures Valid()
      ensures IsSend(old(W()), u, settings, W())
      ensures toUser <==> match ActionFor(old(cache), u, settings)
                          case Bypass => true
                          case Drop => false
                          case Forward => !AnyListener(old(W()), u.code, u.topic)
    {
      var action := UpdateEventCache(u);
      var published := false;
      if action.Forward? {
        var msg := Message(u.code, u.topic, sid, objId, true);
        var sent;
        ghost var oid1, oid2;
        sent, published, oid1, oid2 := BroadcastMsg(msg, u.payload);
        ForwardIsSend(old(W()), u, settings, msg, oid1, oid2, sent, W());
      }
      toUser := !action.Drop? && !published;
    }

    /** Broadcasts to the objects of one session, through the first of the
        three lookups that matches. */
    method BroadcastToSession(u: Update, msg: Message, session: SessionId)
      returns (ok: bool, ghost sent: seq<Key>, ghost oid1: ObjectId, ghost oid2: ObjectId)
      requires Valid() && !u.published && msg.code == u.code && msg.topic == u.topic
      modifies this`cache, this`got
      ensures Valid()
      ensures W() == old(W()).(cache := CacheAfter(old(cache), u, settings),
                               got := Deliver(old(got), Keys(sent), u.code, u.topic, u.payload))
      ensures ok <==> ActionFor(old(cache), u, settings).Drop? || AnyListenerIn(old(W()), session, msg)
      ensures ActionFor(old(cache), u, settings).Drop? ==> sent == []
      ensures !ActionFor(old(cache), u, settings).Drop? ==>
                IsSessionSend(events.table, groups.table, session, msg, oid1, oid2, sent) && PrimesSession(old(W()).events, session, msg, sent)
    {
      sent, oid1, oid2 := [], msg.oid, msg.oid;
      var action := UpdateEventCache(u);
      if action.Drop? {
        NothingSent(got, u.code, u.topic, u.payload);
        return true, sent, oid1, oid2;
      }
      var keys;
      keys, ok, oid1, oid2 := SendInSession(msg, session);
      sent := keys;
      got := Deliver(got, Keys(sent), u.code, u.topic, u.payload);
    }

    /** The lookups of a broadcast to one session; the next one is made only if
        the one before matched nothing, with the object id it left behind. */
    method SendInSession(msg: Message, session: SessionId)
      returns (sent: seq<Key>, matched: bool, ghost oid1: ObjectId, ghost oid2: ObjectId)
      requires Valid()
      ensures matched <==> AnyListenerIn(W(), session, msg)
      ensures PrimesSession(events.Flat(), session, msg, sent)
      ensures IsSessionSend(events.table, groups.table, session, msg, oid1, oid2, sent)
    {
      var oid;
      sent, matched, oid := events.BroadcastTo(msg, session, msg.code);
      oid1, oid2 := oid, oid;
      if matched {
        SessionPrimed(events.Flat(), session, msg, sent);
      } else {
        NoneToPrime(events.Flat(), session, msg);
        sent, matched, oid2 := SendInGroups(msg.(oid := oid), session);
        SameClass(groups.Flat(), MakeGroup(msg.code), session, msg, oid);
        SameClass(groups.Flat(), EVERYTHING, session, msg, oid);
      }
    }

    method SendInGroups(msg: Message, session: SessionId) returns (sent: seq<Key>, matched: bool, ghost oid2: ObjectId)
      requires groups.Valid()
      ensures matched <==> AnyServedIn(groups.Flat(), MakeGroup(msg.code), session, msg)
                           || AnyServedIn(groups.Flat(), EVERYTHING, session, msg)
      ensures IsGroupSend(groups.table, session, msg, oid2, sent)
    {
      var oid;
      sent, matched, oid := groups.BroadcastTo(msg, session, MakeGroup(msg.code));
      oid2 := oid;
      if !matched && !InGroup(msg.code, ALL_GROUPS) {
        SameClass(groups.Flat(), EVERYTHING, session, msg, oid);
        sent, matched, oid := groups.BroadcastTo(msg.(oid := oid), session, EVERYTHING);
      }
    }

    /** Sends one cached value to the objects of a session. */
    method SendCached(session: SessionId, obj: ObjectId, code: Code, topic: Topic)
      requires Valid() && Get(cache, code, topic).Just? && AllCacheable(cache)
      modifies this`cache, this`got
      ensures Valid() && cache == old(cache)
      ensures OnlyRefreshes(cache, old(got), got)
      ensures forall k :: Serves(events.Flat(), code, topic, k) && k.session == session && k.obj == obj ==>
                            Holds(cache, got, Receipt(session, obj, code, topic))
    {
      var d := Get(cache, code, topic).value;
      var u := Update(code, topic, d.data, false, true);
      var msg := Message(code, topic, session, obj, false);
      RestoringChangesNothing(cache, u, settings);
      var ok;
      ghost var sent;
      ghost var oid1, oid2;
      ok, sent, oid1, oid2 := BroadcastToSession(u, msg, session);
      DeliveringCachedRefreshes(cache, old(got), sent, u);
      forall k | Serves(events.Flat(), code, topic, k) && k.session == session && k.obj == obj
        ensures Holds(cache, got, Receipt(session, obj, code, topic))
      {
        assert ServesIn(events.Flat(), code, session, msg, k);
      }
    }

    /** Sends every cached value of `code` to the objects of a session. */
    method SendAllCached(session: SessionId, obj: ObjectId, code: Code)
      requires Valid() && AllCacheable(cache)
      modifies this`cache, this`got
      ensures Valid() && cache == old(cache)
      ensures OnlyRefreshes(cache, old(got), got)
      ensures Key(code, session, obj, ANY_TOPIC) in events.Flat() ==> HoldsAllBut(cache, got, session, obj, code, {})
    {
      var rest := if code in cache then cache[code].Keys else {};
      while rest != {}
        invariant cache == old(cache) && Valid()
        invariant forall t | t in rest :: Get(cache, code, t).Just?
        invariant OnlyRefreshes(cache, old(got), got)
        invariant Key(code, session, obj, ANY_TOPIC) in events.Flat() ==> HoldsAllBut(cache, got, session, obj, code, rest)
        decreases |rest|
      {
        var t :| t in rest;
        ghost var before := got;
        SendCached(session, obj, code, t);
        assert Key(code, session, obj, ANY_TOPIC) in events.Flat() ==>
            Serves(events.Flat(), code, t, Key(code, session, obj, ANY_TOPIC));
        RefreshesCompose(cache, old(got), before, got);
        rest := rest - {t};
      }
    }

    /** Sends the cached values that one subscription item asks for. */
    method SendCachedFor(session: SessionId, obj: ObjectId, item: Item)
      requires Valid() && AllCacheable(cache)
      requires ItemKey(session, obj, item) in events.Flat() || IsGroup(item.code)
      modifies this`cache, this`got
      ensures Valid() && cache == old(cache)
      ensures OnlyRefreshes(cache, old(got), got)
      ensures IsGroup(item.code) || Primed(cache, got, session, obj, item)
    {
      var topic := TopicOf(item);
      if topic == ANY_TOPIC {
        SendAllCached(session, obj, item.code);
      } else if Get(cache, item.code, topic).Just? {
        SendCached(session, obj, item.code, topic);
        assert !IsGroup(item.code) ==> Serves(events.Flat(), item.code, topic, ItemKey(session, obj, item));
      }
    }

    method BroadcastCached(session: SessionId, obj: ObjectId, items: seq<Item>)
      requires Valid() && AllCacheable(cache)
      requires AllEntered(events.Flat(), session, obj, items)
      modifies this`cache, this`got
      ensures Valid() && cache == old(cache)
      ensures OnlyRefreshes(cache, old(got), got)
      ensures AllPrimed(cache, got, session, obj, items)
      ensures items == [] ==> got == old(got)
    {
      for n := 0 to |items|
        invariant Valid() && cache == old(cache)
        invariant n == 0 ==> got == old(got)
        invariant OnlyRefreshes(cache, old(got), got)
        invariant AllPrimed(cache, got, session, obj, items[..n])
      {
        ghost var before := got;
        SendCachedFor(session, obj, items[n]);
        RefreshesCompose(cache, old(got), before, got);
        PrimedStays(cache, before, got, session, obj, items[..n]);
        OneMorePrimed(cache, got, session, obj, items, n);
      }
      assert items[..|items|] == items;
    }

    /** One item; authentication is asked again for each, and looks at the same things. */
    method EnterItem(session: SessionId, obj: ObjectId, item: Item, access: Access)
      requires Valid()
      modifies events, groups
      ensures Valid()
      ensures events.Flat() == EnterIf(old(events.Flat()), session, obj, item, MayGetEvents(access), false)
      ensures groups.Flat() == EnterIf(old(groups.Flat()), session, obj, item, MayGetEvents(access), true)
    {
      if MayGetEvents(access) {
        Subscribe(session, item.code, obj, TopicOf(item), item.flag);
      } else {
        Unsubscribe(session, item.code, obj, item.topic);
      }
    }

    /** Enters the items of a granted request and removes those of a refused one. */
    method EnterItems(session: SessionId, obj: ObjectId, items: seq<Item>, access: Access)
      requires Valid()
      modifies events, groups
      ensures Valid()
      ensures events.Flat() == Enter(old(events.Flat()), session, obj, items, MayGetEvents(access), false)
      ensures groups.Flat() == Enter(old(groups.Flat()), session, obj, items, MayGetEvents(access), true)
    {
      for n := 0 to |items|
        invariant Valid()
        invariant events.Flat() == Enter(old(events.Flat()), session, obj, items[..n], MayGetEvents(access), false)
        invariant groups.Flat() == Enter(old(groups.Flat()), session, obj, items[..n], MayGetEvents(access), true)
      {
        EnterItem(session, obj, items[n], access);
        EnterNext(old(events.Flat()), session, obj, items, n, MayGetEvents(access), false);
        EnterNext(old(groups.Flat()), session, obj, items, n, MayGetEvents(access), true);
      }
      assert items[..|items|] == items;
    }

    /** Handles a subscription request: enters its items and sends them cached
        values, or removes them all. */
    method DoSubscribeReq(session: SessionId, obj: ObjectId, items: seq<Item>, access: Access) returns (granted: bool)
      requires Valid() && AllCacheable(cache)
      modifies this`cache, this`got, events, groups
      ensures Valid()
      ensures granted <==> MayGetEvents(access) || items == []
      ensures Next(old(W()), SubscribeStep(session, obj, items, access), settings, W())
    {
      EnterItems(session, obj, items, access);
      granted := MayGetEvents(access) || items == [];
      if granted {
        GrantedItemsEntered(old(events.Flat()), session, obj, items, MayGetEvents(access));
        BroadcastCached(session, obj, items);
      }
    }

    /** The sessions subscribed to (code, topic) in any of the three ways. */
    method GetSubscribeTable(code: Code, topic: Topic) returns (sessions: set<SessionId>)
      requires Valid()
      ensures forall s :: s in sessions <==> s in Listeners(W(), code, topic)
    {
      sessions := events.GetSubscribeTable(code, topic, {});
      sessions := groups.GetSubscribeTable(MakeGroup(code), topic, sessions);
      if !InGroup(code, ALL_GROUPS) {
        sessions := groups.GetSubscribeTable(EVERYTHING, topic, sessions);
      }
      ListenersAre(W(), code, topic);
    }
  }

  // ------------------------------------------------------------------

  ghost predicate AnyListenerIn(w: World, session: SessionId, msg: Message) {
    || AnyServedIn(w.events, msg.code, session, msg)
    || AnyServedIn(w.groups, MakeGroup(msg.code), session, msg)
    || AnyServedIn(w.groups, EVERYTHING, session, msg)
  }

  /** What one lookup sends to a session: each object's preferred subscription,
      unless it is suppressed. */
  ghost predicate SentAlone(f: FlatMap, event: Code, session: SessionId, msg: Message, sent: seq<Key>) {
    && NoDuplicates(sent)
    && forall k :: k in sent <==> ServesAlone(f, event, session, msg, k) && !Reflection(msg, k, f[k])
  }

  /** The group lookups: the second one, for all events, is made only when the
      first one matches nothing, with the object id `oid2` that one left. */
  ghost predicate IsGroupSend(groups: Table, session: SessionId, msg: Message, oid2: ObjectId, sent: seq<Key>) {
    var group := MakeGroup(msg.code);
    && IdAfterSession(ObjectsOf(groups, group, session), msg.oid, oid2)
    && if AnyServedIn(Flatten(groups), group, session, msg) || InGroup(msg.code, ALL_GROUPS)
       then SentAlone(Flatten(groups), group, session, msg, sent)
       else SentAlone(Flatten(groups), EVERYTHING, session, msg.(oid := oid2), sent)
  }

  /** A broadcast to one session: its event subscriptions, and only when none
      matches its groups, with the object id `oid1` that the lookup left. */
  ghost predicate IsSessionSend(events: Table, groups: Table, session: SessionId, msg: Message, oid1: ObjectId, oid2: ObjectId,
                                sent: seq<Key>) {
    && IdAfterSession(ObjectsOf(events, msg.code, session), msg.oid, oid1)
    && if AnyServedIn(Flatten(events), msg.code, session, msg) then SentAlone(Flatten(events), msg.code, session, msg, sent)
       else IsGroupSend(groups, session, msg.(oid := oid1), oid2, sent)
  }

  /** Every matching, unsuppressed event subscription of the session is hit. */
  ghost predicate PrimesSession(events: FlatMap, session: SessionId, msg: Message, sent: seq<Key>) {
    !msg.noReflect ==>
      forall k :: ServesIn(events, msg.code, session, msg, k) ==>
                    Hit(Keys(sent), msg.code, msg.topic, Receipt(session, k.obj, msg.code, msg.topic))
  }

  lemma NoneToPrime(events: FlatMap, session: SessionId, msg: Message)
    requires !AnyServedIn(events, msg.code, session, msg)
    ensures forall sent :: PrimesSession(events, session, msg, sent)
  {}

  /** Which subscriptions of a session match depends on the sender's class only. */
  lemma SameClass(f: FlatMap, event: Code, session: SessionId, msg: Message, oid: ObjectId)
    requires ClassOf(oid) == ClassOf(msg.oid)
    ensures AnyServedIn(f, event, session, msg.(oid := oid)) <==> AnyServedIn(f, event, session, msg)
  {
    forall k ensures ServesIn(f, event, session, msg.(oid := oid), k) <==> ServesIn(f, event, session, msg, k) {}
  }

  lemma NothingSent(got: Inbox, code: Code, topic: Topic, payload: Bytes)
    ensures Deliver(got, Keys([]), code, topic, payload) == got
  {}

  lemma SessionPrimed(events: FlatMap, session: SessionId, msg: Message, sent: seq<Key>)
    requires forall k :: k in sent <==> ServesAlone(events, msg.code, session, msg, k) && !Reflection(msg, k, events[k])
    ensures PrimesSession(events, session, msg, sent)
  {
    if !msg.noReflect {
      forall k | ServesIn(events, msg.code, session, msg, k)
        ensures Hit(Keys(sent), msg.code, msg.topic, Receipt(session, k.obj, msg.code, msg.topic))
      {
        var exact := k.(topic := msg.topic);
        var via := if exact in events then exact else k;
        assert ServesAlone(events, msg.code, session, msg, via);
        assert via in Keys(sent);
      }
    }
  }

  /** A broadcast reaches every follower of the event. */
  lemma ForwardIsSend(w: World, u: Update, s: Settings, msg: Message, oid1: ObjectId, oid2: ObjectId, sent: seq<Key>, w': World)
    requires ActionFor(w.cache, u, s).Forward? && msg.code == u.code && msg.topic == u.topic
    requires AllSent(w.(cache := CacheAfter(w.cache, u, s)), msg, oid1, oid2, sent)
    requires w' == w.(cache := CacheAfter(w.cache, u, s), got := Deliver(w.got, Keys(sent), u.code, u.topic, u.payload))
    ensures IsSend(w, u, s, w')
  {
    assert ReachesFollowers(w.events, Keys(sent), u.code, u.topic);
  }

  lemma ListenersAre(w: World, code: Code, topic: Topic)
    ensures forall s :: s in Listeners(w, code, topic)
                        <==> s in Audience(w.events, code, topic) || s in Audience(w.groups, MakeGroup(code), topic)
                             || s in Audience(w.groups, EVERYTHING, topic)
  {
    forall s, k: Key | k.session == s && (Serves(w.events, code, topic, k) || Serves(w.groups, MakeGroup(code), topic, k)
                                     || Serves(w.groups, EVERYTHING, topic, k))
      ensures s in Listeners(w, code, topic)
    {
      assert Reaches(w, code, topic, k);
    }
  }

  /** Receipt `r` is for a cached event and carries the cached value. */
  ghost predicate Holds(cache: CacheTable, got: Inbox, r: Receipt) {
    Get(cache, r.code, r.topic).Just? && r in got && got[r] == Get(cache, r.code, r.topic).value.data
  }

  lemma RestoringChangesNothing(cache: CacheTable, u: Update, s: Settings)
    requires AllCacheable(cache) && !u.published && u.forced
    requires Get(cache, u.code, u.topic).Just? && Get(cache, u.code, u.topic).value.data == u.payload
    ensures CacheAfter(cache, u, s) == cache
    ensures ActionFor(cache, u, s).Forward?
  {
    assert cache[u.code][u.topic := cache[u.code][u.topic]] == cache[u.code];
    assert cache[u.code := cache[u.code]] == cache;
  }

  lemma DeliveringCachedRefreshes(cache: CacheTable, got: Inbox, sent: seq<Key>, u: Update)
    requires Get(cache, u.code, u.topic).Just? && Get(cache, u.code, u.topic).value.data == u.payload
    ensures OnlyRefreshes(cache, got, Deliver(got, Keys(sent), u.code, u.topic, u.payload))
  {}

  lemma RefreshesCompose(cache: CacheTable, a: Inbox, b: Inbox, c: Inbox)
    requires OnlyRefreshes(cache, a, b) && OnlyRefreshes(cache, b, c)
    ensures OnlyRefreshes(cache, a, c)
    ensures forall r :: Holds(cache, b, r) ==> Holds(cache, c, r)
  {}

  ghost predicate HoldsAllBut(cache: CacheTable, got: Inbox, session: SessionId, obj: ObjectId, code: Code, rest: set<Topic>) {
    forall t :: Get(cache, code, t).Just? && t !in rest ==> Holds(cache, got, Receipt(session, obj, code, t))
  }

  ghost predicate AllPrimed(cache: CacheTable, got: Inbox, session: SessionId, obj: ObjectId, items: seq<Item>) {
    forall i | 0 <= i < |items| && !IsGroup(items[i].code) :: Primed(cache, got, session, obj, items[i])
  }

  ghost predicate AllEntered(events: FlatMap, session: SessionId, obj: ObjectId, items: seq<Item>) {
    forall i | 0 <= i < |items| && !IsGroup(items[i].code) :: ItemKey(session, obj, items[i]) in events
  }

  lemma PrimedStays(cache: CacheTable, before: Inbox, after: Inbox, session: SessionId, obj: ObjectId, items: seq<Item>)
    requires OnlyRefreshes(cache, before, after)
    requires AllPrimed(cache, before, session, obj, items)
    ensures AllPrimed(cache, after, session, obj, items)
  {}

  lemma OneMorePrimed(cache: CacheTable, got: Inbox, session: SessionId, obj: ObjectId, items: seq<Item>, n: nat)
    requires n < |items| && AllPrimed(cache, got, session, obj, items[..n])
    requires IsGroup(items[n].code) || Primed(cache, got, session, obj, items[n])
    ensures AllPrimed(cache, got, session, obj, items[..n + 1])
  {
    assert forall i | 0 <= i < n :: items[..n + 1][i] == items[..n][i];
  }

  lemma EnterNext(f: FlatMap, session: SessionId, obj: ObjectId, items: seq<Item>, n: nat, granted: bool, group: bool)
    requires n < |items|
    ensures Enter(f, session, obj, items[..n + 1], granted, group)
            == EnterIf(Enter(f, session, obj, items[..n], granted, group), session, obj, items[n], granted, group)
  {
    assert items[..n + 1][..n] == items[..n];
  }

  lemma GrantedItemsEntered(events: FlatMap, session: SessionId, obj: ObjectId, items: seq<Item>, granted: bool)
    requires granted || items == []
    ensures AllEntered(Enter(events, session, obj, items, granted, false), session, obj, items)
  {
    forall i | 0 <= i < |items| && !IsGroup(items[i].code)
      ensures ItemKey(session, obj, items[i]) in Enter(events, session, obj, items, granted, false)
    {
      EnterKeeps(events, session, obj, items, false, i);
    }
  }

  // ------------------------------------------------------------------
  // Query and delivery agree.

  /** A broadcast reaches exactly the sessions that the query reports; only the
      sender's own session can be missing, and only on a no-reflect message. */
  lemma QueryMatchesBroadcast(w: World, msg: Message, oid1: ObjectId, oid2: ObjectId, sent: seq<Key>)
    requires AllSent(w, msg, oid1, oid2, sent)
    ensures AnyListener(w, msg.code, msg.topic) <==> exists s :: s in Listeners(w, msg.code, msg.topic)
    ensures forall k | k in sent :: k.session in Listeners(w, msg.code, msg.topic)
    ensures forall s :: s in Listeners(w, msg.code, msg.topic) && !(msg.noReflect && s == msg.sid) ==>
                          exists k :: k in sent && k.session == s
  {
    ListenersAre(w, msg.code, msg.topic);
    forall s | s in Listeners(w, msg.code, msg.topic) && !(msg.noReflect && s == msg.sid)
      ensures exists k :: k in sent && k.session == s
    {
      var k :| Reaches(w, msg.code, msg.topic, k) && k.session == s;
      assert Receives(w, msg, oid1, oid2, k);
    }
    forall k | k in sent ensures k.session in Listeners(w, msg.code, msg.topic) {
      assert Receives(w, msg, oid1, oid2, k);
      assert Reaches(w, msg.code, msg.topic, k);
    }
    if AnyListener(w, msg.code, msg.topic) {
      var k :| Serves(w.events, msg.code, msg.topic, k) || Serves(w.groups, MakeGroup(msg.code), msg.topic, k)
               || Serves(w.groups, EVERYTHING, msg.topic, k);
      assert Reaches(w, msg.code, msg.topic, k);
      assert k.session in Listeners(w, msg.code, msg.topic);
    }
  }

  ghost predicate OneClass(w: World, class_: int) {
    && (forall k :: k in w.events ==> ClassOf(k.obj) == class_)
    && (forall k :: k in w.groups ==> ClassOf(k.obj) == class_)
  }

  /** With one object class, a broadcast to one session finds a match exactly
      for the sessions that the query reports. */
  lemma QueryMatchesSessionBroadcast(w: World, msg: Message, session: SessionId)
    requires OneClass(w, ClassOf(msg.oid))
    ensures AnyListenerIn(w, session, msg) <==> session in Listeners(w, msg.code, msg.topic)
  {
    ListenersAre(w, msg.code, msg.topic);
    OneClassAudience(w.events, msg.code, msg, session);
    OneClassAudience(w.groups, MakeGroup(msg.code), msg, session);
    OneClassAudience(w.groups, EVERYTHING, msg, session);
  }

  lemma OneClassAudience(f: FlatMap, event: Code, msg: Message, session: SessionId)
    requires forall k :: k in f ==> ClassOf(k.obj) == ClassOf(msg.oid)
    ensures AnyServedIn(f, event, session, msg) <==> session in Audience(f, event, msg.topic)
  {
    if session in Audience(f, event, msg.topic) {
      var k :| Serves(f, event, msg.topic, k) && k.session == session;
      assert ServesIn(f, event, session, msg, k);
    }
  }

  // ------------------------------------------------------------------
  // No-reflect and group subscriptions.

  /** Suppression works as if every lookup saw the sender's own object id. */
  ghost predicate SuppressesExactly(w: World, msg: Message, oid1: ObjectId, oid2: ObjectId) {
    forall k :: Receives(w, msg, oid1, oid2, k) <==> Receives(w, msg, msg.oid, msg.oid, k)
  }

  /** The object ids that the two group lookups can see as the sender's, over
      all orders of the sessions. */
  ghost predicate Possible(events: Table, groups: Table, msg: Message, oid1: ObjectId, oid2: ObjectId) {
    IdAfter(events, msg.code, msg.oid, oid1) && IdAfter(groups, MakeGroup(msg.code), oid1, oid2)
  }

  /** No-reflect group subscriptions of the sender's session, for the lookups
      of the event's group and of everything. */
  ghost predicate OwnGroupEntry(w: World, msg: Message, event: Code, k: Key) {
    Serves(w.groups, event, msg.topic, k) && NoReflect(w.groups[k]) && k.session == msg.sid
  }

  lemma SuppressionFor(w: World, msg: Message, oid1: ObjectId, oid2: ObjectId)
    requires Sorted(w.events, w.groups) && msg.noReflect
    ensures SuppressesExactly(w, msg, oid1, oid2) <==>
            && (forall k | OwnGroupEntry(w, msg, MakeGroup(msg.code), k) :: k.obj == oid1 <==> k.obj == msg.oid)
            && (!InGroup(msg.code, ALL_GROUPS) ==>
                  forall k | OwnGroupEntry(w, msg, EVERYTHING, k) :: k.obj == oid2 <==> k.obj == msg.oid)
  {
    forall k ensures Receives(w, msg, oid1, oid2, k) == Receives(w, msg, msg.oid, msg.oid, k) <==>
                     && (OwnGroupEntry(w, msg, MakeGroup(msg.code), k) ==> (k.obj == oid1 <==> k.obj == msg.oid))
                     && (!InGroup(msg.code, ALL_GROUPS) && OwnGroupEntry(w, msg, EVERYTHING, k) ==>
                           (k.obj == oid2 <==> k.obj == msg.oid))
    {}
  }

  /** Object `o` of the sender's session has a no-reflect subscription to the
      group `event` that wants the message's topic. */
  predicate OwnObject(groups: Table, event: Code, msg: Message, o: ObjectId) {
    var objects := ObjectsOf(groups, event, msg.sid);
    o in objects && exists t :: t in objects[o] && Wants(t, msg.topic) && NoReflect(objects[o][t])
  }

  /** Seen as the sender's, the id `left` picks out the same own subscriptions
      of the group `event` as the sender's id does. */
  predicate PicksTheSame(groups: Table, event: Code, msg: Message, left: ObjectId) {
    left == msg.oid || (!OwnObject(groups, event, msg, left) && !OwnObject(groups, event, msg, msg.oid))
  }

  /** Whichever session of `looked` comes last in table `t`, its greatest object
      does not disturb the lookup of the group `event`. */
  predicate LastOnesHarmless(t: Table, looked: Code, groups: Table, event: Code, msg: Message) {
    looked in t ==>
      forall s | s in t[looked] && t[looked][s] != map[] ::
        PicksTheSame(groups, event, msg, KeyOrder.Greatest(t[looked][s].Keys))
  }

  /** What to look up before a no-reflect broadcast: the greatest objects of the
      sessions that subscribed to the event and to its group. */
  predicate IdsHarmless(events: Table, groups: Table, msg: Message) {
    var group := MakeGroup(msg.code);
    && LastOnesHarmless(events, msg.code, groups, group, msg)
    && (!InGroup(msg.code, ALL_GROUPS) ==>
          if group in groups then LastOnesHarmless(groups, group, groups, EVERYTHING, msg)
          else LastOnesHarmless(events, msg.code, groups, EVERYTHING, msg))
  }

  ghost function Tables(events: Table, groups: Table): World {
    World(Flatten(events), Flatten(groups), map[], imap[])
  }

  /** The sender's subscriptions in flat and in nested form. */
  lemma OwnEntries(events: Table, groups: Table, msg: Message, event: Code, left: ObjectId)
    ensures (forall k | OwnGroupEntry(Tables(events, groups), msg, event, k) :: k.obj == left <==> k.obj == msg.oid)
            <==> PicksTheSame(groups, event, msg, left)
  {
    var w := Tables(events, groups);
    var objects := ObjectsOf(groups, event, msg.sid);
    forall o ensures OwnObject(groups, event, msg, o) <==> exists k :: OwnGroupEntry(w, msg, event, k) && k.obj == o {
      if OwnObject(groups, event, msg, o) {
        var t :| t in objects[o] && Wants(t, msg.topic) && NoReflect(objects[o][t]);
        assert OwnGroupEntry(w, msg, event, Key(event, msg.sid, o, t));
      }
    }
  }

  lemma SuppressesIff(events: Table, groups: Table, msg: Message, oid1: ObjectId, oid2: ObjectId)
    requires Sorted(Flatten(events), Flatten(groups)) && msg.noReflect
    ensures SuppressesExactly(Tables(events, groups), msg, oid1, oid2) <==>
            && PicksTheSame(groups, MakeGroup(msg.code), msg, oid1)
            && (!InGroup(msg.code, ALL_GROUPS) ==> PicksTheSame(groups, EVERYTHING, msg, oid2))
  {
    SuppressionFor(Tables(events, groups), msg, oid1, oid2);
    OwnEntries(events, groups, msg, MakeGroup(msg.code), oid1);
    OwnEntries(events, groups, msg, EVERYTHING, oid2);
  }

  lemma GreatestIs(objects: Objects, o: ObjectId)
    requires IsGreatest(objects, o)
    ensures o == KeyOrder.Greatest(objects.Keys)
  {}

  /** Some id is left after every lookup. */
  lemma SomeIdLeft(t: Table, looked: Code, before: ObjectId) returns (o: ObjectId)
    requires Pruned(t)
    ensures IdAfter(t, looked, before, o)
  {
    o := before;
    if looked in t {
      assert t[looked].Keys != {};
      var s := KeyOrder.Least(t[looked].Keys);
      o := KeyOrder.Greatest(t[looked][s].Keys);
      assert IsGreatest(t[looked][s], o);
    }
  }

  /** The ids that a lookup can leave are the greatest objects of its sessions. */
  lemma LeftIds(t: Table, looked: Code, before: ObjectId, groups: Table, event: Code, msg: Message)
    requires Pruned(t) && looked in t
    ensures (forall o | IdAfter(t, looked, before, o) :: PicksTheSame(groups, event, msg, o))
            <==> LastOnesHarmless(t, looked, groups, event, msg)
  {
    forall s | s in t[looked] && t[looked][s] != map[]
      ensures IdAfter(t, looked, before, KeyOrder.Greatest(t[looked][s].Keys))
    {
      assert IsGreatest(t[looked][s], KeyOrder.Greatest(t[looked][s].Keys));
    }
    if LastOnesHarmless(t, looked, groups, event, msg) {
      forall o | IdAfter(t, looked, before, o) ensures PicksTheSame(groups, event, msg, o) {
        var s :| s in t[looked] && IsGreatest(t[looked][s], o);
        GreatestIs(t[looked][s], o);
      }
    }
  }

  /** The same when the lookup may find nothing and leave the sender's own id. */
  lemma LeftIdsOrOwn(t: Table, looked: Code, groups: Table, event: Code, msg: Message)
    requires Pruned(t)
    ensures (forall o | IdAfter(t, looked, msg.oid, o) :: PicksTheSame(groups, event, msg, o))
            <==> LastOnesHarmless(t, looked, groups, event, msg)
  {
    if looked in t {
      LeftIds(t, looked, msg.oid, groups, event, msg);
    }
  }

  /** A no-reflect broadcast spares exactly the sender's own no-reflect
      subscriptions, whatever the order of the sessions, if and only if the
      greatest objects in the tables are harmless. */
  lemma NoReflectExactIff(events: Table, groups: Table, msg: Message)
    requires Pruned(events) && Pruned(groups) && Sorted(Flatten(events), Flatten(groups)) && msg.noReflect
    ensures (forall oid1, oid2 | Possible(events, groups, msg, oid1, oid2) ::
               SuppressesExactly(Tables(events, groups), msg, oid1, oid2))
            <==> IdsHarmless(events, groups, msg)
  {
    var group := MakeGroup(msg.code);
    forall oid1, oid2 | Possible(events, groups, msg, oid1, oid2)
      ensures SuppressesExactly(Tables(events, groups), msg, oid1, oid2) <==>
              && PicksTheSame(groups, group, msg, oid1)
              && (!InGroup(msg.code, ALL_GROUPS) ==> PicksTheSame(groups, EVERYTHING, msg, oid2))
    {
      SuppressesIff(events, groups, msg, oid1, oid2);
    }
    ForAllOutcomes(events, groups, msg);
  }

  /** Both lookups are harmless in every outcome exactly when the tables are. */
  lemma ForAllOutcomes(events: Table, groups: Table, msg: Message)
    requires Pruned(events) && Pruned(groups)
    ensures (forall oid1, oid2 | Possible(events, groups, msg, oid1, oid2) ::
               && PicksTheSame(groups, MakeGroup(msg.code), msg, oid1)
               && (!InGroup(msg.code, ALL_GROUPS) ==> PicksTheSame(groups, EVERYTHING, msg, oid2)))
            <==> IdsHarmless(events, groups, msg)
  {
    var group := MakeGroup(msg.code);
    LeftIdsOrOwn(events, msg.code, groups, group, msg);
    LeftIdsOrOwn(events, msg.code, groups, EVERYTHING, msg);
    forall oid1 | IdAfter(events, msg.code, msg.oid, oid1) ensures exists oid2 :: Possible(events, groups, msg, oid1, oid2) {
      var oid2 := SomeIdLeft(groups, group, oid1);
      assert Possible(events, groups, msg, oid1, oid2);
    }
    if group in groups {
      LeftIds(groups, group, msg.oid, groups, EVERYTHING, msg);
      var oid1 := SomeIdLeft(events, msg.code, msg.oid);
      forall oid2 | IdAfter(groups, group, msg.oid, oid2) ensures Possible(events, groups, msg, oid1, oid2) {}
    } else {
      forall oid1 | IdAfter(events, msg.code, msg.oid, oid1) ensures Possible(events, groups, msg, oid1, oid1) {}
    }
  }

  /** Server object 65539 publishes event 5 for session 1, whose object 65539
      follows the whole group without reflection, while object 131075 of
      session 2 follows event 5.  All three ids are of class 3.  The event is
      reflected to its sender. */
  lemma NoReflectFailsForGroups()
    ensures var own := Key(MakeGroup(5), 1, 65539, ANY_TOPIC);
            var events: Table := map[5 := map[2 := map[131075 := map[ANY_TOPIC := 0]]]];
            var groups: Table := map[MakeGroup(5) := map[1 := map[65539 := map[ANY_TOPIC := 1]]]];
            var msg := Message(5, ANY_TOPIC, 1, 65539, true);
            && OneClass(Tables(events, groups), 3)
            && (forall oid1, oid2 | Possible(events, groups, msg, oid1, oid2) ::
                  Receives(Tables(events, groups), msg, oid1, oid2, own))
            && Reflection(msg, own, 1)
            && Possible(events, groups, msg, 131075, 65539)
            && !IdsHarmless(events, groups, msg)
  {
    var own := Key(MakeGroup(5), 1, 65539, ANY_TOPIC);
    var events: Table := map[5 := map[2 := map[131075 := map[ANY_TOPIC := 0]]]];
    var groups: Table := map[MakeGroup(5) := map[1 := map[65539 := map[ANY_TOPIC := 1]]]];
    var msg := Message(5, ANY_TOPIC, 1, 65539, true);
    var w := Tables(events, groups);
    assert Lookup(groups, own) == Just(1) && own in w.groups;
    assert IsGreatest(events[5][2], 131075) && IsGreatest(groups[MakeGroup(5)][1], 65539);
    assert KeyOrder.Greatest(events[5][2].Keys) == 131075;
    var objects := ObjectsOf(groups, MakeGroup(5), 1);
    assert ANY_TOPIC in objects[65539] && NoReflect(objects[65539][ANY_TOPIC]);
  }

  /** Where the sender's id is the greatest of the other session, suppression is exact. */
  lemma NoReflectWorksForGreatest()
    ensures var events: Table := map[5 := map[2 := map[65539 := map[ANY_TOPIC := 0], 131075 := map[ANY_TOPIC := 0]]]];
            var groups: Table := map[MakeGroup(5) := map[1 := map[131075 := map[ANY_TOPIC := 1]]]];
            IdsHarmless(events, groups, Message(5, ANY_TOPIC, 1, 131075, true))
  {
    var events: Table := map[5 := map[2 := map[65539 := map[ANY_TOPIC := 0], 131075 := map[ANY_TOPIC := 0]]]];
    var groups: Table := map[MakeGroup(5) := map[1 := map[131075 := map[ANY_TOPIC := 1]]]];
    assert 131075 in events[5][2].Keys;
    assert KeyOrder.Greatest(events[5][2].Keys) == 131075;
    assert KeyOrder.Greatest(groups[MakeGroup(5)][1].Keys) == 131075;
  }
}
