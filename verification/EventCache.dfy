/** The event cache of an object and what its subscribers have last received
    (fdbus/CFdbBaseObject.cpp), as values. */
module EventCache {
  import opened Maybes
  import opened EventCode
  import opened SubscribeTable

  type Bytes = seq<int>

  /** The cached value of one (event, topic). */
  datatype EventData = EventData(data: Bytes, allowRoute: bool, allowCache: bool)

  type CacheTable = map<Code, map<Topic, EventData>>

  function Get(cache: CacheTable, code: Code, topic: Topic): Maybe<EventData> {
    if code in cache && topic in cache[code] then Just(cache[code][topic]) else Nothing
  }

  function Put(cache: CacheTable, code: Code, topic: Topic, d: EventData): CacheTable {
    cache[code := (if code in cache then cache[code] else map[])[topic := d]]
  }

  lemma PutThenGet(cache: CacheTable, code: Code, topic: Topic, d: EventData)
    ensures forall c, t :: Get(Put(cache, code, topic, d), c, t)
                           == if c == code && t == topic then Just(d) else Get(cache, c, t)
  {}

  /** Storing `payload` counts as a change, except for an equal non-empty value. */
  predicate Changes(old_: Maybe<EventData>, payload: Bytes) {
    !(old_.Just? && old_.value.data == payload && payload != [])
  }

  /** What a cache update answers: -1 the event is not for the cache, 0 the
      value is an unforced repeat, 1 the value must go out. */
  datatype Action = Bypass | Drop | Forward

  /** A cached message about to be handled: published by a client or broadcast
      by the object itself. */
  datatype Update = Update(code: Code, topic: Topic, payload: Bytes, published: bool, forced: bool)

  /** Settings of the object: default routing of published events; client role. */
  datatype Settings = Settings(route: bool, client: bool)

  function RouteFor(cache: CacheTable, u: Update, s: Settings): bool {
    var d := Get(cache, u.code, u.topic);
    if d.Just? then d.value.allowRoute else s.route
  }

  function ActionFor(cache: CacheTable, u: Update, s: Settings): Action {
    var d := Get(cache, u.code, u.topic);
    if d.Just? && !d.value.allowCache then Bypass
    else if !s.client && u.published && !RouteFor(cache, u, s) then Bypass
    else if Changes(d, u.payload) || u.forced then Forward
    else Drop
  }

  function CacheAfter(cache: CacheTable, u: Update, s: Settings): CacheTable {
    if ActionFor(cache, u, s).Bypass? then cache
    else Put(cache, u.code, u.topic, EventData(u.payload, RouteFor(cache, u, s), true))
  }

  /** Whatever is not bypassed ends up cached, and a dropped message was
      already the cached value. */
  lemma UpdateStoresThePayload(cache: CacheTable, u: Update, s: Settings)
    ensures forall c, t :: !(c == u.code && t == u.topic) ==> Get(CacheAfter(cache, u, s), c, t) == Get(cache, c, t)
    ensures !ActionFor(cache, u, s).Bypass? ==>
              Get(CacheAfter(cache, u, s), u.code, u.topic).Just?
              && Get(CacheAfter(cache, u, s), u.code, u.topic).value.data == u.payload
    ensures ActionFor(cache, u, s).Drop? ==>
              Get(cache, u.code, u.topic).Just? && Get(cache, u.code, u.topic).value.data == u.payload
  {
    PutThenGet(cache, u.code, u.topic, EventData(u.payload, RouteFor(cache, u, s), true));
  }

  // ------------------------------------------------------------------
  // The object together with what every peer object last received.

  /** Object `obj` of `session` received event `code` under `topic`. */
  datatype Receipt = Receipt(session: SessionId, obj: ObjectId, code: Code, topic: Topic)

  type Inbox = imap<Receipt, Bytes>

  datatype World = World(events: FlatMap, groups: FlatMap, cache: CacheTable, got: Inbox)

  ghost predicate Hit(sent: iset<Key>, code: Code, topic: Topic, r: Receipt) {
    r.code == code && r.topic == topic && exists k :: k in sent && k.session == r.session && k.obj == r.obj
  }

  /** `payload` goes out as (code, topic) through the subscriptions `sent`. */
  ghost function Deliver(got: Inbox, sent: iset<Key>, code: Code, topic: Topic, payload: Bytes): Inbox {
    imap r: Receipt | r in got || Hit(sent, code, topic, r) ::
      if Hit(sent, code, topic, r) then payload else got[r]
  }

  /** Subscription `k` to an exact event, reflection not suppressed, wants (code, topic). */
  ghost predicate Follows(events: FlatMap, k: Key, code: Code, topic: Topic) {
    Serves(events, code, topic, k) && !NoReflect(events[k])
  }

  ghost predicate UpToDate(w: World, k: Key, code: Code, topic: Topic) {
    var r := Receipt(k.session, k.obj, code, topic);
    && Get(w.cache, code, topic).Just?
    && r in w.got
    && w.got[r] == Get(w.cache, code, topic).value.data
  }

  /** Every follower of a cached event has last received the cached value. */
  ghost predicate Coherent(w: World) {
    forall k, code, topic :: Follows(w.events, k, code, topic) && Get(w.cache, code, topic).Just? ==>
                               UpToDate(w, k, code, topic)
  }

  /** Caching is allowed for every cached event. */
  ghost predicate AllCacheable(cache: CacheTable) {
    forall code, topic :: Get(cache, code, topic).Just? ==> Get(cache, code, topic).value.allowCache
  }

  /** Everybody who follows (code, topic) is among the receivers. */
  ghost predicate ReachesFollowers(events: FlatMap, sent: iset<Key>, code: Code, topic: Topic) {
    forall k :: Follows(events, k, code, topic) ==> k in sent
  }

  // ------------------------------------------------------------------
  // Steps of an object that caches events.

  /** One item of a subscription request. */
  datatype Item = Item(code: Code, topic: Maybe<Topic>, flag: Flag)

  const LEVEL_UNKNOWN := -2

  /** What authentication looks at: the level that subscribing requires, if any
      is configured, the level of the session, and what a check of its token
      gives.  The items of the request are not among it. */
  datatype Access = Access(required: Maybe<int>, level: int, checked: int)

  predicate MayGetEvents(a: Access) {
    a.required.Just? ==> (if a.level == LEVEL_UNKNOWN then a.checked else a.level) >= a.required.value
  }

  datatype Step =
    | SubscribeStep(session: SessionId, obj: ObjectId, items: seq<Item>, access: Access)
    | UnsubscribeStep
    | SendStep(update: Update)
    | InitCacheStep(code: Code, topic: Topic, value: EventData)

  function TopicOf(item: Item): Topic {
    if item.topic.Just? then item.topic.value else ANY_TOPIC
  }

  function ItemKey(session: SessionId, obj: ObjectId, item: Item): Key {
    Key(item.code, session, obj, TopicOf(item))
  }

  /** A granted item is entered, a refused one is unsubscribed. */
  ghost function EnterOne(f: FlatMap, session: SessionId, obj: ObjectId, item: Item, granted: bool): FlatMap {
    if granted then f[ItemKey(session, obj, item) := item.flag]
    else Without(f, Named(session, item.code, obj, item.topic))
  }

  ghost function EnterIf(f: FlatMap, session: SessionId, obj: ObjectId, item: Item, granted: bool, group: bool): FlatMap {
    if IsGroup(item.code) == group then EnterOne(f, session, obj, item, granted) else f
  }

  /** The subscriptions after the items of one request that concern single
      events (or, with `group`, whole groups) have been handled in order. */
  ghost function Enter(f: FlatMap, session: SessionId, obj: ObjectId, items: seq<Item>, granted: bool, group: bool): FlatMap {
    if items == [] then f
    else
      var last := items[|items| - 1];
      EnterIf(Enter(f, session, obj, items[..|items| - 1], granted, group), session, obj, last, granted, group)
  }

  /** `after` only adds or renews receipts, each with the cached value. */
  ghost predicate OnlyRefreshes(cache: CacheTable, before: Inbox, after: Inbox) {
    && (forall r :: r in before ==> r in after)
    && (forall r :: r in after ==>
          (r in before && after[r] == before[r])
          || (Get(cache, r.code, r.topic).Just? && after[r] == Get(cache, r.code, r.topic).value.data))
  }

  /** Object `obj` of `session` holds every cached value that `item` asks for. */
  ghost predicate Primed(cache: CacheTable, got: Inbox, session: SessionId, obj: ObjectId, item: Item) {
    forall t :: Get(cache, item.code, t).Just? && Wants(TopicOf(item), t) ==>
                  Receipt(session, obj, item.code, t) in got
                  && got[Receipt(session, obj, item.code, t)] == Get(cache, item.code, t).value.data
  }

  ghost predicate IsSubscribe(w: World, session: SessionId, obj: ObjectId, items: seq<Item>, granted: bool, w': World) {
    && w'.events == Enter(w.events, session, obj, items, granted, false)
    && w'.groups == Enter(w.groups, session, obj, items, granted, true)
    && w'.cache == w.cache
    && (!granted ==> w'.got == w.got)
    && (granted ==>
          && OnlyRefreshes(w.cache, w.got, w'.got)
          && forall i | 0 <= i < |items| && !IsGroup(items[i].code) :: Primed(w.cache, w'.got, session, obj, items[i]))
  }

  ghost predicate Shrinks(f: FlatMap, f': FlatMap) {
    forall k :: k in f' ==> k in f && f'[k] == f[k]
  }

  ghost predicate IsUnsubscribe(w: World, w': World) {
    w'.cache == w.cache && w'.got == w.got && Shrinks(w.events, w'.events) && Shrinks(w.groups, w'.groups)
  }

  ghost predicate IsSend(w: World, u: Update, s: Settings, w': World) {
    && w'.events == w.events && w'.groups == w.groups
    && w'.cache == CacheAfter(w.cache, u, s)
    && match ActionFor(w.cache, u, s)
       case Bypass => w'.got == w.got
       case Drop => w'.got == w.got
       case Forward =>
         exists sent :: ReachesFollowers(w.events, sent, u.code, u.topic)
                        && w'.got == Deliver(w.got, sent, u.code, u.topic, u.payload)
  }

  /** Filling the cache by hand is for events that nobody follows yet, or for
      the value that is already cached. */
  ghost predicate IsInitCache(w: World, code: Code, topic: Topic, value: EventData, w': World) {
    && w' == w.(cache := Put(w.cache, code, topic, value))
    && value.allowCache
    && (NobodyFollows(w.events, code, topic)
        || (Get(w.cache, code, topic).Just? && value.data == Get(w.cache, code, topic).value.data))
  }

  ghost predicate Next(w: World, step: Step, s: Settings, w': World) {
    match step
    case SubscribeStep(session, obj, items, access) => IsSubscribe(w, session, obj, items, MayGetEvents(access), w')
    case UnsubscribeStep => IsUnsubscribe(w, w')
    case SendStep(u) => IsSend(w, u, s, w')
    case InitCacheStep(code, topic, value) => IsInitCache(w, code, topic, value, w')
  }

  // ------------------------------------------------------------------
  // Early and late subscribers agree.

  /** A subscription in the table was there before or comes from a granted item. */
  lemma EnterAdds(f: FlatMap, session: SessionId, obj: ObjectId, items: seq<Item>, granted: bool, group: bool, k: Key)
    requires k in Enter(f, session, obj, items, granted, group)
    ensures (k in f && Enter(f, session, obj, items, granted, group)[k] == f[k])
            || (granted && exists i :: 0 <= i < |items| && IsGroup(items[i].code) == group
                                       && k == ItemKey(session, obj, items[i]))
  {
    if items != [] {
      var last := items[|items| - 1];
      if IsGroup(last.code) == group && granted && k == ItemKey(session, obj, last) {
      } else {
        EnterAdds(f, session, obj, items[..|items| - 1], granted, group, k);
      }
    }
  }

  /** Granted items are all in the table afterwards. */
  lemma EnterKeeps(f: FlatMap, session: SessionId, obj: ObjectId, items: seq<Item>, group: bool, i: nat)
    requires i < |items| && IsGroup(items[i].code) == group
    ensures ItemKey(session, obj, items[i]) in Enter(f, session, obj, items, true, group)
  {
    if i < |items| - 1 {
      EnterKeeps(f, session, obj, items[..|items| - 1], group, i);
    }
  }

  /** A request, granted or refused, keeps every follower up to date: a granted
      one primes the new followers, a refused one adds none. */
  lemma SubscribeKeepsCoherence(w: World, session: SessionId, obj: ObjectId, items: seq<Item>, granted: bool, w': World)
    requires Coherent(w) && IsSubscribe(w, session, obj, items, granted, w')
    ensures Coherent(w')
  {
    forall k, code, topic | Follows(w'.events, k, code, topic) && Get(w'.cache, code, topic).Just?
      ensures UpToDate(w', k, code, topic)
    {
      EnterAdds(w.events, session, obj, items, granted, false, k);
      if k in w.events && w'.events[k] == w.events[k] {
        assert UpToDate(w, k, code, topic);
        assert Receipt(k.session, k.obj, code, topic) in w'.got;
      } else {
        var i :| 0 <= i < |items| && !IsGroup(items[i].code) && k == ItemKey(session, obj, items[i]);
        assert Primed(w.cache, w'.got, session, obj, items[i]);
      }
    }
  }

  /** Replacing a cached value by hand while there are followers keeps them up
      to date exactly when nobody follows or the value stays the same.  Where
      nothing was cached, they must have received the value before. */
  lemma ReplaceCacheIff(w: World, code: Code, topic: Topic, value: EventData, w': World)
    requires Coherent(w) && w' == w.(cache := Put(w.cache, code, topic, value))
    ensures Get(w.cache, code, topic).Just? ==>
              (Coherent(w') <==> value.data == Get(w.cache, code, topic).value.data || NobodyFollows(w.events, code, topic))
    ensures Get(w.cache, code, topic).Nothing? ==> (Coherent(w') <==> FollowersGot(w, code, topic, value.data))
  {
    PutThenGet(w.cache, code, topic, value);
    forall k, c, t | Follows(w.events, k, c, t) && Get(w.cache, c, t).Just? && !(c == code && t == topic)
      ensures UpToDate(w', k, c, t)
    {
      assert UpToDate(w, k, c, t);
    }
    assert Coherent(w') <==> FollowersGot(w, code, topic, value.data) by {
      if FollowersGot(w, code, topic, value.data) {
        forall k, c, t | Follows(w'.events, k, c, t) && Get(w'.cache, c, t).Just? ensures UpToDate(w', k, c, t) {}
      }
      if Coherent(w') {
        forall k | Follows(w.events, k, code, topic) ensures Got(w, k, code, topic, value.data) {
          assert UpToDate(w', k, code, topic);
        }
      }
    }
    if Get(w.cache, code, topic).Just? {
      forall k | Follows(w.events, k, code, topic)
        ensures Got(w, k, code, topic, value.data) <==> value.data == Get(w.cache, code, topic).value.data
      {
        assert UpToDate(w, k, code, topic);
      }
    }
  }

  ghost predicate NobodyFollows(events: FlatMap, code: Code, topic: Topic) {
    forall k :: !Follows(events, k, code, topic)
  }

  ghost predicate Got(w: World, k: Key, code: Code, topic: Topic, payload: Bytes) {
    var r := Receipt(k.session, k.obj, code, topic);
    r in w.got && w.got[r] == payload
  }

  ghost predicate FollowersGot(w: World, code: Code, topic: Topic, payload: Bytes) {
    forall k | Follows(w.events, k, code, topic) :: Got(w, k, code, topic, payload)
  }

  /** A new value sent only through `sent`, as a broadcast to one session does,
      keeps coherence exactly when it reaches every follower. */
  lemma SendToSome(w: World, u: Update, s: Settings, sent: iset<Key>, w': World)
    requires Coherent(w) && ActionFor(w.cache, u, s).Forward?
    requires Get(w.cache, u.code, u.topic).Just? && Get(w.cache, u.code, u.topic).value.data != u.payload
    requires w' == w.(cache := CacheAfter(w.cache, u, s), got := Deliver(w.got, sent, u.code, u.topic, u.payload))
    ensures Coherent(w') <==> forall k :: Follows(w.events, k, u.code, u.topic) ==>
                                            Hit(sent, u.code, u.topic, Receipt(k.session, k.obj, u.code, u.topic))
  {
    UpdateStoresThePayload(w.cache, u, s);
    forall k | Follows(w.events, k, u.code, u.topic)
      ensures UpToDate(w', k, u.code, u.topic) <==> Hit(sent, u.code, u.topic, Receipt(k.session, k.obj, u.code, u.topic))
    {
      assert UpToDate(w, k, u.code, u.topic);
    }
    forall k, code, topic | Follows(w.events, k, code, topic) && Get(w.cache, code, topic).Just?
                            && !(code == u.code && topic == u.topic)
      ensures UpToDate(w', k, code, topic)
    {
      assert UpToDate(w, k, code, topic);
    }
  }

  lemma SendKeepsCoherence(w: World, u: Update, s: Settings, w': World)
    requires Coherent(w) && IsSend(w, u, s, w')
    ensures Coherent(w')
  {
    UpdateStoresThePayload(w.cache, u, s);
    forall k, code, topic | Follows(w'.events, k, code, topic) && Get(w'.cache, code, topic).Just?
      ensures UpToDate(w', k, code, topic)
    {
      if ActionFor(w.cache, u, s).Forward? {
        var sent :| ReachesFollowers(w.events, sent, u.code, u.topic)
                    && w'.got == Deliver(w.got, sent, u.code, u.topic, u.payload);
        var r := Receipt(k.session, k.obj, code, topic);
        if code == u.code && topic == u.topic {
          assert k in sent;
          assert Hit(sent, code, topic, r);
        } else {
          assert UpToDate(w, k, code, topic);
        }
      } else {
        assert UpToDate(w, k, code, topic);
      }
    }
  }

  lemma StepKeepsCoherence(w: World, step: Step, s: Settings, w': World)
    requires Coherent(w) && AllCacheable(w.cache)
    requires Next(w, step, s, w')
    ensures Coherent(w') && AllCacheable(w'.cache)
  {
    match step
    case SubscribeStep(session, obj, items, access) => SubscribeKeepsCoherence(w, session, obj, items, MayGetEvents(access), w');
    case UnsubscribeStep =>
      forall k, code, topic | Follows(w'.events, k, code, topic) && Get(w'.cache, code, topic).Just?
        ensures UpToDate(w', k, code, topic)
      {
        assert UpToDate(w, k, code, topic);
      }
    case SendStep(u) =>
      SendKeepsCoherence(w, u, s, w');
      UpdateStoresThePayload(w.cache, u, s);
    case InitCacheStep(code, topic, value) =>
      PutThenGet(w.cache, code, topic, value);
      ReplaceCacheIff(w, code, topic, value, w');
  }

  ghost predicate IsRun(worlds: seq<World>, steps: seq<Step>, s: Settings) {
    && |worlds| == |steps| + 1
    && forall i | 0 <= i < |steps| :: Next(worlds[i], steps[i], s, worlds[i + 1])
  }

  /** In every run from an object without subscribers, every follower of an
      event has last received its cached value, however late it subscribed and
      however many unforced repeats were dropped. */
  lemma {:induction false} EarlyAndLateSubscribersAgree(worlds: seq<World>, steps: seq<Step>, s: Settings, n: nat)
    requires IsRun(worlds, steps, s)
    requires worlds[0].events == imap[] && AllCacheable(worlds[0].cache)
    requires n < |worlds|
    ensures Coherent(worlds[n]) && AllCacheable(worlds[n].cache)
  {
    if n > 0 {
      EarlyAndLateSubscribersAgree(worlds, steps, s, n - 1);
      StepKeepsCoherence(worlds[n - 1], steps[n - 1], s, worlds[n]);
    }
  }
}
