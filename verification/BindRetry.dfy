/** Bind reports of a registered service and the retries they cause
    (onRegisterServiceReq and rebindToAddress of server/CNameServer.cpp). */
module BindRetry {
  import opened Maybes
  import opened Registry
  import opened AddressAllocator

  /** The address a service was told to bind, and the one it did bind; an
      empty bind address reports a failure. */
  datatype Report = Report(request: string, bind: string)

  type Parser = string -> Maybe<SocketAddr>

  /** The position of the first address with a URL, or the length without one. */
  function IndexOf(addrs: seq<AddrDesc>, url: string): (k: nat)
    ensures k <= |addrs|
    ensures k < |addrs| ==> addrs[k].addr.url == url
    ensures forall j | 0 <= j < k :: addrs[j].addr.url != url
  {
    if addrs == [] then 0
    else if addrs[0].addr.url == url then 0
    else 1 + IndexOf(addrs[1..], url)
  }

  /** The address after another one was allocated for it. */
  function Replacement(parse: Parser, d: AddrDesc, offer: Maybe<Allocated>): Maybe<AddrDesc> {
    if offer.Just? && parse(offer.value.addr.url).Just?
    then Just(AddrDesc(parse(offer.value.addr.url).value, offer.value.level, offer.value.interface_, d.status, d.rebinds + 1))
    else Nothing
  }

  /** The outcome of another try: nothing once the limit is reached or when no
      address can be had, else the same address with a freshly allocated URL. */
  ghost predicate IsRebind(cfg: Config, parse: Parser, limit: int, t: Table, kind: ServerType, alloc: Maybe<Allocator>,
                           d: AddrDesc, r: Maybe<AddrDesc>)
    requires cfg.Complete()
  {
    if d.rebinds >= limit || alloc.Nothing? then r == Nothing
    else exists offer, a' ::
        IsAllocation(cfg, t, alloc.value, kind, d.addr.secure, offer, a') && r == Replacement(parse, d, offer)
  }

  lemma OfferIsRebind(cfg: Config, parse: Parser, limit: int, t: Table, kind: ServerType, alloc: Maybe<Allocator>,
                      d: AddrDesc, offer: Maybe<Allocated>, after: Allocator)
    requires cfg.Complete() && d.rebinds < limit
    requires if alloc.Just? then IsAllocation(cfg, t, alloc.value, kind, d.addr.secure, offer, after) else offer == Nothing
    ensures IsRebind(cfg, parse, limit, t, kind, alloc, d, Replacement(parse, d, offer))
  {}

  /** The address after a successful bind, possibly to another URL. */
  function BoundTo(parse: Parser, d: AddrDesc, bind: string): AddrDesc {
    var addr := if d.addr.transport.Tcp? && bind != d.addr.url && parse(bind).Just? then parse(bind).value else d.addr;
    d.(status := Bound, addr := addr)
  }

  function Unknown(addr: SocketAddr): AddrDesc {
    AddrDesc(addr, DOMAIN_LEVEL, INVALID_ID, Bound, 0)
  }

  function Without(addrs: seq<AddrDesc>, k: nat): seq<AddrDesc>
    requires k < |addrs|
  {
    addrs[..k] + addrs[k + 1..]
  }

  function Retried(addrs: seq<AddrDesc>, k: nat, again: Maybe<AddrDesc>): seq<AddrDesc>
    requires k < |addrs|
  {
    if again.Just? then addrs[k := again.value] else Without(addrs, k)
  }

  /** One report: the addresses of the service, and the unknown addresses to add later. */
  ghost predicate IsReport(cfg: Config, parse: Parser, limit: int, t: Table, e: Entry, alloc: Maybe<Allocator>, r: Report,
                           addrs': seq<AddrDesc>, extra: seq<AddrDesc>, extra': seq<AddrDesc>)
    requires cfg.Complete()
  {
    var k := IndexOf(e.addrs, r.request);
    if k == |e.addrs| then
      && addrs' == e.addrs
      && extra' == if parse(r.bind).Just? then extra + [Unknown(parse(r.bind).value)] else extra
    else
      var d := e.addrs[k];
      && extra' == extra
      && if r.bind != "" then addrs' == e.addrs[k := BoundTo(parse, d, r.bind)]
         else if d.status.Bound? then addrs' == e.addrs
         else
           exists again :: IsRebind(cfg, parse, limit, t, e.kind, alloc, d, again) && addrs' == Retried(e.addrs, k, again)
  }

  /** The report is about an address that is still pending. */
  predicate Hits(addrs: seq<AddrDesc>, r: Report) {
    var k := IndexOf(addrs, r.request);
    k < |addrs| && addrs[k].status.Pending?
  }

  // ------------------------------------------------------------------
  // What is left to try.

  function Cap(limit: int): nat {
    if limit < 0 then 0 else limit
  }

  predicate RetriesFit(limit: int, addrs: seq<AddrDesc>) {
    forall k | 0 <= k < |addrs| :: 0 <= addrs[k].rebinds <= Cap(limit)
  }

  function Left(limit: int, d: AddrDesc): int {
    if d.status.Pending? then Cap(limit) + 1 - d.rebinds else 0
  }

  /** The sum over pending addresses of retry limit + 1 - tries so far. */
  function Measure(limit: int, addrs: seq<AddrDesc>): int {
    if addrs == [] then 0 else Left(limit, addrs[0]) + Measure(limit, addrs[1..])
  }

  lemma {:induction false} MeasureSplit(limit: int, addrs: seq<AddrDesc>, k: nat)
    requires k < |addrs|
    ensures Measure(limit, addrs) == Measure(limit, Without(addrs, k)) + Left(limit, addrs[k])
  {
    if k > 0 {
      MeasureSplit(limit, addrs[1..], k - 1);
      assert Without(addrs, k)[1..] == Without(addrs[1..], k - 1);
    } else {
      assert Without(addrs, 0) == addrs[1..];
    }
  }

  lemma MeasureUpdate(limit: int, addrs: seq<AddrDesc>, k: nat, d: AddrDesc)
    requires k < |addrs|
    ensures Measure(limit, addrs[k := d]) == Measure(limit, addrs) - Left(limit, addrs[k]) + Left(limit, d)
  {
    MeasureSplit(limit, addrs, k);
    MeasureSplit(limit, addrs[k := d], k);
    assert Without(addrs[k := d], k) == Without(addrs, k);
  }

  lemma {:induction false} MeasureConcat(limit: int, a: seq<AddrDesc>, b: seq<AddrDesc>)
    ensures Measure(limit, a + b) == Measure(limit, a) + Measure(limit, b)
  {
    if a == [] {
      assert a + b == b;
    } else {
      MeasureConcat(limit, a[1..], b);
      assert (a + b)[1..] == a[1..] + b;
    }
  }

  lemma {:induction false} MeasureCounts(limit: int, addrs: seq<AddrDesc>)
    requires RetriesFit(limit, addrs)
    ensures Measure(limit, addrs) >= 0
    ensures Measure(limit, addrs) == 0 <==> forall k | 0 <= k < |addrs| :: !addrs[k].status.Pending?
  {
    if addrs != [] {
      MeasureCounts(limit, addrs[1..]);
      assert forall k | 0 < k < |addrs| :: addrs[k] == addrs[1..][k - 1];
      assert forall k | 0 <= k < |addrs| - 1 :: addrs[1..][k] == addrs[k + 1];
    }
  }

  /** A report strictly lowers the measure if it is about a pending address, and
      leaves it alone otherwise. */
  lemma ReportSpends(cfg: Config, parse: Parser, limit: int, t: Table, e: Entry, alloc: Maybe<Allocator>, r: Report,
                     addrs': seq<AddrDesc>, extra: seq<AddrDesc>, extra': seq<AddrDesc>)
    requires cfg.Complete() && IsReport(cfg, parse, limit, t, e, alloc, r, addrs', extra, extra') && RetriesFit(limit, e.addrs)
    ensures RetriesFit(limit, addrs')
    ensures Hits(e.addrs, r) ==> Measure(limit, addrs') < Measure(limit, e.addrs)
    ensures !Hits(e.addrs, r) ==> Measure(limit, addrs') == Measure(limit, e.addrs)
  {
    var k := IndexOf(e.addrs, r.request);
    if k < |e.addrs| {
      var d := e.addrs[k];
      MeasureSplit(limit, e.addrs, k);
      if r.bind != "" {
        MeasureUpdate(limit, e.addrs, k, BoundTo(parse, d, r.bind));
      } else if !d.status.Bound? {
        var again :| IsRebind(cfg, parse, limit, t, e.kind, alloc, d, again) && addrs' == Retried(e.addrs, k, again);
        if again.Just? {
          MeasureUpdate(limit, e.addrs, k, again.value);
        }
      }
    }
  }

  function SameHost(port: int): AddrDesc {
    AddrDesc(SocketAddr(Tcp, "10.0.0.1", port, false, TcpUrl("10.0.0.1", port, false)), DOMAIN_LEVEL, INVALID_ID, Pending, 0)
  }

  /** Two addresses are pending and the service binds the first one to the URL
      of the second.  A report on that URL now reaches the first only: the
      second stays pending and the measure stays the same. */
  lemma SecondOfTwoIsMissed(cfg: Config, parse: Parser, limit: int, t: Table, alloc: Maybe<Allocator>, e: Entry)
    requires cfg.Complete() && e.addrs == [SameHost(1), SameHost(2)]
    requires parse(SameHost(2).addr.url) == Just(SameHost(2).addr)
    ensures var taken := BoundTo(parse, SameHost(1), SameHost(2).addr.url);
            var after := [taken, SameHost(2)];
            var again := Report(SameHost(2).addr.url, SameHost(2).addr.url);
            && IsReport(cfg, parse, limit, t, e, alloc, Report(SameHost(1).addr.url, SameHost(2).addr.url), after, [], [])
            && IsReport(cfg, parse, limit, t, e.(addrs := after), alloc, again, after, [], [])
            && !Hits(after, again) && after[1].status.Pending?
            && Measure(limit, after) == Cap(limit) + 1
  {
    TcpUrlsDiffer("10.0.0.1", 1, 2, false);
    var taken := BoundTo(parse, SameHost(1), SameHost(2).addr.url);
    var after := [taken, SameHost(2)];
    assert taken == SameHost(2).(status := Bound);
    assert e.addrs[0 := taken] == after && after[0 := taken] == after;
    assert BoundTo(parse, taken, SameHost(2).addr.url) == taken;
    assert after[1..] == [SameHost(2)] && [SameHost(2)][1..] == [];
    assert Measure(limit, [SameHost(2)]) == Cap(limit) + 1 + Measure(limit, []);
    assert Measure(limit, after) == Left(limit, taken) + Measure(limit, after[1..]);
  }

  // ------------------------------------------------------------------
  // Runs of reports, over any number of requests.

  /** A report, or the end of a request, where unknown addresses are added. */
  datatype Act = Reported(t: Table, e: Entry, alloc: Maybe<Allocator>, r: Report) | Ended

  datatype Binding = Binding(addrs: seq<AddrDesc>, extra: seq<AddrDesc>)

  ghost predicate IsAct(cfg: Config, parse: Parser, limit: int, b: Binding, act: Act, b': Binding)
    requires cfg.Complete()
  {
    match act
    case Reported(t, e, alloc, r) => e.addrs == b.addrs && IsReport(cfg, parse, limit, t, e, alloc, r, b'.addrs, b.extra, b'.extra)
    case Ended => b' == Binding(b.addrs + b.extra, [])
  }

  ghost predicate IsActs(cfg: Config, parse: Parser, limit: int, bs: seq<Binding>, acts: seq<Act>)
    requires cfg.Complete()
  {
    |bs| == |acts| + 1 && forall n | 0 <= n < |acts| :: IsAct(cfg, parse, limit, bs[n], acts[n], bs[n + 1])
  }

  function HitCount(bs: seq<Binding>, acts: seq<Act>, n: nat): nat
    requires n <= |acts| && |bs| == |acts| + 1
  {
    if n == 0 then 0
    else HitCount(bs, acts, n - 1) + if acts[n - 1].Reported? && Hits(bs[n - 1].addrs, acts[n - 1].r) then 1 else 0
  }

  /** Addresses of a binding that were not there from the start are bound. */
  predicate Fits(limit: int, b: Binding) {
    RetriesFit(limit, b.addrs) && (forall k | 0 <= k < |b.extra| :: b.extra[k].status.Bound? && b.extra[k].rebinds == 0)
  }

  lemma ActSpends(cfg: Config, parse: Parser, limit: int, b: Binding, act: Act, b': Binding)
    requires cfg.Complete() && IsAct(cfg, parse, limit, b, act, b') && Fits(limit, b)
    ensures Fits(limit, b')
    ensures Measure(limit, b'.addrs) + (if act.Reported? && Hits(b.addrs, act.r) then 1 else 0) <= Measure(limit, b.addrs)
  {
    match act
    case Reported(t, e, alloc, r) =>
      ReportSpends(cfg, parse, limit, t, e, alloc, r, b'.addrs, b.extra, b'.extra);
    case Ended =>
      MeasureConcat(limit, b.addrs, b.extra);
      MeasureCounts(limit, b.extra);
  }

  /** A stretch of a run in which the first `n` acts spent what they hit. */
  ghost predicate Spent(limit: int, bs: seq<Binding>, acts: seq<Act>, n: nat)
    requires n <= |acts| && |bs| == |acts| + 1
  {
    Fits(limit, bs[n]) && Measure(limit, bs[n].addrs) <= Measure(limit, bs[0].addrs) - HitCount(bs, acts, n)
  }

  /** An act keeps retries within the limit and spends what it hits. */
  predicate Lowers(limit: int, b: Binding, act: Act, b': Binding) {
    Fits(limit, b) ==>
      && Fits(limit, b')
      && Measure(limit, b'.addrs) + (if act.Reported? && Hits(b.addrs, act.r) then 1 else 0) <= Measure(limit, b.addrs)
  }

  lemma ActLowers(cfg: Config, parse: Parser, limit: int, b: Binding, act: Act, b': Binding)
    requires cfg.Complete() && IsAct(cfg, parse, limit, b, act, b')
    ensures Lowers(limit, b, act, b')
  {
    if Fits(limit, b) {
      ActSpends(cfg, parse, limit, b, act, b');
    }
  }

  lemma {:induction false} LoweringSpends(limit: int, bs: seq<Binding>, acts: seq<Act>, n: nat)
    requires |bs| == |acts| + 1 && n <= |acts| && Fits(limit, bs[0])
    requires forall k | 0 <= k < |acts| :: Lowers(limit, bs[k], acts[k], bs[k + 1])
    ensures Spent(limit, bs, acts, n)
  {
    if n > 0 {
      LoweringSpends(limit, bs, acts, n - 1);
      assert Lowers(limit, bs[n - 1], acts[n - 1], bs[n - 1 + 1]);
    }
  }

  /** However often a service reports, only boundedly many reports are about a
      pending address: never more than the measure at the start. */
  lemma HitsAreBounded(cfg: Config, parse: Parser, limit: int, bs: seq<Binding>, acts: seq<Act>, n: nat)
    requires cfg.Complete() && IsActs(cfg, parse, limit, bs, acts) && Fits(limit, bs[0]) && n <= |acts|
    ensures HitCount(bs, acts, n) <= Measure(limit, bs[0].addrs)
    ensures HitCount(bs, acts, n) == Measure(limit, bs[0].addrs) ==>
              forall k | 0 <= k < |bs[n].addrs| :: !bs[n].addrs[k].status.Pending?
  {
    forall k | 0 <= k < |acts| ensures Lowers(limit, bs[k], acts[k], bs[k + 1]) {
      ActLowers(cfg, parse, limit, bs[k], acts[k], bs[k + 1]);
    }
    LoweringSpends(limit, bs, acts, n);
    MeasureCounts(limit, bs[n].addrs);
  }
}
