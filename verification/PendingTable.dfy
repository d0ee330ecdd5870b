/** Requests waiting for their replies (fdbus/CBaseSession.cpp,
    fdbus/CFdbSession.cpp, public/fdbus/CEntityContainer.h).

    Each request has an identity of its own; the serial number that replies and
    timers use is a 32-bit counter and may be used again. */
module PendingTable {
  import KeyOrder

  const SN_SPAN := 0x1_0000_0000
  const MAX_LIFETIME := 5

  type Sn = int

  datatype Request = Request(id: nat, objectId: int, lifeTime: int)

  /** Why a request ended. */
  datatype Cause = Replied | WrongObject | TimedOut | Expired | PeerVanished

  /** One termination: which request, under which serial number, and why. */
  datatype End = End(id: nat, sn: Sn, cause: Cause)

  type Table = map<Sn, Request>

  /** The table, the serial number counter, and the history: `entered` are the
      ids put in the table, `ended` the terminations, in order. */
  datatype State = State(table: Table, nextSn: Sn, sends: nat, entered: set<nat>, ended: seq<End>)

  datatype Step =
    | Send(objectId: int, sent: bool)
    | Response(sn: Sn, objectId: int)
    | Timeout(sn: Sn)
    | Scan
    | Close

  // ------------------------------------------------------------------
  // Specification of the steps.

  function Advance(sn: Sn): Sn {
    (sn + 1) % SN_SPAN
  }

  /** A sent request is entered under the next serial number, unless that
      number is still in use: then it is lost without being entered. */
  function AfterSend(s: State, objectId: int, sent: bool): State {
    var t := s.(nextSn := Advance(s.nextSn), sends := s.sends + 1);
    if sent && s.nextSn !in s.table
    then t.(table := s.table[s.nextSn := Request(s.sends, objectId, 0)], entered := s.entered + {s.sends})
    else t
  }

  function Terminate(s: State, sn: Sn, cause: Cause): State {
    if sn in s.table
    then s.(table := s.table - {sn}, ended := s.ended + [End(s.table[sn].id, sn, cause)])
    else s
  }

  function AfterResponse(s: State, sn: Sn, objectId: int): State {
    Terminate(s, sn, if sn in s.table && s.table[sn].objectId != objectId then WrongObject else Replied)
  }

  /** Ages the requests with the given serial numbers, ending those too old. */
  function ScanOver(s: State, sns: set<Sn>): State
    requires sns <= s.table.Keys
    decreases |sns|
  {
    if sns == {} then s
    else
      var sn := KeyOrder.Least(sns);
      var older := s.table[sn].(lifeTime := s.table[sn].lifeTime + 1);
      var aged := s.(table := s.table[sn := older]);
      if older.lifeTime > MAX_LIFETIME then ScanOver(Terminate(aged, sn, Expired), sns - {sn})
      else ScanOver(aged, sns - {sn})
  }

  function CloseAll(s: State): State
    decreases |s.table.Keys|
  {
    if s.table.Keys == {} then s
    else CloseAll(Terminate(s, KeyOrder.Least(s.table.Keys), PeerVanished))
  }

  function Next(s: State, step: Step): State {
    match step
    case Send(objectId, sent) => AfterSend(s, objectId, sent)
    case Response(sn, objectId) => AfterResponse(s, sn, objectId)
    case Timeout(sn) => Terminate(s, sn, TimedOut)
    case Scan => ScanOver(s, s.table.Keys)
    case Close => CloseAll(s)
  }

  function Run(s: State, steps: seq<Step>): State {
    if steps == [] then s else Next(Run(s, steps[..|steps| - 1]), steps[|steps| - 1])
  }

  const INITIAL := State(map[], 0, 0, {}, [])

  // ------------------------------------------------------------------
  // Every entered request ends exactly once.

  ghost predicate Waiting(s: State, id: nat) {
    exists sn :: sn in s.table && s.table[sn].id == id
  }

  ghost predicate Ended(s: State, id: nat) {
    exists i :: 0 <= i < |s.ended| && s.ended[i].id == id
  }

  /** A request's serial number follows from its place among all sends. */
  ghost predicate Numbered(s: State) {
    && s.nextSn == s.sends % SN_SPAN
    && forall sn | sn in s.table :: sn == s.table[sn].id % SN_SPAN
  }

  /** Every entered request is in the table or has ended, never both, and has
      ended at most once. */
  ghost predicate Accounted(s: State) {
    && (forall a, b | a in s.table && b in s.table && s.table[a].id == s.table[b].id :: a == b)
    && (forall sn | sn in s.table :: s.table[sn].id in s.entered)
    && (forall i | 0 <= i < |s.ended| :: s.ended[i].id in s.entered)
    && (forall i, j | 0 <= i < j < |s.ended| :: s.ended[i].id != s.ended[j].id)
    && (forall sn, i | sn in s.table && 0 <= i < |s.ended| :: s.table[sn].id != s.ended[i].id)
    && (forall id | id in s.entered :: id < s.sends && (Waiting(s, id) || Ended(s, id)))
  }

  ghost predicate Young(s: State) {
    forall sn | sn in s.table :: 0 <= s.table[sn].lifeTime <= MAX_LIFETIME
  }

  ghost predicate Inv(s: State) {
    Accounted(s) && Numbered(s) && Young(s)
  }

  lemma TerminateKeepsAccount(s: State, sn: Sn, cause: Cause)
    requires Accounted(s)
    ensures Accounted(Terminate(s, sn, cause))
  {
    if sn in s.table {
      var t := Terminate(s, sn, cause);
      forall id | id in t.entered ensures Waiting(t, id) || Ended(t, id) {
        assert Waiting(s, id) || Ended(s, id);
        if Ended(s, id) {
          var i :| 0 <= i < |s.ended| && s.ended[i].id == id;
          assert t.ended[i].id == id;
        } else if s.table[sn].id == id {
          assert t.ended[|s.ended|].id == id;
        } else {
          var n :| n in s.table && s.table[n].id == id;
          assert n in t.table && t.table[n].id == id;
        }
      }
    }
  }

  lemma SendKeepsInv(s: State, objectId: int, sent: bool)
    requires Inv(s)
    ensures Inv(AfterSend(s, objectId, sent))
  {
    var t := AfterSend(s, objectId, sent);
    forall id | id in t.entered ensures id < t.sends && (Waiting(t, id) || Ended(t, id)) {
      if id in s.entered {
        if Ended(s, id) {
          var i :| 0 <= i < |s.ended| && s.ended[i].id == id;
          assert t.ended[i].id == id;
        } else {
          var n :| n in s.table && s.table[n].id == id;
          assert n in t.table && t.table[n].id == id;
        }
      } else {
        assert s.nextSn in t.table && t.table[s.nextSn].id == id;
      }
    }
  }

  /** The step of a scan on one request: one scan older. */
  function Older(s: State, sn: Sn): State
    requires sn in s.table
  {
    s.(table := s.table[sn := s.table[sn].(lifeTime := s.table[sn].lifeTime + 1)])
  }

  lemma OlderKeepsAccount(s: State, sn: Sn)
    requires Accounted(s) && sn in s.table
    ensures Accounted(Older(s, sn))
  {
    var t := Older(s, sn);
    forall id | id in t.entered ensures Waiting(t, id) || Ended(t, id) {
      if Ended(s, id) {
        var i :| 0 <= i < |s.ended| && s.ended[i].id == id;
        assert t.ended[i].id == id;
      } else {
        var n :| n in s.table && s.table[n].id == id;
        assert n in t.table && t.table[n].id == id;
      }
    }
  }

  lemma {:induction false} ScanKeepsInv(s: State, sns: set<Sn>)
    requires Accounted(s) && Numbered(s) && sns <= s.table.Keys
    requires Young(s)
    ensures Inv(ScanOver(s, sns))
    decreases |sns|
  {
    if sns != {} {
      var sn := KeyOrder.Least(sns);
      var aged := Older(s, sn);
      OlderKeepsAccount(s, sn);
      TerminateKeepsAccount(aged, sn, Expired);
      if aged.table[sn].lifeTime > MAX_LIFETIME {
        ScanKeepsInv(Terminate(aged, sn, Expired), sns - {sn});
      } else {
        ScanKeepsInv(aged, sns - {sn});
      }
    }
  }

  lemma {:induction false} CloseKeepsInv(s: State)
    requires Inv(s)
    ensures Inv(CloseAll(s)) && CloseAll(s).table == map[]
    decreases |s.table.Keys|
  {
    if s.table.Keys != {} {
      var sn := KeyOrder.Least(s.table.Keys);
      TerminateKeepsAccount(s, sn, PeerVanished);
      CloseKeepsInv(Terminate(s, sn, PeerVanished));
    }
  }

  lemma StepKeepsInv(s: State, step: Step)
    requires Inv(s)
    ensures Inv(Next(s, step))
    ensures step.Close? ==> Next(s, step).table == map[]
  {
    match step
    case Send(objectId, sent) => SendKeepsInv(s, objectId, sent);
    case Response(sn, objectId) =>
      TerminateKeepsAccount(s, sn, if sn in s.table && s.table[sn].objectId != objectId then WrongObject else Replied);
    case Timeout(sn) => TerminateKeepsAccount(s, sn, TimedOut);
    case Scan => ScanKeepsInv(s, s.table.Keys);
    case Close => CloseKeepsInv(s);
  }

  /** In every run, each entered request is waiting or has ended exactly once,
      and no waiting request has been through more than five scans. */
  lemma {:induction false} EveryRequestEndsOnce(steps: seq<Step>)
    ensures Inv(Run(INITIAL, steps))
  {
    if steps != [] {
      EveryRequestEndsOnce(steps[..|steps| - 1]);
      StepKeepsInv(Run(INITIAL, steps[..|steps| - 1]), steps[|steps| - 1]);
    }
  }

  /** A sent request is entered if and only if no request sent a multiple of
      2^32 sends earlier is still waiting. */
  lemma EnteredIff(s: State, objectId: int)
    requires Inv(s)
    ensures s.sends in AfterSend(s, objectId, true).entered
            <==> !exists id: nat :: Waiting(s, id) && (s.sends - id) % SN_SPAN == 0
  {
    if s.nextSn in s.table {
      var id := s.table[s.nextSn].id;
      assert Waiting(s, id) && id % SN_SPAN == s.sends % SN_SPAN;
      SameRemainder(s.sends, id);
    }
    forall id: nat | Waiting(s, id) && (s.sends - id) % SN_SPAN == 0 ensures s.nextSn in s.table {
      var sn :| sn in s.table && s.table[sn].id == id;
      SameRemainder(s.sends, id);
    }
  }

  lemma SameRemainder(a: int, b: int)
    ensures (a - b) % SN_SPAN == 0 <==> a % SN_SPAN == b % SN_SPAN
  {}

  lemma {:induction false} RunConcat(s: State, a: seq<Step>, b: seq<Step>)
    ensures Run(s, a + b) == Run(Run(s, a), b)
    decreases |b|
  {
    if b == [] {
      assert a + b == a;
    } else {
      RunConcat(s, a, b[..|b| - 1]);
      assert (a + b)[..|a + b| - 1] == a + b[..|b| - 1];
    }
  }

  function Unsent(n: nat): seq<Step> {
    seq(n, _ => Send(0, false))
  }

  /** Sends that fail only move the counter. */
  lemma {:induction false} UnsentOnlyCount(s: State, n: nat)
    requires 0 <= s.nextSn < SN_SPAN
    ensures Run(s, Unsent(n)) == s.(nextSn := (s.nextSn + n) % SN_SPAN, sends := s.sends + n)
  {
    if n > 0 {
      UnsentOnlyCount(s, n - 1);
      assert Unsent(n)[..n - 1] == Unsent(n - 1);
      NextRemainder(s.nextSn + n - 1);
    }
  }

  lemma NextRemainder(v: nat)
    ensures (v % SN_SPAN + 1) % SN_SPAN == (v + 1) % SN_SPAN
  {}

  /** One request waits while 2^32 - 1 sends fail; the request after them is
      sent under the serial number of the first and is not entered. */
  lemma LostAfterWrapAround()
    ensures var s := Run(INITIAL, [Send(0, true)] + Unsent(SN_SPAN - 1));
            && Inv(s) && Waiting(s, 0) && s.sends == SN_SPAN
            && s.sends !in Run(s, [Send(0, true)]).entered
            && Run(s, [Send(0, true)]).table == s.table
  {
    var first := Run(INITIAL, [Send(0, true)]);
    assert [Send(0, true)][..0] == [];
    assert first == State(map[0 := Request(0, 0, 0)], 1, 1, {0}, []);
    RunConcat(INITIAL, [Send(0, true)], Unsent(SN_SPAN - 1));
    UnsentOnlyCount(first, SN_SPAN - 1);
    var s := Run(INITIAL, [Send(0, true)] + Unsent(SN_SPAN - 1));
    EveryRequestEndsOnce([Send(0, true)] + Unsent(SN_SPAN - 1));
    assert s == first.(nextSn := 0, sends := SN_SPAN);
    assert 0 in s.table;
    assert Run(s, [Send(0, true)]) == AfterSend(s, 0, true);
  }

  // ------------------------------------------------------------------
  // What ends a request.

  /** A step ends a request only if it names its serial number, is a scan that
      finds it too old, or closes the session. */
  ghost predicate Justified(s: State, step: Step, e: End) {
    && e.sn in s.table && s.table[e.sn].id == e.id
    && match step
       case Send(_, _) => false
       case Response(sn, objectId) =>
         sn == e.sn && e.cause == if s.table[sn].objectId == objectId then Replied else WrongObject
       case Timeout(sn) => sn == e.sn && e.cause == TimedOut
       case Scan => e.cause == Expired && s.table[e.sn].lifeTime >= MAX_LIFETIME
       case Close => e.cause == PeerVanished
  }

  lemma {:induction false} ScanEnds(s: State, sns: set<Sn>, n: nat)
    requires sns <= s.table.Keys && n < |ScanOver(s, sns).ended|
    ensures s.ended <= ScanOver(s, sns).ended
    ensures n >= |s.ended| ==>
              var e := ScanOver(s, sns).ended[n];
              e.sn in sns && s.table[e.sn].id == e.id && e.cause == Expired && s.table[e.sn].lifeTime >= MAX_LIFETIME
    decreases |sns|
  {
    if sns != {} {
      var sn := KeyOrder.Least(sns);
      var aged := Older(s, sn);
      if aged.table[sn].lifeTime > MAX_LIFETIME {
        ScanEnds(Terminate(aged, sn, Expired), sns - {sn}, n);
      } else {
        ScanEnds(aged, sns - {sn}, n);
      }
    }
  }

  lemma {:induction false} CloseEnds(s: State, n: nat)
    requires n < |CloseAll(s).ended|
    ensures s.ended <= CloseAll(s).ended
    ensures n >= |s.ended| ==>
              var e := CloseAll(s).ended[n];
              e.sn in s.table && s.table[e.sn].id == e.id && e.cause == PeerVanished
    decreases |s.table.Keys|
  {
    if s.table.Keys != {} {
      CloseEnds(Terminate(s, KeyOrder.Least(s.table.Keys), PeerVanished), n);
    }
  }

  /** Past terminations stay, and each new one is justified by the step. */
  lemma OnlyJustifiedEnds(s: State, step: Step, n: nat)
    requires n < |Next(s, step).ended|
    ensures s.ended <= Next(s, step).ended
    ensures n >= |s.ended| ==> Justified(s, step, Next(s, step).ended[n])
  {
    match step
    case Scan => ScanEnds(s, s.table.Keys, n);
    case Close => CloseEnds(s, n);
    case _ =>
  }

  // ------------------------------------------------------------------
  // No request waits longer than five scans.

  function Scans(steps: seq<Step>): nat {
    if steps == [] then 0
    else Scans(steps[..|steps| - 1]) + if steps[|steps| - 1].Scan? then 1 else 0
  }

  /** A scan makes each survivor exactly one scan older. */
  lemma {:induction false} ScanAges(s: State, sns: set<Sn>, sn: Sn)
    requires sns <= s.table.Keys && sn in ScanOver(s, sns).table
    ensures sn in s.table
    ensures ScanOver(s, sns).table[sn] == s.table[sn].(lifeTime := s.table[sn].lifeTime + if sn in sns then 1 else 0)
    decreases |sns|
  {
    if sns != {} {
      var n := KeyOrder.Least(sns);
      var aged := Older(s, n);
      if aged.table[n].lifeTime > MAX_LIFETIME {
        ScanAges(Terminate(aged, n, Expired), sns - {n}, sn);
      } else {
        ScanAges(aged, sns - {n}, sn);
      }
    }
  }

  /** As long as request `id` under `sn` waits, its lifetime counts the scans. */
  lemma {:induction false} LifeTimeCountsScans(s: State, steps: seq<Step>, sn: Sn, id: nat)
    requires Inv(s) && sn in s.table && s.table[sn].id == id
    requires sn in Run(s, steps).table && Run(s, steps).table[sn].id == id
    ensures Run(s, steps).table[sn].lifeTime == s.table[sn].lifeTime + Scans(steps)
  {
    if steps != [] {
      var before, last := Run(s, steps[..|steps| - 1]), steps[|steps| - 1];
      RunKeepsInv(s, steps[..|steps| - 1]);
      StaysUnder(before, last, sn, id);
      LifeTimeCountsScans(s, steps[..|steps| - 1], sn, id);
      if last.Scan? {
        ScanAges(before, before.table.Keys, sn);
      }
      if last.Close? {
        CloseKeepsInv(before);
      }
    }
  }

  lemma {:induction false} RunKeepsInv(s: State, steps: seq<Step>)
    requires Inv(s)
    ensures Inv(Run(s, steps)) && Run(s, steps).sends >= s.sends
    ensures s.entered <= Run(s, steps).entered
  {
    if steps != [] {
      RunKeepsInv(s, steps[..|steps| - 1]);
      StepKeepsInv(Run(s, steps[..|steps| - 1]), steps[|steps| - 1]);
      StepOnlyAdds(Run(s, steps[..|steps| - 1]), steps[|steps| - 1]);
    }
  }

  lemma StepOnlyAdds(s: State, step: Step)
    ensures Next(s, step).sends >= s.sends && s.entered <= Next(s, step).entered
    ensures !step.Send? ==> Next(s, step).sends == s.sends && Next(s, step).entered == s.entered
  {
    match step
    case Scan => ScanOnlyEnds(s, s.table.Keys);
    case Close => CloseOnlyEnds(s);
    case _ =>
  }

  lemma {:induction false} ScanOnlyEnds(s: State, sns: set<Sn>)
    requires sns <= s.table.Keys
    ensures ScanOver(s, sns).sends == s.sends && ScanOver(s, sns).entered == s.entered
    decreases |sns|
  {
    if sns != {} {
      var sn := KeyOrder.Least(sns);
      var aged := Older(s, sn);
      ScanOnlyEnds(if aged.table[sn].lifeTime > MAX_LIFETIME then Terminate(aged, sn, Expired) else aged, sns - {sn});
    }
  }

  lemma {:induction false} CloseOnlyEnds(s: State)
    ensures CloseAll(s).sends == s.sends && CloseAll(s).entered == s.entered
    decreases |s.table.Keys|
  {
    if s.table.Keys != {} {
      CloseOnlyEnds(Terminate(s, KeyOrder.Least(s.table.Keys), PeerVanished));
    }
  }

  /** A request that waits after a step and was entered before it waited before it. */
  lemma StaysUnder(s: State, step: Step, sn: Sn, id: nat)
    requires Inv(s) && id in s.entered
    requires sn in Next(s, step).table && Next(s, step).table[sn].id == id
    ensures sn in s.table && s.table[sn].id == id
  {
    match step
    case Scan => ScanAges(s, s.table.Keys, sn);
    case Close => CloseKeepsInv(s);
    case _ =>
  }

  /** Every entered request has ended once the session has been scanned six
      more times, whatever else happened in between. */
  lemma NoRequestOutlivesSixScans(s: State, steps: seq<Step>, id: nat)
    requires Inv(s) && id in s.entered && Scans(steps) > MAX_LIFETIME
    ensures Ended(Run(s, steps), id)
  {
    var t := Run(s, steps);
    RunKeepsInv(s, steps);
    if Waiting(t, id) {
      var sn :| sn in t.table && t.table[sn].id == id;
      WaitedBefore(s, steps, sn, id);
      LifeTimeCountsScans(s, steps, sn, id);
      assert false;
    }
  }

  lemma {:induction false} WaitedBefore(s: State, steps: seq<Step>, sn: Sn, id: nat)
    requires Inv(s) && id in s.entered
    requires sn in Run(s, steps).table && Run(s, steps).table[sn].id == id
    ensures sn in s.table && s.table[sn].id == id
  {
    if steps != [] {
      var before := Run(s, steps[..|steps| - 1]);
      RunKeepsInv(s, steps[..|steps| - 1]);
      StaysUnder(before, steps[|steps| - 1], sn, id);
      WaitedBefore(s, steps[..|steps| - 1], sn, id);
    }
  }

  // ------------------------------------------------------------------
  // The session's table.

  class Session {
    var table: Table
    var nextSn: Sn
    ghost var sends: nat
    ghost var entered: set<nat>
    ghost var ended: seq<End>

    ghost function S(): State
      reads this
    {
      State(table, nextSn, sends, entered, ended)
    }

    constructor ()
      ensures S() == INITIAL
    {
      table, nextSn, sends, entered, ended := map[], 0, 0, {}, [];
    }

    /** Takes the next serial number and sends; `sent` is the outcome.  The
        request's identity is the number of sends before it. */
    method SendMessageSync(objectId: int, sent: bool, id: nat) returns (sn: Sn)
      requires id == sends
      modifies this
      ensures S() == Next(old(S()), Send(objectId, sent)) && sn == old(nextSn)
    {
      sn := nextSn;
      nextSn := (nextSn + 1) % SN_SPAN;
      sends := sends + 1;
      if sent {
        InsertEntry(sn, Request(id, objectId, 0));
      }
    }

    /** Enters the request unless the serial number is taken. */
    method InsertEntry(sn: Sn, request: Request)
      modifies this`table, this`entered
      ensures if sn in old(table) then table == old(table) && entered == old(entered)
              else table == old(table)[sn := request] && entered == old(entered) + {request.id}
    {
      if sn !in table {
        table := table[sn := request];
        entered := entered + {request.id};
      }
    }

    method TerminateMessage(sn: Sn, cause: Cause)
      modifies this`table, this`ended
      ensures S() == Terminate(old(S()), sn, cause)
    {
      if sn in table {
        ended := ended + [End(table[sn].id, sn, cause)];
        table := table - {sn};
      }
    }

    method DoResponse(sn: Sn, objectId: int)
      modifies this`table, this`ended
      ensures S() == Next(old(S()), Response(sn, objectId))
    {
      if sn in table {
        if table[sn].objectId != objectId {
          TerminateMessage(sn, WrongObject);
        } else {
          TerminateMessage(sn, Replied);
        }
      }
    }

    method OnTimeout(sn: Sn)
      modifies this`table, this`ended
      ensures S() == Next(old(S()), Timeout(sn))
    {
      TerminateMessage(sn, TimedOut);
    }

    /** Ages all requests and ends the ones that are too old. */
    method ScanLifeTime()
      modifies this`table, this`ended
      ensures S() == Next(old(S()), Scan)
    {
      var rest := table.Keys;
      while rest != {}
        invariant rest <= table.Keys
        invariant ScanOver(S(), rest) == Next(old(S()), Scan)
        decreases |rest|
      {
        var sn := KeyOrder.Least(rest);
        var request := table[sn].(lifeTime := table[sn].lifeTime + 1);
        table := table[sn := request];
        if request.lifeTime > MAX_LIFETIME {
          TerminateMessage(sn, Expired);
        }
        rest := rest - {sn};
      }
    }

    /** The connection is gone: everything still waiting ends. */
    method Destroy()
      modifies this`table, this`ended
      ensures S() == Next(old(S()), Close)
    {
      while table.Keys != {}
        invariant CloseAll(S()) == Next(old(S()), Close)
        decreases |table.Keys|
      {
        TerminateMessage(KeyOrder.Least(table.Keys), PeerVanished);
      }
    }
  }
}
