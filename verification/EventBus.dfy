/** The way of an event to the subscribers: a bounded queue that drops what it has no room for, and a task that
    delivers from it at any later time. */
module EventBus {
  import opened Bits
  import opened AttrReports
  import opened DeviceRegistry
  import opened Subsequences

  const NOTIFY_QUEUE_DEPTH: nat := 32

  /** Events of the registry, and those of the network and the button, which share the queue. */
  datatype BusEvent = OfDevice(event: RegEvent) | OfOther

  datatype Bus = Bus(pending: seq<BusEvent>, delivered: seq<BusEvent>, emitted: seq<BusEvent>, lost: nat)

  const EMPTY_BUS := Bus([], [], [], 0)

  predicate HasRoom(b: Bus) {
    |b.pending| < NOTIFY_QUEUE_DEPTH
  }

  function Emitted(b: Bus, e: BusEvent): Bus {
    if HasRoom(b) then b.(pending := b.pending + [e], emitted := b.emitted + [e])
    else b.(emitted := b.emitted + [e], lost := b.lost + 1)
  }

  function Delivered(b: Bus): Bus
    requires b.pending != []
  {
    b.(pending := b.pending[1..], delivered := b.delivered + [b.pending[0]])
  }

  /** The queue in place. What was delivered and emitted is history. */
  class NotifyQueue {
    var pending: seq<BusEvent>
    ghost var delivered: seq<BusEvent>
    ghost var emitted: seq<BusEvent>
    ghost var lost: nat

    ghost function Value(): Bus
      reads this
    {
      Bus(pending, delivered, emitted, lost)
    }

    constructor ()
      ensures Value() == EMPTY_BUS
    {
      pending, delivered, emitted, lost := [], [], [], 0;
    }

    /** Called by any task; it does not wait for room. */
    method Emit(e: BusEvent)
      modifies this
      ensures Value() == Emitted(old(Value()), e)
    {
      emitted := emitted + [e];
      if |pending| < NOTIFY_QUEUE_DEPTH {
        pending := pending + [e];
      } else {
        lost := lost + 1;
      }
    }

    /** One turn of the notify task. */
    method Notify() returns (e: BusEvent)
      requires pending != []
      modifies this
      ensures e == old(pending)[0] && Value() == Delivered(old(Value()))
    {
      e := pending[0];
      pending := pending[1..];
      delivered := delivered + [e];
    }
  }

  // ---------- Runs ----------

  datatype BusAction = DoEmit(e: BusEvent) | DoNotify | DoRestart

  predicate BusEnabled(b: Bus, a: BusAction) {
    a.DoNotify? ==> b.pending != []
  }

  function BusNext(b: Bus, a: BusAction): Bus
    requires BusEnabled(b, a)
  {
    match a
    case DoEmit(e) => Emitted(b, e)
    case DoNotify => Delivered(b)
    case DoRestart => b.(pending := [], lost := b.lost + |b.pending|)
  }

  ghost predicate BusPossible(b: Bus, run: seq<BusAction>)
    decreases |run|
  {
    run == [] || (BusEnabled(b, run[0]) && BusPossible(BusNext(b, run[0]), run[1..]))
  }

  function BusExec(b: Bus, run: seq<BusAction>): Bus
    requires BusPossible(b, run)
    decreases |run|
  {
    if run == [] then b else BusExec(BusNext(b, run[0]), run[1..])
  }

  // ---------- What is lost ----------

  /** No emit finds the queue full and no restart finds it filled. */
  ghost predicate Roomy(b: Bus, run: seq<BusAction>)
    requires BusPossible(b, run)
    decreases |run|
  {
    run != [] ==>
      && (run[0].DoEmit? ==> |b.pending| < 32)
      && (run[0].DoRestart? ==> b.pending == [])
      && Roomy(BusNext(b, run[0]), run[1..])
  }

  ghost predicate Balanced(b: Bus) {
    && |b.emitted| == |b.delivered| + |b.pending| + b.lost
    && Subseq(b.delivered + b.pending, b.emitted)
    && (b.lost == 0 ==> b.delivered + b.pending == b.emitted)
  }

  lemma {:induction false} BalancedStep(b: Bus, a: BusAction)
    requires Balanced(b) && BusEnabled(b, a)
    ensures Balanced(BusNext(b, a))
  {
    var b' := BusNext(b, a);
    match a {
      case DoEmit(e) =>
        SubseqSelf([e]);
        SubseqEmpty([e]);
        if HasRoom(b) {
          SubseqConcat(b.delivered + b.pending, b.emitted, [e], [e]);
          Assoc(b.delivered, b.pending, [e]);
        } else {
          SubseqConcat(b.delivered + b.pending, b.emitted, [], [e]);
          assert b.delivered + b.pending + [] == b.delivered + b.pending;
        }
      case DoNotify =>
        Assoc(b.delivered, [b.pending[0]], b.pending[1..]);
        assert [b.pending[0]] + b.pending[1..] == b.pending;
      case DoRestart =>
        SubseqPrefix(b.delivered, b.pending);
        SubseqTransitive(b.delivered, b.delivered + b.pending, b.emitted);
        assert b.delivered + [] == b.delivered;
        assert b.pending == [] ==> b.delivered + b.pending == b.delivered;
    }
  }

  lemma {:induction false} LostGrows(b: Bus, run: seq<BusAction>)
    requires BusPossible(b, run) && Balanced(b)
    ensures Balanced(BusExec(b, run)) && BusExec(b, run).lost >= b.lost
    ensures BusExec(b, run).lost == b.lost <==> Roomy(b, run)
    decreases |run|
  {
    if run != [] {
      BalancedStep(b, run[0]);
      LostGrows(BusNext(b, run[0]), run[1..]);
    }
  }

  /** Subscribers get events in the order in which they were emitted, and each emitted event is delivered,
      waiting or lost. Nothing is lost exactly when no emit finds 32 events waiting and no restart finds any. */
  lemma {:induction false} NothingLostIff(run: seq<BusAction>)
    requires BusPossible(EMPTY_BUS, run)
    ensures var b := BusExec(EMPTY_BUS, run);
            && Subseq(b.delivered + b.pending, b.emitted)
            && |b.emitted| == |b.delivered| + |b.pending| + b.lost
            && (b.delivered + b.pending == b.emitted <==> Roomy(EMPTY_BUS, run))
  {
    SubseqEmpty<BusEvent>([]);
    assert EMPTY_BUS.delivered + EMPTY_BUS.pending == [];
    LostGrows(EMPTY_BUS, run);
    var b := BusExec(EMPTY_BUS, run);
    if b.delivered + b.pending == b.emitted {
      assert |b.delivered + b.pending| == |b.delivered| + |b.pending|;
    }
  }

  // ---------- What a subscriber knows ----------

  function RegEvents(events: seq<BusEvent>): seq<RegEvent> {
    if events == [] then []
    else
      var last := events[|events| - 1];
      RegEvents(events[..|events| - 1]) + (if last.OfDevice? then [last.event] else [])
  }

  lemma {:induction false} RegEventsSnoc(events: seq<BusEvent>, e: BusEvent)
    ensures RegEvents(events + [e]) == RegEvents(events) + (if e.OfDevice? then [e.event] else [])
  {
    assert (events + [e])[..|events|] == events;
  }

  /** The address map that follows from the events. */
  function Knows(events: seq<BusEvent>): Addrs {
    Replay(RegEvents(events))
  }

  /** The devices whose address an event is about. */
  function About(e: BusEvent): set<nat> {
    match e
    case OfOther => {}
    case OfDevice(Joined(ieee, _)) => {ieee}
    case OfDevice(Left(ieee)) => {ieee}
    case OfDevice(Report(_)) => {}
  }

  function AboutAll(events: seq<BusEvent>): set<nat> {
    if events == [] then {} else AboutAll(events[..|events| - 1]) + About(events[|events| - 1])
  }

  predicate AgreeAt(a: Addrs, b: Addrs, ieee: nat) {
    (ieee in a <==> ieee in b) && (ieee in a && ieee in b ==> a[ieee] == b[ieee])
  }

  /** The devices whose last JOINED or LEFT event was lost. */
  function Missed(b: Bus, a: BusAction, missed: set<nat>): set<nat>
    requires BusEnabled(b, a)
  {
    match a
    case DoEmit(e) => if HasRoom(b) then missed - About(e) else missed + About(e)
    case DoNotify => missed
    case DoRestart => missed + AboutAll(b.pending)
  }

  function MissedAfter(b: Bus, run: seq<BusAction>, missed: set<nat>): set<nat>
    requires BusPossible(b, run)
    decreases |run|
  {
    if run == [] then missed else MissedAfter(BusNext(b, run[0]), run[1..], Missed(b, run[0], missed))
  }

  /** An event changes what is known about its own device only, and there in the same way for everybody. */
  lemma {:induction false} KnowsSnoc(events: seq<BusEvent>, others: seq<BusEvent>, e: BusEvent, ieee: nat)
    ensures ieee !in About(e) ==> AgreeAt(Knows(events + [e]), Knows(events), ieee)
    ensures ieee in About(e) ==> AgreeAt(Knows(events + [e]), Knows(others + [e]), ieee)
  {
    RegEventsSnoc(events, e);
    RegEventsSnoc(others, e);
    if e.OfDevice? {
      ReplaySnoc(RegEvents(events), e.event);
      ReplaySnoc(RegEvents(others), e.event);
    } else {
      assert RegEvents(events) + [] == RegEvents(events);
    }
  }

  lemma {:induction false} KnowsWithout(events: seq<BusEvent>, more: seq<BusEvent>, ieee: nat)
    requires ieee !in AboutAll(more)
    ensures AgreeAt(Knows(events + more), Knows(events), ieee)
    decreases |more|
  {
    if more == [] {
      assert events + more == events;
    } else {
      var init, last := more[..|more| - 1], more[|more| - 1];
      assert events + more == events + init + [last];
      KnowsSnoc(events + init, [], last, ieee);
      KnowsWithout(events, init, ieee);
    }
  }

  /** Once everything that waits is delivered, one knows what was emitted about each device not missed. */
  ghost predicate BusInv(b: Bus, missed: set<nat>) {
    forall ieee :: ieee !in missed ==> AgreeAt(Knows(b.delivered + b.pending), Knows(b.emitted), ieee)
  }

  lemma {:induction false} BusStep(b: Bus, a: BusAction, missed: set<nat>, ieee: nat)
    requires BusInv(b, missed) && BusEnabled(b, a) && ieee !in Missed(b, a, missed)
    ensures AgreeAt(Knows(BusNext(b, a).delivered + BusNext(b, a).pending), Knows(BusNext(b, a).emitted), ieee)
  {
    match a {
      case DoEmit(e) =>
        KnowsSnoc(b.emitted, b.delivered + b.pending, e, ieee);
        if HasRoom(b) {
          Assoc(b.delivered, b.pending, [e]);
          KnowsSnoc(b.delivered + b.pending, b.emitted, e, ieee);
        }
      case DoNotify =>
        Assoc(b.delivered, [b.pending[0]], b.pending[1..]);
        assert [b.pending[0]] + b.pending[1..] == b.pending;
      case DoRestart =>
        KnowsWithout(b.delivered, b.pending, ieee);
        assert b.delivered + [] == b.delivered;
    }
  }

  lemma {:induction false} BusRun(b: Bus, run: seq<BusAction>, missed: set<nat>)
    requires BusInv(b, missed) && BusPossible(b, run)
    ensures BusInv(BusExec(b, run), MissedAfter(b, run, missed))
    decreases |run|
  {
    if run != [] {
      forall ieee | ieee !in Missed(b, run[0], missed)
        ensures AgreeAt(Knows(BusNext(b, run[0]).delivered + BusNext(b, run[0]).pending),
                        Knows(BusNext(b, run[0]).emitted), ieee)
      {
        BusStep(b, run[0], missed, ieee);
      }
      BusRun(BusNext(b, run[0]), run[1..], Missed(b, run[0], missed));
    }
  }

  /** A subscriber that gets everything from the beginning is right about each device whose last JOINED or LEFT
      event was queued and is no longer waiting. */
  lemma {:induction false} DeliveredIsRight(run: seq<BusAction>, ieee: nat)
    requires BusPossible(EMPTY_BUS, run)
    requires ieee !in MissedAfter(EMPTY_BUS, run, {}) && ieee !in AboutAll(BusExec(EMPTY_BUS, run).pending)
    ensures AgreeAt(Knows(BusExec(EMPTY_BUS, run).delivered), Knows(BusExec(EMPTY_BUS, run).emitted), ieee)
  {
    assert EMPTY_BUS.delivered + EMPTY_BUS.pending == EMPTY_BUS.emitted;
    BusRun(EMPTY_BUS, run, {});
    var b := BusExec(EMPTY_BUS, run);
    KnowsWithout(b.delivered, b.pending, ieee);
  }

  /** The whole way: after any operations and restarts of the registry, with any failures of the storage, and any
      interleaving of emits, deliveries and other events in which the registry's events have been emitted,
      what a subscriber knows about a device is how it is registered, unless a restart brought it up
      differently, its last event was lost, or its last event is still waiting. */
  lemma {:induction false} SubscriberKnowsRegistry(ops: seq<Op>, run: seq<BusAction>, ieee: nat)
    requires forall i :: 0 <= i < |ops| ==> Defined(ops[i])
    requires BusPossible(EMPTY_BUS, run) && RegEvents(BusExec(EMPTY_BUS, run).emitted) == Exec(START, ops).events
    requires ieee !in UntoldAfter(START, ops, {}, {}) && ieee !in MissedAfter(EMPTY_BUS, run, {})
    requires ieee !in AboutAll(BusExec(EMPTY_BUS, run).pending)
    ensures var slots, known := Exec(START, ops).slots, Knows(BusExec(EMPTY_BUS, run).delivered);
            && (ieee in known <==> ieee in Keys(slots))
            && forall i :: 0 <= i < |slots| && slots[i].active && slots[i].ieee == ieee ==> known[ieee] == slots[i].nwk
  {
    EventsTellRegistry(ops);
    DeliveredIsRight(run, ieee);
    var slots := Exec(START, ops).slots;
    forall i | 0 <= i < |slots| && slots[i].active && slots[i].ieee == ieee ensures ieee in Keys(slots) {
    }
  }

  // ---------- A run that loses an event ----------

  function EmitAll(events: seq<BusEvent>): seq<BusAction> {
    if events == [] then [] else [DoEmit(events[0])] + EmitAll(events[1..])
  }

  function NotifyTimes(n: nat): seq<BusAction> {
    if n == 0 then [] else [DoNotify] + NotifyTimes(n - 1)
  }

  lemma {:induction false} BusCompose(b: Bus, x: seq<BusAction>, y: seq<BusAction>)
    requires BusPossible(b, x) && BusPossible(BusExec(b, x), y)
    ensures BusPossible(b, x + y) && BusExec(b, x + y) == BusExec(BusExec(b, x), y)
    decreases |x|
  {
    if x == [] {
      assert x + y == y;
    } else {
      assert (x + y)[0] == x[0] && (x + y)[1..] == x[1..] + y;
      BusCompose(BusNext(b, x[0]), x[1..], y);
    }
  }

  lemma {:induction false} EmitAllQueued(b: Bus, events: seq<BusEvent>)
    requires |b.pending| + |events| <= NOTIFY_QUEUE_DEPTH
    ensures BusPossible(b, EmitAll(events))
    ensures BusExec(b, EmitAll(events)) == b.(pending := b.pending + events, emitted := b.emitted + events)
    decreases |events|
  {
    if events == [] {
      assert b.pending + [] == b.pending && b.emitted + [] == b.emitted;
    } else {
      EmitAllQueued(Emitted(b, events[0]), events[1..]);
      Assoc(b.pending, [events[0]], events[1..]);
      Assoc(b.emitted, [events[0]], events[1..]);
      assert [events[0]] + events[1..] == events;
    }
  }

  lemma {:induction false} AllDelivered(b: Bus)
    ensures BusPossible(b, NotifyTimes(|b.pending|))
    ensures BusExec(b, NotifyTimes(|b.pending|)) == b.(pending := [], delivered := b.delivered + b.pending)
    decreases |b.pending|
  {
    if b.pending == [] {
      assert b.delivered + [] == b.delivered;
    } else {
      AllDelivered(Delivered(b));
      Assoc(b.delivered, [b.pending[0]], b.pending[1..]);
      assert [b.pending[0]] + b.pending[1..] == b.pending;
    }
  }

  function Wrap(events: seq<RegEvent>): (w: seq<BusEvent>)
    ensures |w| == |events| && forall i :: 0 <= i < |events| ==> w[i] == OfDevice(events[i])
  {
    seq(|events|, i requires 0 <= i < |events| => OfDevice(events[i]))
  }

  lemma {:induction false} RegEventsOfWrap(events: seq<RegEvent>)
    ensures RegEvents(Wrap(events)) == events
    decreases |events|
  {
    if events != [] {
      var init := events[..|events| - 1];
      assert Wrap(events)[..|events| - 1] == Wrap(init);
      RegEventsOfWrap(init);
    }
  }

  /** A device joins, and that is delivered. Then it reports 32 attributes in one message and leaves, before
      the notify task gets a turn; after that everything that waits is delivered. */
  function LossyRun(joined: BusEvent, reports: seq<BusEvent>, left: BusEvent): seq<BusAction> {
    [DoEmit(joined), DoNotify] + EmitAll(reports) + [DoEmit(left)] + NotifyTimes(NOTIFY_QUEUE_DEPTH)
  }

  lemma {:induction false} LossyEnd(joined: BusEvent, reports: seq<BusEvent>, left: BusEvent)
    requires |reports| == NOTIFY_QUEUE_DEPTH
    ensures BusPossible(EMPTY_BUS, LossyRun(joined, reports, left))
    ensures BusExec(EMPTY_BUS, LossyRun(joined, reports, left))
            == Bus([], [joined] + reports, [joined] + reports + [left], 1)
  {
    var first := [DoEmit(joined), DoNotify];
    assert first[1..] == [DoNotify] && [DoNotify][1..] == [];
    var b1 := Bus([], [joined], [joined], 0);
    assert BusExec(EMPTY_BUS, first) == BusExec(Emitted(EMPTY_BUS, joined), [DoNotify]) == b1;
    EmitAllQueued(b1, reports);
    assert [] + reports == reports;
    BusCompose(EMPTY_BUS, first, EmitAll(reports));
    var b2 := Bus(reports, [joined], [joined] + reports, 0);
    assert [DoEmit(left)][1..] == [];
    BusCompose(EMPTY_BUS, first + EmitAll(reports), [DoEmit(left)]);
    AllDelivered(Emitted(b2, left));
    BusCompose(EMPTY_BUS, first + EmitAll(reports) + [DoEmit(left)], NotifyTimes(NOTIFY_QUEUE_DEPTH));
  }

  function ManyRecords(n: nat): (records: seq<AttrRecord>)
    ensures |records| == n && AllWellTyped(records)
    ensures forall i :: 0 <= i < n ==> records[i] == AttrRecord(0, 0x10, [1])
  {
    seq(n, _ => AttrRecord(0, 0x10, [1]))
  }

  lemma {:induction false} ManyRecordsSize(n: nat)
    ensures |Serialise(ManyRecords(n))| == 4 * n
  {
    if n > 0 {
      assert ManyRecords(n)[1..] == ManyRecords(n - 1);
      ManyRecordsSize(n - 1);
    }
  }

  lemma {:induction false} ThreeOps(r: Reg, a: Op, b: Op, c: Op)
    requires Defined(a) && Defined(b) && Defined(c)
    ensures Exec(r, [a, b, c]) == Next(Next(Next(r, a), b), c)
  {
    assert [a, b, c][1..] == [b, c] && [b, c][1..] == [c] && [c][1..] == [];
    var r1 := Next(r, a);
    var r2 := Next(r1, b);
    assert Exec(r, [a, b, c]) == Exec(r1, [b, c]) == Exec(r2, [c]) == Next(r2, c);
  }

  lemma {:induction false} FirstToJoin(ieee: nat, nwk: Word16)
    ensures var r := Join(START, ieee, nwk, true).0;
            && r.events == [Joined(ieee, nwk)] && FindNwk(r.slots, nwk) == 0
            && |r.slots| == MAX_DEVICES && r.slots[0].ieee == ieee
  {
    FirstFree(START.slots, 0);
    NotThere(START.slots, ieee);
    FirstNwk(Join(START, ieee, nwk, true).0.slots, nwk);
    assert START.events + [Joined(ieee, nwk)] == [Joined(ieee, nwk)];
  }

  /** The registry's part of that run, with working storage. */
  lemma {:induction false} LossyOps(ieee: nat, head: seq<byte>) returns (ops: seq<Op>, reports: seq<CapEvent>)
    requires |head| == 16
    ensures forall i :: 0 <= i < |ops| ==> Defined(ops[i]) && Succeeds(ops[i])
    ensures |reports| == NOTIFY_QUEUE_DEPTH
    ensures Exec(START, ops).events == [Joined(ieee, U16(head[4], head[5]))] + Reports(reports) + [Left(ieee)]
  {
    var nwk := U16(head[4], head[5]);
    var records := ManyRecords(NOTIFY_QUEUE_DEPTH);
    ManyRecordsSize(NOTIFY_QUEUE_DEPTH);
    var p := ReportPayload(head, 0, 0, records);
    FirstToJoin(ieee, nwk);
    ReportsRoundTrip(Join(START, ieee, nwk, true).0, head, 0, 0, records);
    reports := EventsOf(ieee, head[6], U16(head[2], head[3]), records);
    ops := [OpJoin(ieee, nwk, true), OpAf(p), OpLeave(ieee, true)];
    ThreeOps(START, OpJoin(ieee, nwk, true), OpAf(p), OpLeave(ieee, true));
  }

  lemma {:induction false} LeftMeansGone(ops: seq<Op>, before: seq<RegEvent>, ieee: nat)
    requires forall i :: 0 <= i < |ops| ==> Defined(ops[i]) && Succeeds(ops[i])
    requires Exec(START, ops).events == before + [Left(ieee)]
    ensures ieee !in Keys(Exec(START, ops).slots)
  {
    StartInv();
    AllToldWhileStorageWorks(START, ops);
    EventsTellRegistry(ops);
    ReplaySnoc(before, Left(ieee));
  }

  lemma {:induction false} JoinedIsKnown(ieee: nat, nwk: Word16, reports: seq<CapEvent>)
    ensures ieee in Knows(Wrap([Joined(ieee, nwk)] + Reports(reports)))
  {
    RegEventsOfWrap([Joined(ieee, nwk)] + Reports(reports));
    ReplayReports([Joined(ieee, nwk)], reports);
    ReplaySnoc([], Joined(ieee, nwk));
    assert [] + [Joined(ieee, nwk)] == [Joined(ieee, nwk)];
  }

  lemma {:induction false} WrapParts(joined: RegEvent, reports: seq<CapEvent>, left: RegEvent)
    ensures [OfDevice(joined)] + Wrap(Reports(reports)) == Wrap([joined] + Reports(reports))
    ensures [OfDevice(joined)] + Wrap(Reports(reports)) + [OfDevice(left)] == Wrap([joined] + Reports(reports) + [left])
  {
  }

  /** So with working storage and all events delivered that can be, a subscriber may still know a device that
      has left: its LEFT event found the queue full. */
  lemma {:induction false} LeftIsLost(ieee: nat, head: seq<byte>) returns (ops: seq<Op>, run: seq<BusAction>)
    requires |head| == 16
    ensures forall i :: 0 <= i < |ops| ==> Defined(ops[i]) && Succeeds(ops[i])
    ensures BusPossible(EMPTY_BUS, run) && BusExec(EMPTY_BUS, run).pending == []
    ensures RegEvents(BusExec(EMPTY_BUS, run).emitted) == Exec(START, ops).events
    ensures ieee !in Keys(Exec(START, ops).slots) && ieee in Knows(BusExec(EMPTY_BUS, run).delivered)
  {
    var reports;
    ops, reports := LossyOps(ieee, head);
    var nwk := U16(head[4], head[5]);
    var joined, left := Joined(ieee, nwk), Left(ieee);
    LeftMeansGone(ops, [joined] + Reports(reports), ieee);
    JoinedIsKnown(ieee, nwk, reports);
    WrapParts(joined, reports, left);
    RegEventsOfWrap([joined] + Reports(reports) + [left]);
    LossyEnd(OfDevice(joined), Wrap(Reports(reports)), OfDevice(left));
    run := LossyRun(OfDevice(joined), Wrap(Reports(reports)), OfDevice(left));
  }
}
