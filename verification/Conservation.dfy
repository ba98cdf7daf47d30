/** Where the frames go: conservation and order over whole runs of the transport. */
module Conservation {
  import opened Bits
  import opened MtFrame
  import opened RxMachine
  import opened ZnpLink
  import opened Subsequences
  import opened Correlator

  // ---------- Every frame is accounted for ----------

  /** What the reference parser finds in everything received so far. */
  function Parsed(log: Log): seq<RxEvent> {
    SpecParse(log.bytes)
  }

  lemma {:induction false} ParsedSnoc(log: Log, b: byte)
    requires log.start.Valid() && log.start.phase == HuntSof
    ensures var rx, events := Run(log.start, log.bytes).0, Step(Run(log.start, log.bytes).0, b).1;
            && Run(log.start, log.bytes + [b]).0 == Step(rx, b).0
            && Frames(SpecParse(log.bytes + [b])) == Frames(SpecParse(log.bytes)) + Frames(events)
            && FcsErrors(SpecParse(log.bytes + [b])) == FcsErrors(SpecParse(log.bytes)) + FcsErrors(events)
  {
    RefinesSpecParser(log.start, log.bytes);
    RefinesSpecParser(log.start, log.bytes + [b]);
    RunSnoc(log.start, log.bytes, b);
  }

  function OneIf(b: bool): nat {
    if b then 1 else 0
  }

  /** How often a frame occurs. */
  function Count(s: seq<Frame>, g: Frame): nat {
    if s == [] then 0 else Count(s[..|s| - 1], g) + OneIf(s[|s| - 1] == g)
  }

  lemma {:induction false} CountSnoc(s: seq<Frame>, f: Frame, g: Frame)
    ensures Count(s + [f], g) == Count(s, g) + OneIf(f == g)
  {
    assert (s + [f])[..|s|] == s;
  }

  lemma {:induction false} CountConcat(a: seq<Frame>, b: seq<Frame>, g: Frame)
    ensures Count(a + b, g) == Count(a, g) + Count(b, g)
    decreases |b|
  {
    if b == [] {
      assert a + b == a;
    } else {
      assert (a + b)[..|a + b| - 1] == a + b[..|b| - 1];
      CountConcat(a, b[..|b| - 1], g);
    }
  }

  ghost predicate WireInv(w: World) {
    && w.log.start.Valid() && w.log.start.phase == HuntSof
    && w.link.rx == Run(w.log.start, w.log.bytes).0
    && forall g :: Count(Frames(Parsed(w.log)), g) == Count(w.log.posted, g) + Count(w.log.tally.rawDropped, g)
  }

  /** How often a frame occurs among those that the dispatch task is done with. */
  ghost function Settled(t: Tally, g: Frame): nat {
    Count(t.matched, g) + Count(t.unexpected, g) + Count(t.unknown, g) + Count(t.areqDropped, g)
  }

  function InTransit(d: Dispatcher, g: Frame): nat {
    OneIf(d.Announced? && d.frame == g)
  }

  /** Each dispatched frame has gone somewhere. */
  ghost predicate PlaceAt(w: World, g: Frame) {
    && w.log.dispatched <= |w.log.posted|
    && Count(w.log.posted[..w.log.dispatched], g)
       == Settled(w.log.tally, g) + Count(w.log.consumed, g) + Count(w.link.areqQueue, g)
          + InTransit(w.link.dispatcher, g)
  }

  ghost predicate PlaceInv(w: World) {
    forall g: Frame :: PlaceAt(w, g)
  }

  /** Everything that is counted as an error. */
  function Faults(log: Log): nat {
    FcsErrors(Parsed(log)) + |log.tally.rawDropped| + |log.tally.areqDropped|
    + log.tally.requestTimeouts + log.tally.resetTimeouts
  }

  ghost predicate ErrorInv(w: World) {
    w.link.errors == Faults(w.log) % U32
  }

  /** Counting one more, modulo 2^32. */
  lemma {:induction false} OneMore(e: nat, n: nat)
    requires e == n % U32
    ensures (e + 1) % U32 == (n + 1) % U32
  {
  }

  /** Where the frame goes that a byte completes. */
  datatype ByteFate = Nothing | Posted(frame: Frame) | Dropped(frame: Frame)

  function Fate(l: Link, b: byte): ByteFate {
    var events := Step(l.rx, b).1;
    if events == [] || !events[0].FrameReceived? then Nothing
    else if |l.rawQueue| < RAW_QUEUE_DEPTH then Posted(events[0].frame)
    else Dropped(events[0].frame)
  }

  lemma {:induction false} ByteEffect(w: World, b: byte)
    ensures var w', fate := ByteStep(w, b), Fate(w.link, b);
            && w'.log.start == w.log.start && w'.log.bytes == w.log.bytes + [b]
            && w'.log.dispatched == w.log.dispatched && w'.log.consumed == w.log.consumed
            && w'.link.areqQueue == w.link.areqQueue && w'.link.dispatcher == w.link.dispatcher
            && w'.link.rx == Step(w.link.rx, b).0
            && w'.log.posted == (if fate.Posted? then w.log.posted + [fate.frame] else w.log.posted)
            && w'.log.tally == w.log.tally.(rawDropped := if fate.Dropped? then w.log.tally.rawDropped + [fate.frame]
                                                          else w.log.tally.rawDropped)
    ensures Frames(Step(w.link.rx, b).1) == if Fate(w.link, b).Nothing? then [] else [Fate(w.link, b).frame]
  {
    StepReportsAtMostOne(w.link.rx, b);
  }

  /** A frame that a byte completes is posted or dropped. */
  lemma {:induction false} FateCounted(w: World, w': World, fate: ByteFate, g: Frame)
    requires w'.log.posted == if fate.Posted? then w.log.posted + [fate.frame] else w.log.posted
    requires w'.log.tally.rawDropped
             == if fate.Dropped? then w.log.tally.rawDropped + [fate.frame] else w.log.tally.rawDropped
    ensures Count(w'.log.posted, g) + Count(w'.log.tally.rawDropped, g)
            == Count(w.log.posted, g) + Count(w.log.tally.rawDropped, g)
               + (if fate.Nothing? then 0 else OneIf(fate.frame == g))
  {
    if fate.Posted? {
      CountSnoc(w.log.posted, fate.frame, g);
    } else if fate.Dropped? {
      CountSnoc(w.log.tally.rawDropped, fate.frame, g);
    }
  }

  lemma {:induction false} CountOne(f: Frame, g: Frame)
    ensures Count([f], g) == OneIf(f == g)
  {
    CountSnoc([], f, g);
    assert [] + [f] == [f];
  }

  lemma {:induction false} ByteWireAt(w: World, b: byte, w': World, g: Frame)
    requires WireInv(w) && w' == ByteStep(w, b)
    ensures Count(Frames(Parsed(w'.log)), g) == Count(w'.log.posted, g) + Count(w'.log.tally.rawDropped, g)
  {
    var fate, frames := Fate(w.link, b), Frames(Step(w.link.rx, b).1);
    ByteEffect(w, b);
    ParsedSnoc(w.log, b);
    FateCounted(w, w', fate, g);
    CountConcat(Frames(Parsed(w.log)), frames, g);
    if !fate.Nothing? {
      CountOne(fate.frame, g);
    }
  }

  lemma {:induction false} ByteWire(w: World, b: byte)
    requires WireInv(w)
    ensures WireInv(ByteStep(w, b))
  {
    var w' := ByteStep(w, b);
    ByteEffect(w, b);
    ParsedSnoc(w.log, b);
    forall g ensures Count(Frames(Parsed(w'.log)), g) == Count(w'.log.posted, g) + Count(w'.log.tally.rawDropped, g) {
      ByteWireAt(w, b, w', g);
    }
  }

  /** Whether a byte completes a frame that finds the raw queue full. */
  function Drops(l: Link, b: byte): nat {
    var events := Step(l.rx, b).1;
    if events != [] && events[0].FrameReceived? && |l.rawQueue| >= RAW_QUEUE_DEPTH then 1 else 0
  }

  lemma {:induction false} ByteTally(w: World, b: byte)
    ensures var w', n := ByteStep(w, b), FcsErrors(Step(w.link.rx, b).1) + Drops(w.link, b);
            && w'.log.tally == w.log.tally.(rawDropped := w'.log.tally.rawDropped)
            && |w'.log.tally.rawDropped| == |w.log.tally.rawDropped| + Drops(w.link, b)
            && n <= 1 && w'.link.errors == (if n == 1 then (w.link.errors + 1) % U32 else w.link.errors)
            && w'.log.start == w.log.start && w'.log.bytes == w.log.bytes + [b]
  {
    StepReportsAtMostOne(w.link.rx, b);
  }

  /** The counter goes up by one exactly when there is one more fault. */
  ghost predicate Charged(l: Link, log: Log, l': Link, log': Log) {
    || (Faults(log') == Faults(log) && l'.errors == l.errors)
    || (Faults(log') == Faults(log) + 1 && l'.errors == (l.errors + 1) % U32)
  }

  lemma {:induction false} ChargedErrors(w: World, w': World)
    requires ErrorInv(w) && Charged(w.link, w.log, w'.link, w'.log)
    ensures ErrorInv(w')
  {
    OneMore(w.link.errors, Faults(w.log));
  }

  lemma {:induction false} ByteFaults(w: World, b: byte)
    requires WireInv(w)
    ensures Charged(w.link, w.log, ByteStep(w, b).link, ByteStep(w, b).log)
  {
    ParsedSnoc(w.log, b);
    ByteTally(w, b);
    var log' := ByteStep(w, b).log;
    assert FcsErrors(Parsed(log')) == FcsErrors(Parsed(w.log)) + FcsErrors(Step(w.link.rx, b).1);
  }

  /** Nothing that was dispatched has moved. */
  lemma {:induction false} PlacesKept(w: World, w': World, g: Frame)
    requires PlaceAt(w, g) && w'.log.dispatched == w.log.dispatched <= |w'.log.posted|
    requires w'.log.posted[..w.log.dispatched] == w.log.posted[..w.log.dispatched]
    requires w'.log.consumed == w.log.consumed && w'.link.areqQueue == w.link.areqQueue
    requires InTransit(w'.link.dispatcher, g) == InTransit(w.link.dispatcher, g)
    requires var t, t' := w.log.tally, w'.log.tally;
             && t'.matched == t.matched && t'.unexpected == t.unexpected && t'.unknown == t.unknown
             && t'.areqDropped == t.areqDropped
    ensures PlaceAt(w', g)
  {
  }

  lemma {:induction false} BytePlaces(w: World, b: byte, w': World, g: Frame)
    requires PlaceAt(w, g) && w' == ByteStep(w, b)
    ensures PlaceAt(w', g)
  {
    ByteEffect(w, b);
    PlacesKept(w, w', g);
  }

  /** Queueing or dropping an AREQ frame: it is in one of the two places afterwards. */
  lemma {:induction false} AreqPlaces(l: Link, t: Tally, f: Frame, g: Frame)
    ensures Settled(AreqTally(l, t, f), g) + Count(PostAreq(l, f).areqQueue, g)
            == Settled(t, g) + Count(l.areqQueue, g) + OneIf(f == g)
    ensures PostAreq(l, f).dispatcher == Receiving
  {
    CountSnoc(l.areqQueue, f, g);
    CountSnoc(t.areqDropped, f, g);
  }

  lemma {:induction false} AreqFaults(l: Link, t: Tally, f: Frame)
    ensures PostAreq(l, f).errors
            == if |AreqTally(l, t, f).areqDropped| > |t.areqDropped| then (l.errors + 1) % U32 else l.errors
    ensures |t.areqDropped| <= |AreqTally(l, t, f).areqDropped| <= |t.areqDropped| + 1
    ensures AreqTally(l, t, f).(areqDropped := t.areqDropped) == t
  {
  }

  /** What dispatching the frame in hand does to the lists that it may go to. */
  lemma {:induction false} ProcessEffect(w: World, w': World)
    requires w.link.dispatcher.Holding? && w' == ProcessStep(w)
    ensures var f, t, t' := w.link.dispatcher.frame, w.log.tally, w'.log.tally;
            if FrameType(f.cmdType) == SRSP then
              && t' == (if KeyOf(f) == w.link.pending then t.(matched := t.matched + [f])
                        else t.(unexpected := t.unexpected + [f]))
              && w'.link.areqQueue == w.link.areqQueue && w'.link.dispatcher == Receiving
            else if !IsAreq(f) then
              && t' == t.(unknown := t.unknown + [f])
              && w'.link.areqQueue == w.link.areqQueue && w'.link.dispatcher == Receiving
            else if IsResetInd(f) then
              t' == t && w'.link.areqQueue == w.link.areqQueue && w'.link.dispatcher == Announced(f)
            else
              && t' == AreqTally(w.link, t, f) && w'.link.areqQueue == PostAreq(w.link, f).areqQueue
              && w'.link.dispatcher == Receiving
  {
  }

  lemma {:induction false} SettledSnoc(t: Tally, f: Frame, g: Frame)
    ensures Settled(t.(matched := t.matched + [f]), g) == Settled(t, g) + OneIf(f == g)
    ensures Settled(t.(unexpected := t.unexpected + [f]), g) == Settled(t, g) + OneIf(f == g)
    ensures Settled(t.(unknown := t.unknown + [f]), g) == Settled(t, g) + OneIf(f == g)
  {
    CountSnoc(t.matched, f, g);
    CountSnoc(t.unexpected, f, g);
    CountSnoc(t.unknown, f, g);
  }

  /** Where the frame in hand goes. */
  lemma {:induction false} ProcessMoves(w: World, w': World, g: Frame)
    requires w.link.dispatcher.Holding? && w' == ProcessStep(w)
    ensures Settled(w'.log.tally, g) + Count(w'.link.areqQueue, g) + InTransit(w'.link.dispatcher, g)
            == Settled(w.log.tally, g) + Count(w.link.areqQueue, g) + OneIf(w.link.dispatcher.frame == g)
  {
    ProcessEffect(w, w');
    SettledSnoc(w.log.tally, w.link.dispatcher.frame, g);
    AreqPlaces(w.link, w.log.tally, w.link.dispatcher.frame, g);
  }

  lemma {:induction false} ProcessPlaces(w: World, w': World, g: Frame)
    requires w.link.dispatcher.Holding? && PlaceAt(w, g) && PipeInv(w.link, w.log) && w' == ProcessStep(w)
    ensures PlaceAt(w', g)
  {
    var f, d := w.link.dispatcher.frame, w.log.dispatched;
    assert w.log.posted[..d + 1] == w.log.posted[..d] + [f];
    CountSnoc(w.log.posted[..d], f, g);
    ProcessMoves(w, w', g);
    ProcessKeeps(w);
  }

  lemma {:induction false} ProcessKeeps(w: World)
    requires w.link.dispatcher.Holding?
    ensures ProcessStep(w).log.posted == w.log.posted && ProcessStep(w).log.consumed == w.log.consumed
    ensures ProcessStep(w).log.dispatched == w.log.dispatched + 1
  {
  }

  lemma {:induction false} ProcessFaults(w: World)
    requires w.link.dispatcher.Holding?
    ensures Charged(w.link, w.log, ProcessStep(w).link, ProcessStep(w).log)
  {
    var f, w' := w.link.dispatcher.frame, ProcessStep(w);
    assert Parsed(w'.log) == Parsed(w.log);
    if FrameType(f.cmdType) == SRSP || !IsAreq(f) || IsResetInd(f) {
      ProcessCalm(w);
    } else {
      AreqFaults(w.link, w.log.tally, f);
    }
  }

  /** Only queueing an AREQ frame can fail. */
  lemma {:induction false} ProcessCalm(w: World)
    requires w.link.dispatcher.Holding?
    requires var f := w.link.dispatcher.frame;
             FrameType(f.cmdType) == SRSP || !IsAreq(f) || IsResetInd(f)
    ensures ProcessStep(w).link.errors == w.link.errors
    ensures ProcessStep(w).log.tally.areqDropped == w.log.tally.areqDropped
    ensures ProcessStep(w).log.tally.rawDropped == w.log.tally.rawDropped
    ensures ProcessStep(w).log.tally.requestTimeouts == w.log.tally.requestTimeouts
    ensures ProcessStep(w).log.tally.resetTimeouts == w.log.tally.resetTimeouts
  {
  }

  lemma {:induction false} PostPlaces(w: World, g: Frame)
    requires w.link.dispatcher.Announced? && PlaceAt(w, g)
    ensures PlaceAt(Next(w, Post), g)
  {
    AreqPlaces(w.link, w.log.tally, w.link.dispatcher.frame, g);
  }

  lemma {:induction false} PostFaults(w: World)
    requires w.link.dispatcher.Announced?
    ensures Charged(w.link, w.log, Next(w, Post).link, Next(w, Post).log)
  {
    AreqFaults(w.link, w.log.tally, w.link.dispatcher.frame);
    assert Parsed(Next(w, Post).log) == Parsed(w.log);
  }

  lemma {:induction false} TimeOutPlaces(w: World, t: TaskId, g: Frame)
    requires Enabled(w, TimeOut(t)) && PlaceAt(w, g)
    ensures PlaceAt(TimeOutStep(w, t), g)
  {
  }

  lemma {:induction false} TimeOutFaults(w: World, t: TaskId)
    requires Enabled(w, TimeOut(t))
    ensures Charged(w.link, w.log, TimeOutStep(w, t).link, TimeOutStep(w, t).log)
  {
    assert Parsed(TimeOutStep(w, t).log) == Parsed(w.log);
  }

  lemma {:induction false} ConsumePlaces(w: World, g: Frame)
    requires PlaceAt(w, g) && Enabled(w, Consume)
    ensures PlaceAt(Next(w, Consume), g)
  {
    var q := w.link.areqQueue;
    assert q == [q[0]] + q[1..] && [q[0]] == [] + [q[0]];
    CountConcat([q[0]], q[1..], g);
    CountSnoc([], q[0], g);
    CountSnoc(w.log.consumed, q[0], g);
  }

  predicate Uncounted(a: Action) {
    a.Take? || a.Call? || a.CallReset? || a.Advance? || a.Forget?
  }

  /** The steps that leave the history alone, apart from the responses given out. */
  lemma {:induction false} UncountedStep(w: World, a: Action)
    requires Enabled(w, a) && Uncounted(a)
    ensures Next(w, a).log.(given := w.log.given) == w.log
    ensures Next(w, a).link.errors == w.link.errors
    ensures Next(w, a).link.areqQueue == w.link.areqQueue
    ensures forall g :: InTransit(Next(w, a).link.dispatcher, g) == InTransit(w.link.dispatcher, g)
  {
  }

  lemma {:induction false} WireUntouched(w: World, a: Action)
    requires Enabled(w, a) && !a.Byte?
    ensures Next(w, a).log.start == w.log.start && Next(w, a).log.bytes == w.log.bytes
    ensures Next(w, a).link.rx == w.link.rx && Next(w, a).log.posted == w.log.posted
    ensures Next(w, a).log.tally.rawDropped == w.log.tally.rawDropped
  {
  }

  lemma {:induction false} WireStep(w: World, a: Action)
    requires WireInv(w) && Enabled(w, a)
    ensures WireInv(Next(w, a))
  {
    if a.Byte? {
      ByteWire(w, a.b);
    } else {
      WireUntouched(w, a);
      assert Parsed(Next(w, a).log) == Parsed(w.log);
    }
  }

  lemma {:induction false} PlaceStepAt(w: World, a: Action, g: Frame)
    requires PlaceAt(w, g) && PipeInv(w.link, w.log) && Enabled(w, a)
    ensures PlaceAt(Next(w, a), g)
  {
    match a {
      case Byte(b) => BytePlaces(w, b, Next(w, a), g);
      case Process => ProcessPlaces(w, Next(w, a), g);
      case Post => PostPlaces(w, g);
      case TimeOut(t) => TimeOutPlaces(w, t, g);
      case Consume => ConsumePlaces(w, g);
      case _ =>
        UncountedStep(w, a);
        PlacesKept(w, Next(w, a), g);
    }
  }

  lemma {:induction false} PlaceStep(w: World, a: Action)
    requires PlaceInv(w) && PipeInv(w.link, w.log) && Enabled(w, a)
    ensures PlaceInv(Next(w, a))
  {
    forall g: Frame ensures PlaceAt(Next(w, a), g) {
      assert PlaceAt(w, g);
      PlaceStepAt(w, a, g);
    }
  }

  lemma {:induction false} FaultStep(w: World, a: Action)
    requires WireInv(w) && Enabled(w, a)
    ensures Charged(w.link, w.log, Next(w, a).link, Next(w, a).log)
  {
    match a {
      case Byte(b) => ByteFaults(w, b);
      case Process => ProcessFaults(w);
      case Post => PostFaults(w);
      case TimeOut(t) => TimeOutFaults(w, t);
      case Consume => assert Parsed(Next(w, a).log) == Parsed(w.log);
      case _ =>
        UncountedStep(w, a);
        assert Parsed(Next(w, a).log) == Parsed(w.log);
    }
  }

  ghost predicate Counts(w: World) {
    WireInv(w) && PlaceInv(w) && ErrorInv(w)
  }

  /** How often a frame occurs in all places together: dropped at a full queue, waiting in one, in the
      dispatcher's hand, matched, unexpected, unknown, and consumed. */
  ghost function Occurrences(w: World, f: Frame): nat {
    var t := w.log.tally;
    Count(t.rawDropped, f) + Count(w.link.rawQueue, f) + Count(InHand(w.link.dispatcher), f)
    + Count(t.matched, f) + Count(t.unexpected, f) + Count(t.unknown, f)
    + Count(t.areqDropped, f) + Count(w.link.areqQueue, f) + Count(w.log.consumed, f)
  }

  /** Each of the frames is in exactly one of these places. */
  ghost predicate Accounted(w: World, frames: seq<Frame>) {
    forall f: Frame :: Count(frames, f) == Occurrences(w, f)
  }

  /** The posted frames are the dispatched ones, the one in hand and the raw queue. */
  lemma {:induction false} PostedPlaces(w: World, g: Frame)
    requires PipeInv(w.link, w.log) && PlaceAt(w, g)
    ensures Count(w.log.posted, g)
            == Settled(w.log.tally, g) + Count(w.log.consumed, g) + Count(w.link.areqQueue, g)
               + Count(InHand(w.link.dispatcher), g) + Count(w.link.rawQueue, g)
  {
    var d := w.log.dispatched;
    var taken := if w.link.dispatcher.Holding? then [w.log.posted[d]] else [];
    assert w.log.posted == w.log.posted[..d] + taken + w.link.rawQueue;
    CountConcat(w.log.posted[..d] + taken, w.link.rawQueue, g);
    CountConcat(w.log.posted[..d], taken, g);
    if w.link.dispatcher.Announced? {
      CountSnoc([], w.link.dispatcher.frame, g);
      assert [] + [w.link.dispatcher.frame] == [w.link.dispatcher.frame];
    }
  }

  lemma {:induction false} AllPlaced(w: World)
    requires WireInv(w) && PlaceInv(w) && PipeInv(w.link, w.log)
    ensures Accounted(w, Frames(SpecParse(w.log.bytes)))
  {
    forall f: Frame ensures Count(Frames(SpecParse(w.log.bytes)), f) == Occurrences(w, f) {
      assert PlaceAt(w, f);
      PostedPlaces(w, f);
    }
  }

  /** The error counter is the number of rejected candidates, drops and timeouts modulo 2^32. */
  predicate ErrorsCounted(w: World) {
    var t := w.log.tally;
    w.link.errors == (FcsErrors(SpecParse(w.log.bytes)) + |t.rawDropped| + |t.areqDropped|
                      + t.requestTimeouts + t.resetTimeouts) % U32
  }

  lemma {:induction false} CountsRun(w: World, run: seq<Action>)
    requires Possible(w, run) && Counts(w) && PipeInv(w.link, w.log)
    ensures Accounted(Exec(w, run), Frames(SpecParse(Exec(w, run).log.bytes)))
    ensures ErrorsCounted(Exec(w, run))
    decreases |run|
  {
    if run == [] {
      CountsEnd(w);
    } else {
      CountsStep(w, run[0]);
      CountsRun(Next(w, run[0]), run[1..]);
    }
  }

  lemma {:induction false} CountsEnd(w: World)
    requires Counts(w) && PipeInv(w.link, w.log)
    ensures Accounted(w, Frames(SpecParse(w.log.bytes))) && ErrorsCounted(w)
  {
    AllPlaced(w);
  }

  lemma {:induction false} CountsStep(w: World, a: Action)
    requires Enabled(w, a) && Counts(w) && PipeInv(w.link, w.log)
    ensures Counts(Next(w, a)) && PipeInv(Next(w, a).link, Next(w, a).log)
  {
    WireStep(w, a);
    PlaceStep(w, a);
    FaultStep(w, a);
    ChargedErrors(w, Next(w, a));
    PipeStep(w, a);
  }

  /** In every run, each frame that the reference parser finds in the received bytes is in exactly
      one place, and the errors are counted. */
  lemma {:induction false} FramesConserved(w: World, run: seq<Action>)
    requires Init(w) && Possible(w, run)
    ensures Accounted(Exec(w, run), Frames(SpecParse(Exec(w, run).log.bytes)))
    ensures ErrorsCounted(Exec(w, run))
  {
    InitInv(w);
    InitCounts(w);
    CountsRun(w, run);
  }

  lemma {:induction false} InitCounts(w: World)
    requires Init(w)
    ensures Counts(w)
  {
    assert Parsed(w.log) == [];
  }

  // ---------- Order ----------

  function Areqs(frames: seq<Frame>): seq<Frame> {
    if frames == [] then []
    else (if IsAreq(frames[0]) then [frames[0]] else []) + Areqs(frames[1..])
  }

  lemma {:induction false} AreqsCons(f: Frame, s: seq<Frame>)
    ensures Areqs([f] + s) == (if IsAreq(f) then [f] else []) + Areqs(s)
  {
    assert ([f] + s)[0] == f && ([f] + s)[1..] == s;
  }

  lemma {:induction false} AreqsConcat(a: seq<Frame>, b: seq<Frame>)
    ensures Areqs(a + b) == Areqs(a) + Areqs(b)
    decreases |a|
  {
    if a == [] {
      assert a + b == b;
    } else {
      var f, rest := a[0], a[1..];
      assert a == [f] + rest && a + b == [f] + (rest + b);
      AreqsCons(f, rest);
      AreqsCons(f, rest + b);
      AreqsConcat(rest, b);
      Assoc(if IsAreq(f) then [f] else [], Areqs(rest), Areqs(b));
    }
  }

  lemma {:induction false} AreqsOne(f: Frame)
    ensures Areqs([f]) == if IsAreq(f) then [f] else []
  {
    assert [f][1..] == [];
  }

  function InHand(d: Dispatcher): seq<Frame> {
    match d
    case Receiving => []
    case Holding(f) => [f]
    case Announced(f) => [f]
  }

  /** The AREQ frames on their way to the consumer, next one first. */
  function Pipeline(l: Link): seq<Frame> {
    l.areqQueue + Areqs(InHand(l.dispatcher) + l.rawQueue)
  }

  /** Frames that the RX machine completes during a run. */
  function NewFrames(rx: Rx, run: seq<Action>): seq<Frame> {
    Frames(Run(rx, BytesOf(run)).1)
  }

  function BytesOf(run: seq<Action>): seq<byte> {
    if run == [] then [] else (if run[0].Byte? then [run[0].b] else []) + BytesOf(run[1..])
  }

  /** What one step hands to the consumer. */
  function Handed(w: World, a: Action): seq<Frame>
    requires Enabled(w, a)
  {
    if a.Consume? then [w.link.areqQueue[0]] else []
  }

  function StepFrames(w: World, a: Action): seq<Frame> {
    if a.Byte? then Frames(Step(w.link.rx, a.b).1) else []
  }

  lemma {:induction false} PostRawOrder(l: Link, f: Frame)
    ensures Subseq(Pipeline(PostRaw(l, f)), Pipeline(l) + Areqs([f]))
  {
    var waiting := InHand(l.dispatcher) + l.rawQueue;
    if |l.rawQueue| < RAW_QUEUE_DEPTH {
      AreqsConcat(waiting, [f]);
      assert InHand(l.dispatcher) + (l.rawQueue + [f]) == waiting + [f];
      assert Pipeline(PostRaw(l, f)) == Pipeline(l) + Areqs([f]);
      SubseqSelf(Pipeline(l) + Areqs([f]));
    } else {
      SubseqPrefix(Pipeline(l), Areqs([f]));
    }
  }

  lemma {:induction false} ByteOrder(w: World, b: byte)
    ensures Subseq(Pipeline(ByteStep(w, b).link), Pipeline(w.link) + Areqs(Frames(Step(w.link.rx, b).1)))
  {
    StepReportsAtMostOne(w.link.rx, b);
    var events := Step(w.link.rx, b).1;
    var l1 := w.link.(rx := Step(w.link.rx, b).0);
    assert Pipeline(l1) == Pipeline(w.link);
    if events != [] && events[0].FrameReceived? {
      PostRawOrder(l1, events[0].frame);
    } else {
      assert Pipeline(ByteStep(w, b).link) == Pipeline(w.link);
      SubseqPrefix(Pipeline(w.link), []);
    }
  }

  /** Moving the frame in hand to the AREQ queue keeps the order; dropping it leaves it out. */
  lemma {:induction false} PostAreqOrder(l: Link, f: Frame)
    requires InHand(l.dispatcher) == [f] && IsAreq(f)
    ensures Subseq(Pipeline(PostAreq(l, f)), Pipeline(l))
  {
    AreqsConcat([f], l.rawQueue);
    AreqsOne(f);
    assert [] + l.rawQueue == l.rawQueue;
    if |l.areqQueue| < l.areqDepth {
      assert Pipeline(PostAreq(l, f)) == l.areqQueue + [f] + Areqs(l.rawQueue);
      assert Pipeline(PostAreq(l, f)) == Pipeline(l);
      SubseqSelf(Pipeline(l));
    } else {
      SubseqSkip(l.areqQueue, [f], Areqs(l.rawQueue));
      assert Pipeline(l) == l.areqQueue + [f] + Areqs(l.rawQueue);
    }
  }

  lemma {:induction false} TakeOrder(l: Link)
    requires l.dispatcher.Receiving? && l.rawQueue != []
    ensures Pipeline(DispatchTake(l)) == Pipeline(l)
  {
    assert InHand(DispatchTake(l).dispatcher) + l.rawQueue[1..] == InHand(l.dispatcher) + l.rawQueue;
  }

  lemma {:induction false} ProcessOtherOrder(l: Link)
    requires l.dispatcher.Holding? && !IsAreq(l.dispatcher.frame)
    ensures Pipeline(DispatchProcess(l)) == Pipeline(l)
  {
    var f := l.dispatcher.frame;
    AreqsConcat([f], l.rawQueue);
    AreqsOne(f);
    assert [] + l.rawQueue == l.rawQueue && [] + Areqs(l.rawQueue) == Areqs(l.rawQueue);
    assert DispatchProcess(l).areqQueue == l.areqQueue && DispatchProcess(l).rawQueue == l.rawQueue;
  }

  lemma {:induction false} ProcessOrder(l: Link)
    requires l.dispatcher.Holding?
    ensures Subseq(Pipeline(DispatchProcess(l)), Pipeline(l))
  {
    if !IsAreq(l.dispatcher.frame) {
      ProcessOtherOrder(l);
      SubseqSelf(Pipeline(l));
    } else if IsResetInd(l.dispatcher.frame) {
      SubseqSelf(Pipeline(l));
    } else {
      PostAreqOrder(l, l.dispatcher.frame);
    }
  }

  lemma {:induction false} ResetIndIsAreq(f: Frame)
    requires IsResetInd(f)
    ensures IsAreq(f)
  {
  }

  lemma {:induction false} OtherOrder(w: World, a: Action)
    requires Enabled(w, a) && !(a.Byte? || a.Take? || a.Process? || a.Post?)
    ensures Handed(w, a) + Pipeline(Next(w, a).link) == Pipeline(w.link)
  {
    PipeUntouched(w, a);
  }

  lemma {:induction false} StepHands(w: World, a: Action)
    requires Enabled(w, a)
    ensures Next(w, a).log.consumed == w.log.consumed + Handed(w, a)
    ensures Next(w, a).link.rx == if a.Byte? then Step(w.link.rx, a.b).0 else w.link.rx
  {
    if !a.Byte? {
      WireUntouched(w, a);
    }
  }

  /** One step: what is handed over, followed by what is still on its way, is an in-order part of
      what was on its way, followed by what was just received. */
  lemma {:induction false} StepOrder(w: World, a: Action)
    requires Enabled(w, a) && PipeInv(w.link, w.log)
    ensures Subseq(Handed(w, a) + Pipeline(Next(w, a).link), Pipeline(w.link) + Areqs(StepFrames(w, a)))
  {
    var p := Pipeline(Next(w, a).link);
    match a {
      case Byte(b) =>
        ByteOrder(w, b);
        assert [] + p == p;
      case Take =>
        TakeOrder(w.link);
        SubseqSelf(p);
        SubseqWrap(p, Pipeline(w.link));
      case Process =>
        ProcessOrder(w.link);
        SubseqWrap(p, Pipeline(w.link));
      case Post =>
        ResetIndIsAreq(w.link.dispatcher.frame);
        PostAreqOrder(w.link, w.link.dispatcher.frame);
        SubseqWrap(p, Pipeline(w.link));
      case _ =>
        OtherOrder(w, a);
        SubseqPrefix(Pipeline(w.link), []);
    }
  }

  lemma {:induction false} SubseqWrap(a: seq<Frame>, b: seq<Frame>)
    requires Subseq(a, b)
    ensures Subseq([] + a, b + [])
  {
    assert [] + a == a && b + [] == b;
  }

  /** What a run hands to the consumer. */
  function HandedBy(w: World, run: seq<Action>): seq<Frame>
    requires Possible(w, run)
    decreases |run|
  {
    if run == [] then [] else Handed(w, run[0]) + HandedBy(Next(w, run[0]), run[1..])
  }

  lemma {:induction false} NewFramesStep(rx: Rx, run: seq<Action>)
    requires run != []
    ensures NewFrames(rx, run)
            == if run[0].Byte? then Frames(Step(rx, run[0].b).1) + NewFrames(Step(rx, run[0].b).0, run[1..])
               else NewFrames(rx, run[1..])
  {
    if run[0].Byte? {
      var b := run[0].b;
      var rest := BytesOf(run[1..]);
      assert ([b] + rest)[1..] == rest;
      FramesConcat(Step(rx, b).1, Run(Step(rx, b).0, rest).1);
    } else {
      assert BytesOf(run) == BytesOf(run[1..]);
    }
  }

  lemma {:induction false} NewAreqsStep(w: World, run: seq<Action>)
    requires run != [] && Enabled(w, run[0])
    ensures Areqs(NewFrames(w.link.rx, run))
            == Areqs(StepFrames(w, run[0])) + Areqs(NewFrames(Next(w, run[0]).link.rx, run[1..]))
  {
    var a, w1 := run[0], Next(w, run[0]);
    if !a.Byte? {
      WireUntouched(w, a);
    }
    NewFramesStep(w.link.rx, run);
    AreqsConcat(StepFrames(w, a), NewFrames(w1.link.rx, run[1..]));
  }

  /** From any state with a consistent pipeline: the frames handed over during a run, followed by
      those still on their way, are an in-order part of the frames on their way at the start,
      followed by the AREQ frames received during the run. */
  lemma {:induction false} RunOrder(w: World, run: seq<Action>)
    requires Possible(w, run) && PipeInv(w.link, w.log)
    ensures Subseq(HandedBy(w, run) + Pipeline(Exec(w, run).link),
                   Pipeline(w.link) + Areqs(NewFrames(w.link.rx, run)))
    decreases |run|
  {
    if run == [] {
      SubseqWrap2(Pipeline(w.link), Areqs(NewFrames(w.link.rx, run)));
    } else {
      var a, w1 := run[0], Next(w, run[0]);
      StepOrder(w, a);
      StepHands(w, a);
      PipeStep(w, a);
      RunOrder(w1, run[1..]);
      NewAreqsStep(w, run);
      SubseqChain(Handed(w, a), HandedBy(w1, run[1..]), Pipeline(w.link), Pipeline(w1.link),
                  Pipeline(Exec(w1, run[1..]).link), Areqs(StepFrames(w, a)),
                  Areqs(NewFrames(w1.link.rx, run[1..])));
    }
  }

  lemma {:induction false} SubseqWrap2(a: seq<Frame>, b: seq<Frame>)
    ensures Subseq([] + a, a + b)
  {
    assert [] + a == a;
    SubseqPrefix(a, b);
  }

  lemma {:induction false} ConsumedGrows(w: World, run: seq<Action>)
    requires Possible(w, run) && PipeInv(w.link, w.log)
    ensures Exec(w, run).log.consumed == w.log.consumed + HandedBy(w, run)
    decreases |run|
  {
    if run != [] {
      StepHands(w, run[0]);
      PipeStep(w, run[0]);
      ConsumedGrows(Next(w, run[0]), run[1..]);
      Assoc(w.log.consumed, Handed(w, run[0]), HandedBy(Next(w, run[0]), run[1..]));
    }
  }

  lemma {:induction false} BytesLogged(w: World, run: seq<Action>)
    requires Possible(w, run)
    ensures Exec(w, run).log.bytes == w.log.bytes + BytesOf(run)
    decreases |run|
  {
    if run != [] {
      BytesLogged(Next(w, run[0]), run[1..]);
    }
  }

  /** In every run, the consumer has received, and the AREQ queue holds, an in-order part of the AREQ
      frames that the reference parser finds in the received bytes. */
  lemma {:induction false} ConsumedInOrder(w: World, run: seq<Action>)
    requires Init(w) && Possible(w, run)
    ensures Subseq(Exec(w, run).log.consumed + Exec(w, run).link.areqQueue,
                   Areqs(Frames(SpecParse(Exec(w, run).log.bytes))))
  {
    InitInv(w);
    RunOrder(w, run);
    ConsumedGrows(w, run);
    BytesLogged(w, run);
    RefinesSpecParser(w.link.rx, BytesOf(run));
    InitEmpty(w, run);
    QueueFirst(HandedBy(w, run), Exec(w, run).link, Areqs(NewFrames(w.link.rx, run)));
  }

  lemma {:induction false} InitEmpty(w: World, run: seq<Action>)
    requires Init(w)
    ensures Pipeline(w.link) + Areqs(NewFrames(w.link.rx, run)) == Areqs(NewFrames(w.link.rx, run))
    ensures forall s: seq<Frame> :: w.log.consumed + s == s
    ensures forall s: seq<byte> :: w.log.bytes + s == s
  {
  }

  lemma {:induction false} QueueFirst(handed: seq<Frame>, l: Link, all: seq<Frame>)
    requires Subseq(handed + Pipeline(l), all)
    ensures Subseq(handed + l.areqQueue, all)
  {
    var behind := Areqs(InHand(l.dispatcher) + l.rawQueue);
    Assoc(handed, l.areqQueue, behind);
    SubseqPrefix(handed + l.areqQueue, behind);
    SubseqTransitive(handed + l.areqQueue, handed + Pipeline(l), all);
  }

  // ---------- The reset indication ----------

  /** No reset indication comes after a coordinator-started indication. */
  ghost predicate ResetsFirst(frames: seq<Frame>) {
    forall i, j :: 0 <= i < j < |frames| && IsCoordInd(frames[i]) ==> !IsResetInd(frames[j])
  }

  lemma {:induction false} ResetsFirstSubseq(a: seq<Frame>, b: seq<Frame>)
    requires Subseq(a, b) && ResetsFirst(b)
    ensures ResetsFirst(a)
  {
    forall i, j | 0 <= i < j < |a| && IsCoordInd(a[i]) ensures !IsResetInd(a[j]) {
      var k, l := SubseqKeepsOrder(a, b, i, j);
    }
  }

  ghost predicate NoCoord(frames: seq<Frame>) {
    forall i :: 0 <= i < |frames| ==> !IsCoordInd(frames[i])
  }

  ghost predicate NoReset(frames: seq<Frame>) {
    forall i :: 0 <= i < |frames| ==> !IsResetInd(frames[i])
  }

  lemma {:induction false} AreqsKeepNoCoord(frames: seq<Frame>)
    requires NoCoord(frames)
    ensures NoCoord(Areqs(frames))
  {
    if frames != [] {
      AreqsKeepNoCoord(frames[1..]);
    }
  }

  lemma {:induction false} AreqsKeepNoReset(frames: seq<Frame>)
    requires NoReset(frames)
    ensures NoReset(Areqs(frames))
  {
    if frames != [] {
      AreqsKeepNoReset(frames[1..]);
    }
  }

  lemma {:induction false} CoordLast(early: seq<Frame>, late: seq<Frame>)
    requires NoCoord(early) && NoReset(late)
    ensures ResetsFirst(early + late)
  {
  }

  lemma {:induction false} NoResetBehind(handed: seq<Frame>, waiting: seq<Frame>, k: nat)
    requires ResetsFirst(handed + waiting) && k < |handed| && IsCoordInd(handed[k])
    ensures NoReset(handed[k + 1..]) && NoReset(waiting)
  {
    var seen := handed + waiting;
    assert IsCoordInd(seen[k]);
    var tail := handed[k + 1..];
    forall j | 0 <= j < |tail| ensures !IsResetInd(tail[j]) {
      assert seen[k + 1 + j] == tail[j];
    }
    forall j | 0 <= j < |waiting| ensures !IsResetInd(waiting[j]) {
      assert seen[|handed| + j] == waiting[j];
    }
  }

  lemma {:induction false} AfterCoordSplits(frames: seq<Frame>) returns (k: nat)
    requires AfterCoord(frames).0
    ensures k < |frames| && IsCoordInd(frames[k]) && AfterCoord(frames).1 == frames[k + 1..]
    decreases |frames|
  {
    if IsCoordInd(frames[0]) {
      k := 0;
    } else {
      k := AfterCoordSplits(frames[1..]);
      k := k + 1;
      assert frames[1..][k..] == frames[k + 1..];
    }
  }

  /** Let reset be asserted in a state with no coordinator-started indication under way, and let the
      coprocessor then send some frames without that indication, one reset indication, and after
      it no other. If the wait for the start succeeds on what the consumer receives, then neither
      what it leaves for the READY loop nor what is still on its way is a reset indication: it has
      been consumed by the wait or dropped, and does not make the READY loop start over. */
  lemma {:induction false} ResetIndicationConsumedDuringStartup(w: World, run: seq<Action>,
                                             before: seq<Frame>, ind: Frame, after: seq<Frame>)
    requires Possible(w, run) && PipeInv(w.link, w.log)
    requires NoCoord(Pipeline(w.link))
    requires NewFrames(w.link.rx, run) == before + [ind] + after
    requires NoCoord(before) && IsResetInd(ind) && NoReset(after)
    requires AfterCoord(HandedBy(w, run)).0
    ensures NoReset(AfterCoord(HandedBy(w, run)).1)
    ensures NoReset(Pipeline(Exec(w, run).link))
  {
    var k := AfterCoordSplits(HandedBy(w, run));
    RunOrder(w, run);
    SentOrder(Pipeline(w.link), before, ind, after);
    ResetsFirstSubseq(HandedBy(w, run) + Pipeline(Exec(w, run).link),
                      Pipeline(w.link) + Areqs(before + [ind] + after));
    NoResetBehind(HandedBy(w, run), Pipeline(Exec(w, run).link), k);
  }

  lemma {:induction false} SentOrder(waiting: seq<Frame>, before: seq<Frame>, ind: Frame, after: seq<Frame>)
    requires NoCoord(waiting) && NoCoord(before) && IsResetInd(ind) && NoReset(after)
    ensures ResetsFirst(waiting + Areqs(before + [ind] + after))
  {
    AreqsConcat(before + [ind], after);
    assert NoCoord(before + [ind]);
    AreqsKeepNoCoord(before + [ind]);
    AreqsKeepNoReset(after);
    Assoc(waiting, Areqs(before + [ind]), Areqs(after));
    CoordLast(waiting + Areqs(before + [ind]), Areqs(after));
  }
}
