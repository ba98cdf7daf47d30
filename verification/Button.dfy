/** The push button: a sampled state machine on a 32-bit tick counter that wraps. */
module Button {
  import opened Bits

  /** Thresholds in ticks. */
  datatype Cfg = Cfg(debounce: nat, longPress: nat, multiPress: nat)

  datatype State = Idle | DebouncePress | Held | DebounceRelease | InterPress

  datatype Kind = Single | Double | Long

  /** The local variables of the task. */
  datatype Fsm = Fsm(state: State, enter: int, count: nat, longFired: bool)

  const START := Fsm(Idle, 0, 0, false)

  /** One poll. The time is the true one; the tick counter shows it modulo 2^32. */
  datatype Sample = Sample(now: nat, pressed: bool)

  datatype Clock = Wrapping | Unbounded

  datatype Out = Out(fsm: Fsm, events: seq<Kind>)

  function Stamp(clock: Clock, now: nat): nat {
    if clock.Wrapping? then now % U32 else now
  }

  function Elapsed(clock: Clock, now: nat, enter: int): int {
    if clock.Wrapping? then (Stamp(clock, now) - enter) % U32 else now - enter
  }

  function CountKind(count: nat): Kind {
    if count == 2 then Double else Single
  }

  function Step(cfg: Cfg, clock: Clock, m: Fsm, s: Sample): Out {
    var now, inState := Stamp(clock, s.now), Elapsed(clock, s.now, m.enter);
    match m.state
    case Idle => Out(if s.pressed then m.(state := DebouncePress, enter := now) else m, [])
    case DebouncePress =>
      if !s.pressed then Out(m.(state := Idle), [])
      else if inState >= cfg.debounce then Out(Fsm(Held, now, m.count, false), [])
      else Out(m, [])
    case Held =>
      var fires := !m.longFired && inState >= cfg.longPress;
      var m' := if fires then m.(longFired := true) else m;
      Out(if s.pressed then m' else m'.(state := DebounceRelease, enter := now), if fires then [Long] else [])
    case DebounceRelease =>
      if s.pressed then Out(m.(state := Held, enter := now), [])
      else if inState < cfg.debounce then Out(m, [])
      else if m.longFired then Out(m.(state := Idle, count := 0, longFired := false), [])
      else Out(m.(state := InterPress, enter := now, count := m.count + 1), [])
    case InterPress =>
      if s.pressed then Out(m.(state := DebouncePress, enter := now), [])
      else if inState >= cfg.multiPress then Out(m.(state := Idle, count := 0), [CountKind(m.count)])
      else Out(m, [])
  }

  function Run(cfg: Cfg, clock: Clock, m: Fsm, samples: seq<Sample>): Out
    decreases |samples|
  {
    if samples == [] then Out(m, [])
    else
      var first := Step(cfg, clock, m, samples[0]);
      var rest := Run(cfg, clock, first.fsm, samples[1..]);
      Out(rest.fsm, first.events + rest.events)
  }

  lemma {:induction false} RunConcat(cfg: Cfg, clock: Clock, m: Fsm, a: seq<Sample>, b: seq<Sample>)
    ensures var first := Run(cfg, clock, m, a);
            var second := Run(cfg, clock, first.fsm, b);
            Run(cfg, clock, m, a + b) == Out(second.fsm, first.events + second.events)
    decreases |a|
  {
    if a == [] {
      assert a + b == b;
      assert [] + Run(cfg, clock, m, b).events == Run(cfg, clock, m, b).events;
    } else {
      assert (a + b)[1..] == a[1..] + b;
      var next := Step(cfg, clock, m, a[0]);
      RunConcat(cfg, clock, next.fsm, a[1..], b);
      EventsAssoc(next.events, Run(cfg, clock, next.fsm, a[1..]).events,
                  Run(cfg, clock, Run(cfg, clock, m, a).fsm, b).events);
    }
  }

  lemma {:induction false} EventsAssoc(a: seq<Kind>, b: seq<Kind>, c: seq<Kind>)
    ensures a + (b + c) == a + b + c
  {
  }

  // ---------- The task in place ----------

  class ButtonTask {
    const cfg: Cfg
    var state: State
    var stateEnter: int
    var pressCount: nat
    var longFired: bool

    ghost function Value(): Fsm
      reads this
    {
      Fsm(state, stateEnter, pressCount, longFired)
    }

    constructor (cfg: Cfg)
      ensures this.cfg == cfg && Value() == START
    {
      this.cfg := cfg;
      state, stateEnter, pressCount, longFired := Idle, 0, 0, false;
    }

    method Poll(time: nat, pressed: bool) returns (emitted: seq<Kind>)
      modifies this
      ensures Out(Value(), emitted) == Step(cfg, Wrapping, old(Value()), Sample(time, pressed))
    {
      var now := time % U32;
      var inState := (now - stateEnter) % U32;
      emitted := [];
      match state {
        case Idle =>
          if pressed {
            state, stateEnter := DebouncePress, now;
          }
        case DebouncePress =>
          if !pressed {
            state := Idle;
          } else if inState >= cfg.debounce {
            state, stateEnter, longFired := Held, now, false;
          }
        case Held =>
          if !longFired && inState >= cfg.longPress {
            emitted := [Long];
            longFired := true;
          }
          if !pressed {
            state, stateEnter := DebounceRelease, now;
          }
        case DebounceRelease =>
          if pressed {
            state, stateEnter := Held, now;
          } else if inState >= cfg.debounce {
            if longFired {
              pressCount, longFired, state := 0, false, Idle;
            } else {
              pressCount := pressCount + 1;
              state, stateEnter := InterPress, now;
            }
          }
        case InterPress =>
          if pressed {
            state, stateEnter := DebouncePress, now;
          } else if inState >= cfg.multiPress {
            match pressCount {
              case 1 => emitted := [Single];
              case 2 => emitted := [Double];
              case _ => emitted := [Single];
            }
            pressCount, state := 0, Idle;
          }
      }
    }

    /** The task loop for as many polls as there are samples. */
    method PollAll(samples: seq<Sample>) returns (events: seq<Kind>)
      modifies this
      ensures Out(Value(), events) == Run(cfg, Wrapping, old(Value()), samples)
    {
      events := [];
      for i := 0 to |samples|
        invariant Run(cfg, Wrapping, old(Value()), samples)
                  == Out(Run(cfg, Wrapping, Value(), samples[i..]).fsm,
                         events + Run(cfg, Wrapping, Value(), samples[i..]).events)
      {
        ghost var before := Value();
        var emitted := Poll(samples[i].now, samples[i].pressed);
        assert samples[i..][1..] == samples[i + 1..];
        RunNext(cfg, before, samples[i..], events);
        events := events + emitted;
      }
      assert events + [] == events;
    }
  }

  lemma {:induction false} RunNext(cfg: Cfg, m: Fsm, samples: seq<Sample>, events: seq<Kind>)
    requires samples != []
    ensures var first := Step(cfg, Wrapping, m, samples[0]);
            var rest := Run(cfg, Wrapping, first.fsm, samples[1..]);
            Out(Run(cfg, Wrapping, m, samples).fsm, events + Run(cfg, Wrapping, m, samples).events)
            == Out(rest.fsm, events + first.events + rest.events)
  {
    var first := Step(cfg, Wrapping, m, samples[0]);
    var rest := Run(cfg, Wrapping, first.fsm, samples[1..]);
    assert events + (first.events + rest.events) == events + first.events + rest.events;
  }

  // ---------- The wrap of the tick counter is invisible ----------

  function Max(a: nat, b: nat): nat {
    if a > b then a else b
  }

  function LargestThreshold(cfg: Cfg): nat {
    Max(cfg.debounce, Max(cfg.longPress, cfg.multiPress))
  }

  /** The largest allowed time between two polls. */
  function Limit(cfg: Cfg): int {
    U32 - Max(1, LargestThreshold(cfg))
  }

  ghost predicate Ordered(samples: seq<Sample>) {
    forall i, j :: 0 <= i < j < |samples| ==> samples[i].now <= samples[j].now
  }

  ghost predicate GapsWithin(limit: int, samples: seq<Sample>) {
    forall i, j :: 0 <= i < |samples| && j == i + 1 && j < |samples| ==>
      samples[j].now - samples[i].now <= limit
  }

  ghost predicate Timely(cfg: Cfg, samples: seq<Sample>) {
    Ordered(samples) && GapsWithin(Limit(cfg), samples)
  }

  /** Same state, with the entry time known modulo 2^32 only. */
  predicate Similar(a: Fsm, b: Fsm) {
    b.enter >= 0 && a == b.(enter := b.enter % U32)
  }

  /** The threshold that the machine is waiting for. */
  function Awaited(cfg: Cfg, m: Fsm): nat {
    match m.state
    case Idle => 0
    case DebouncePress => cfg.debounce
    case Held => cfg.longPress
    case DebounceRelease => cfg.debounce
    case InterPress => cfg.multiPress
  }

  /** A machine that still waits has not waited for its threshold at the last poll. */
  predicate Waiting(cfg: Cfg, m: Fsm, last: nat) {
    m.state == Idle || (m.state == Held && m.longFired) || 0 <= last - m.enter < Max(1, Awaited(cfg, m))
  }

  lemma {:induction false} ElapsedAgree(cfg: Cfg, a: Fsm, b: Fsm, last: nat, now: nat)
    requires Similar(a, b) && Waiting(cfg, b, last) && last <= now <= last + Limit(cfg)
    requires !(b.state == Idle || (b.state == Held && b.longFired))
    ensures Elapsed(Wrapping, now, a.enter) == Elapsed(Unbounded, now, b.enter)
  {
    var d := now - b.enter;
    assert 0 <= d < U32;
    assert (now % U32 - b.enter % U32) % U32 == d % U32;
  }

  lemma {:induction false} StepAgree(cfg: Cfg, a: Fsm, b: Fsm, last: nat, s: Sample)
    requires Similar(a, b) && Waiting(cfg, b, last) && last <= s.now <= last + Limit(cfg)
    ensures var x, y := Step(cfg, Wrapping, a, s), Step(cfg, Unbounded, b, s);
            x.events == y.events && Similar(x.fsm, y.fsm) && Waiting(cfg, y.fsm, s.now)
  {
    if !(b.state == Idle || (b.state == Held && b.longFired)) {
      ElapsedAgree(cfg, a, b, last, s.now);
    }
  }

  lemma {:induction false} Bisimulation(cfg: Cfg, a: Fsm, b: Fsm, last: nat, samples: seq<Sample>)
    requires Similar(a, b) && Waiting(cfg, b, last) && Timely(cfg, samples)
    requires samples != [] ==> last <= samples[0].now <= last + Limit(cfg)
    ensures var x, y := Run(cfg, Wrapping, a, samples), Run(cfg, Unbounded, b, samples);
            x.events == y.events && Similar(x.fsm, y.fsm)
    decreases |samples|
  {
    if samples != [] {
      StepAgree(cfg, a, b, last, samples[0]);
      var rest := samples[1..];
      assert rest != [] ==> rest[0] == samples[1];
      Bisimulation(cfg, Step(cfg, Wrapping, a, samples[0]).fsm, Step(cfg, Unbounded, b, samples[0]).fsm,
                   samples[0].now, rest);
    }
  }

  /** Idle at some moment of the task's life. */
  predicate AtRest(m: Fsm) {
    m.state == Idle && 0 <= m.enter < U32
  }

  /** From any idle state, whatever the tick counter shows, the machine on the wrapping counter goes
      through the same states and emits the same events as one whose clock never wraps, if two polls
      are never further apart than 2^32 minus the largest threshold. */
  lemma {:induction false} WrapInvisible(cfg: Cfg, m: Fsm, samples: seq<Sample>)
    requires LargestThreshold(cfg) < U32 && AtRest(m) && Timely(cfg, samples)
    ensures var x, y := Run(cfg, Wrapping, m, samples), Run(cfg, Unbounded, m, samples);
            x.events == y.events && Similar(x.fsm, y.fsm)
  {
    Bisimulation(cfg, m, m, if samples == [] then 0 else samples[0].now, samples);
  }

  /** A hold that is polled just before the long-press time and then only one wrap after it began. */
  function LatePoll(cfg: Cfg): (s: seq<Sample>)
    requires cfg.longPress > 0
    ensures |s| == 4 && s[0].now == 0 && s[1].now == cfg.debounce
    ensures s[2].now == cfg.debounce + cfg.longPress - 1 && s[3].now == cfg.debounce + U32
  {
    [Sample(0, true), Sample(cfg.debounce, true)]
    + [Sample(cfg.debounce + cfg.longPress - 1, true), Sample(cfg.debounce + U32, true)]
  }

  /** The bound is tight: one tick more, and a long press goes unnoticed. */
  lemma {:induction false} WrapBoundTight(cfg: Cfg)
    requires 0 < LargestThreshold(cfg) == cfg.longPress < 0x8000_0000
    ensures Ordered(LatePoll(cfg)) && GapsWithin(Limit(cfg) + 1, LatePoll(cfg))
    ensures Run(cfg, Wrapping, START, LatePoll(cfg)).events == []
    ensures Run(cfg, Unbounded, START, LatePoll(cfg)).events == [Long]
  {
    LatePollTiming(cfg);
    WrapGoesUnnoticed(cfg, Wrapping);
    WrapGoesUnnoticed(cfg, Unbounded);
  }

  lemma {:induction false} LatePollTiming(cfg: Cfg)
    requires 0 < LargestThreshold(cfg) == cfg.longPress < 0x8000_0000
    ensures Ordered(LatePoll(cfg)) && GapsWithin(Limit(cfg) + 1, LatePoll(cfg))
  {
    ghost var s := LatePoll(cfg);
    assert s[0].now <= s[1].now <= s[2].now <= s[3].now;
  }

  lemma {:induction false} WrapGoesUnnoticed(cfg: Cfg, clock: Clock)
    requires 0 < LargestThreshold(cfg) == cfg.longPress < 0x8000_0000
    ensures Run(cfg, clock, START, LatePoll(cfg)).events == if clock.Wrapping? then [] else [Long]
  {
    var d, l := cfg.debounce, cfg.longPress;
    var rest := [Sample(d + l - 1, true), Sample(d + U32, true)];
    assert LatePoll(cfg) == [Sample(0, true), Sample(d, true)] + rest;
    HeldFromStart(cfg, clock, rest);
    HeldTooLong(cfg, clock);
  }

  lemma {:induction false} HeldTooLong(cfg: Cfg, clock: Clock)
    requires 0 < LargestThreshold(cfg) == cfg.longPress < 0x8000_0000
    ensures Run(cfg, clock, Fsm(Held, cfg.debounce, 0, false),
                [Sample(cfg.debounce + cfg.longPress - 1, true), Sample(cfg.debounce + U32, true)]).events
            == if clock.Wrapping? then [] else [Long]
  {
    var d, l := cfg.debounce, cfg.longPress;
    var x, y := Sample(d + l - 1, true), Sample(d + U32, true);
    WrappedStart(d);
    WrappedStart(d + l - 1);
    assert [x, y] + [] == [x, y];
    assert Step(cfg, clock, Fsm(Held, d, 0, false), x) == Out(Fsm(Held, d, 0, false), []);
    TwoPolls(cfg, clock, Fsm(Held, d, 0, false), x, y, []);
  }

  lemma {:induction false} HeldFromStart(cfg: Cfg, clock: Clock, rest: seq<Sample>)
    requires cfg.debounce < U32
    ensures Run(cfg, clock, START, [Sample(0, true), Sample(cfg.debounce, true)] + rest)
            == Run(cfg, clock, Fsm(Held, cfg.debounce, 0, false), rest)
  {
    TwoPolls(cfg, clock, START, Sample(0, true), Sample(cfg.debounce, true), rest);
    assert Elapsed(clock, cfg.debounce, 0) == cfg.debounce == Stamp(clock, cfg.debounce);
    assert [] + ([] + Run(cfg, clock, Fsm(Held, cfg.debounce, 0, false), rest).events)
        == Run(cfg, clock, Fsm(Held, cfg.debounce, 0, false), rest).events;
  }

  lemma {:induction false} WrappedStart(t: nat)
    requires t < U32
    ensures t % U32 == t && (t + U32) % U32 == t
  {
  }

  lemma {:induction false} TwoPolls(cfg: Cfg, clock: Clock, m: Fsm, a: Sample, b: Sample, rest: seq<Sample>)
    ensures var x := Step(cfg, clock, m, a);
            var y := Step(cfg, clock, x.fsm, b);
            var z := Run(cfg, clock, y.fsm, rest);
            Run(cfg, clock, m, [a, b] + rest) == Out(z.fsm, x.events + (y.events + z.events))
  {
    assert ([a, b] + rest)[1..] == [b] + rest && ([b] + rest)[1..] == rest;
  }

  // ---------- Noise ----------

  /** Pressed all the time, for at least the debounce window. */
  ghost predicate LongRun(cfg: Cfg, run: seq<Sample>) {
    && |run| >= 2
    && run[|run| - 1].now - run[0].now >= cfg.debounce
    && forall s :: s in run ==> s.pressed
  }

  ghost predicate HasLongRun(cfg: Cfg, samples: seq<Sample>) {
    exists i, j :: 0 <= i <= j <= |samples| && LongRun(cfg, samples[i..j])
  }

  predicate Unconfirmed(m: Fsm) {
    m.state == Idle || m.state == DebouncePress
  }

  /** No state of the run is beyond the press debounce. */
  predicate NeverConfirms(cfg: Cfg, m: Fsm, samples: seq<Sample>)
    decreases |samples|
  {
    Unconfirmed(m)
    && (samples == [] || NeverConfirms(cfg, Step(cfg, Unbounded, m, samples[0]).fsm, samples[1..]))
  }

  lemma {:induction false} LongRunPressed(cfg: Cfg, samples: seq<Sample>, i: nat, j: nat, k: nat)
    requires i <= k < j <= |samples| && LongRun(cfg, samples[i..j])
    ensures samples[k].pressed
  {
    assert samples[i..j][k - i] == samples[k];
  }

  lemma {:induction false} SliceBehind(front: seq<Sample>, rest: seq<Sample>, i: nat, j: nat)
    requires i <= j <= |rest|
    ensures (front + rest)[|front| + i..|front| + j] == rest[i..j]
  {
  }

  lemma {:induction false} SliceAcross(front: seq<Sample>, rest: seq<Sample>, i: nat, j: nat)
    requires i <= |front| && j <= |rest|
    ensures (front + rest)[i..|front| + j] == front[i..] + rest[..j]
  {
  }

  lemma {:induction false} HasLongRunBehind(cfg: Cfg, front: seq<Sample>, rest: seq<Sample>)
    requires HasLongRun(cfg, rest)
    ensures HasLongRun(cfg, front + rest)
  {
    var i, j :| 0 <= i <= j <= |rest| && LongRun(cfg, rest[i..j]);
    SliceBehind(front, rest, i, j);
  }

  lemma {:induction false} HasLongRunFront(cfg: Cfg, front: seq<Sample>, rest: seq<Sample>, n: nat)
    requires n <= |rest| && LongRun(cfg, front + rest[..n])
    ensures HasLongRun(cfg, front + rest)
  {
    assert (front + rest)[0..|front| + n] == front + rest[..n];
  }

  /** A sample with the button up ends what came before it. */
  lemma {:induction false} LongRunBehind(cfg: Cfg, front: seq<Sample>, up: Sample, rest: seq<Sample>)
    requires !up.pressed && |front| <= 1
    ensures HasLongRun(cfg, front + [up] + rest) <==> HasLongRun(cfg, rest)
  {
    var all := front + [up] + rest;
    if HasLongRun(cfg, all) {
      var i, j :| 0 <= i <= j <= |all| && LongRun(cfg, all[i..j]);
      StartsBehind(cfg, front, up, rest, i, j);
      SliceBehind(front + [up], rest, i - |front| - 1, j - |front| - 1);
    }
    if HasLongRun(cfg, rest) {
      HasLongRunBehind(cfg, front + [up], rest);
    }
  }

  lemma {:induction false} StartsBehind(cfg: Cfg, front: seq<Sample>, up: Sample, rest: seq<Sample>, i: nat, j: nat)
    requires !up.pressed && |front| <= 1
    requires i <= j <= |front + [up] + rest| && LongRun(cfg, (front + [up] + rest)[i..j])
    ensures i > |front|
  {
    assert (front + [up] + rest)[|front|] == up;
    if i <= |front| {
      LongRunPressed(cfg, front + [up] + rest, i, j, |front|);
    }
  }

  lemma {:induction false} LongRunLonger(cfg: Cfg, a: Sample, b: Sample, run: seq<Sample>)
    requires a.pressed && b.pressed && a.now <= b.now < a.now + cfg.debounce
    ensures LongRun(cfg, [a, b] + run) <==> LongRun(cfg, [a] + run)
    ensures LongRun(cfg, [b] + run) ==> LongRun(cfg, [a] + run)
  {
    if run == [] {
      assert [a, b] + run == [a, b];
    } else {
      var last := run[|run| - 1];
      assert ([a, b] + run)[|run| + 1] == last && ([a] + run)[|run|] == last && ([b] + run)[|run|] == last;
      assert last in run;
    }
  }

  /** A pressed sample that comes before the window is over can be dropped after an earlier one. */
  lemma {:induction false} LongRunDrop(cfg: Cfg, a: Sample, b: Sample, rest: seq<Sample>)
    requires a.pressed && b.pressed && a.now <= b.now < a.now + cfg.debounce
    ensures HasLongRun(cfg, [a, b] + rest) <==> HasLongRun(cfg, [a] + rest)
  {
    if HasLongRun(cfg, [a, b] + rest) {
      LongRunDropFront(cfg, a, b, rest);
    }
    if HasLongRun(cfg, [a] + rest) {
      LongRunAddFront(cfg, a, b, rest);
    }
  }

  lemma {:induction false} LongRunDropFront(cfg: Cfg, a: Sample, b: Sample, rest: seq<Sample>)
    requires a.pressed && b.pressed && a.now <= b.now < a.now + cfg.debounce
    requires HasLongRun(cfg, [a, b] + rest)
    ensures HasLongRun(cfg, [a] + rest)
  {
    var long := [a, b] + rest;
    var i, j :| 0 <= i <= j <= |long| && LongRun(cfg, long[i..j]);
    if i >= 2 {
      SliceBehind([a, b], rest, i - 2, j - 2);
      HasLongRunBehind(cfg, [a], rest);
    } else {
      LongRunOfShorter(cfg, a, b, rest, i, j - 2);
      HasLongRunFront(cfg, [a], rest, j - 2);
    }
  }

  lemma {:induction false} LongRunOfShorter(cfg: Cfg, a: Sample, b: Sample, rest: seq<Sample>, i: nat, j: nat)
    requires a.pressed && b.pressed && a.now <= b.now < a.now + cfg.debounce
    requires i < 2 && j <= |rest| && LongRun(cfg, ([a, b] + rest)[i..2 + j])
    ensures LongRun(cfg, [a] + rest[..j])
  {
    SliceAcross([a, b], rest, i, j);
    if i == 0 {
      assert [a, b][0..] == [a, b];
    } else {
      assert [a, b][1..] == [b];
    }
    LongRunLonger(cfg, a, b, rest[..j]);
  }

  lemma {:induction false} LongRunOfLonger(cfg: Cfg, a: Sample, b: Sample, rest: seq<Sample>, j: nat)
    requires a.pressed && b.pressed && a.now <= b.now < a.now + cfg.debounce
    requires j <= |rest| && LongRun(cfg, ([a] + rest)[0..1 + j])
    ensures LongRun(cfg, [a, b] + rest[..j])
  {
    SliceAcross([a], rest, 0, j);
    assert [a][0..] == [a];
    LongRunLonger(cfg, a, b, rest[..j]);
  }

  lemma {:induction false} LongRunAddFront(cfg: Cfg, a: Sample, b: Sample, rest: seq<Sample>)
    requires a.pressed && b.pressed && a.now <= b.now < a.now + cfg.debounce
    requires HasLongRun(cfg, [a] + rest)
    ensures HasLongRun(cfg, [a, b] + rest)
  {
    var short := [a] + rest;
    var i, j :| 0 <= i <= j <= |short| && LongRun(cfg, short[i..j]);
    if i >= 1 {
      SliceBehind([a], rest, i - 1, j - 1);
      HasLongRunBehind(cfg, [a, b], rest);
    } else {
      LongRunOfLonger(cfg, a, b, rest, j - 1);
      HasLongRunFront(cfg, [a, b], rest, j - 1);
    }
  }

  /** No sample is earlier than `time` or than the one before it. */
  predicate OrderedFrom(time: nat, samples: seq<Sample>)
    decreases |samples|
  {
    samples == [] || (time <= samples[0].now && OrderedFrom(samples[0].now, samples[1..]))
  }

  lemma {:induction false} OrderedIsOrderedFrom(time: nat, samples: seq<Sample>)
    requires Ordered(samples) && (samples != [] ==> time <= samples[0].now)
    ensures OrderedFrom(time, samples)
    decreases |samples|
  {
    if samples != [] {
      var rest := samples[1..];
      assert rest != [] ==> rest[0] == samples[1];
      OrderedIsOrderedFrom(samples[0].now, rest);
    }
  }

  lemma {:induction false} OrderedFromEarlier(early: nat, time: nat, samples: seq<Sample>)
    requires early <= time && OrderedFrom(time, samples)
    ensures OrderedFrom(early, samples)
  {
  }

  /** A press is confirmed exactly when some pressed stretch lasts for the debounce window. From the
      press debounce, it is as if the sample that started it came first. */
  lemma {:induction false} ConfirmedFromDebounce(cfg: Cfg, m: Fsm, samples: seq<Sample>)
    requires m.state == DebouncePress && m.enter >= 0 && OrderedFrom(m.enter, samples)
    ensures NeverConfirms(cfg, m, samples) <==> !HasLongRun(cfg, [Sample(m.enter, true)] + samples)
    decreases |samples|, 0
  {
    var a := Sample(m.enter, true);
    var all := [a] + samples;
    if samples == [] {
      assert |all| == 1;
    } else {
      var b, rest := samples[0], samples[1..];
      if !b.pressed {
        assert all == [a] + [b] + rest;
        ConfirmedFromIdle(cfg, m.(state := Idle), b.now, rest);
        LongRunBehind(cfg, [a], b, rest);
      } else if b.now - m.enter >= cfg.debounce {
        assert all[0..2] == [a, b];
        assert LongRun(cfg, all[0..2]);
        assert Step(cfg, Unbounded, m, b).fsm.state == Held;
      } else {
        assert all == [a, b] + rest;
        LongRunDrop(cfg, a, b, rest);
        OrderedFromEarlier(m.enter, b.now, rest);
        ConfirmedFromDebounce(cfg, m, rest);
      }
    }
  }

  lemma {:induction false} ConfirmedFromIdle(cfg: Cfg, m: Fsm, time: nat, samples: seq<Sample>)
    requires m.state == Idle && OrderedFrom(time, samples)
    ensures NeverConfirms(cfg, m, samples) <==> !HasLongRun(cfg, samples)
    decreases |samples|, 1
  {
    if samples != [] {
      var b, rest := samples[0], samples[1..];
      if b.pressed {
        assert [Sample(b.now, true)] + rest == samples;
        ConfirmedFromDebounce(cfg, m.(state := DebouncePress, enter := b.now), rest);
      } else {
        assert [] + [b] + rest == samples;
        LongRunBehind(cfg, [], b, rest);
        ConfirmedFromIdle(cfg, m, b.now, rest);
      }
    }
  }

  lemma {:induction false} UnconfirmedEmitsNothing(cfg: Cfg, m: Fsm, samples: seq<Sample>)
    requires NeverConfirms(cfg, m, samples)
    ensures Run(cfg, Unbounded, m, samples).events == []
    ensures Unconfirmed(Run(cfg, Unbounded, m, samples).fsm)
    ensures Run(cfg, Unbounded, m, samples).fsm.count == m.count
    decreases |samples|
  {
    if samples != [] {
      UnconfirmedEmitsNothing(cfg, Step(cfg, Unbounded, m, samples[0]).fsm, samples[1..]);
    }
  }

  /** Noise: if every pressed stretch is shorter than the debounce window, an idle task emits no event and
      keeps its count of presses. */
  lemma {:induction false} NoiseEmitsNothing(cfg: Cfg, m: Fsm, samples: seq<Sample>)
    requires LargestThreshold(cfg) < U32 && AtRest(m) && Timely(cfg, samples) && !HasLongRun(cfg, samples)
    ensures var out := Run(cfg, Wrapping, m, samples);
            out.events == [] && out.fsm.count == m.count && Unconfirmed(out.fsm)
  {
    OrderedIsOrderedFrom(0, samples);
    ConfirmedFromIdle(cfg, m, 0, samples);
    UnconfirmedEmitsNothing(cfg, m, samples);
    WrapInvisible(cfg, m, samples);
  }

  // ---------- Gestures ----------

  /** One press and what follows it: the poll times with the button down, then those with it up. */
  datatype Press = Press(down: seq<nat>, up: seq<nat>)

  function At(times: seq<nat>, pressed: bool): (samples: seq<Sample>)
    ensures |samples| == |times|
    ensures forall i :: 0 <= i < |times| ==> samples[i] == Sample(times[i], pressed)
  {
    seq(|times|, i requires 0 <= i < |times| => Sample(times[i], pressed))
  }

  function Samples(p: Press): seq<Sample> {
    At(p.down, true) + At(p.up, false)
  }

  function Trace(presses: seq<Press>): seq<Sample> {
    if presses == [] then [] else Samples(presses[0]) + Trace(presses[1..])
  }

  /** The first poll, from `i` on, that is at least `window` after the first one of the list. */
  function Confirm(times: seq<nat>, window: nat, i: nat := 1): (c: nat)
    requires 1 <= i <= |times|
    ensures i <= c <= |times|
    ensures c < |times| ==> times[c] - times[0] >= window
    ensures forall k :: i <= k < c ==> times[k] - times[0] < window
    decreases |times| - i
  {
    if i == |times| || times[i] - times[0] >= window then i else Confirm(times, window, i + 1)
  }

  /** Both edges are steady for the debounce window: no bounce gets through. */
  predicate Clean(cfg: Cfg, p: Press) {
    && p.down != [] && p.up != []
    && Confirm(p.down, cfg.debounce) < |p.down|
    && Confirm(p.up, cfg.debounce) < |p.up|
    && Sorted(p.down) && Sorted(p.up)
    && p.down[|p.down| - 1] <= p.up[0]
  }

  predicate Sorted(times: seq<nat>) {
    forall i, j :: 0 <= i < j < |times| ==> times[i] <= times[j]
  }

  /** Held for the long-press time, from the confirmed press to the first sample of the release. */
  predicate IsLong(cfg: Cfg, p: Press)
    requires p.down != [] && p.up != [] && Confirm(p.down, cfg.debounce) < |p.down|
  {
    p.up[0] - p.down[Confirm(p.down, cfg.debounce)] >= cfg.longPress
  }

  /** Up for the multi-press time, from the confirmed release on. */
  predicate TimesOut(cfg: Cfg, up: seq<nat>)
    requires up != [] && Confirm(up, cfg.debounce) < |up|
  {
    var r := Confirm(up, cfg.debounce);
    r + 1 < |up| && up[|up| - 1] - up[r] >= cfg.multiPress
  }

  /** The end of a short press, after `count` earlier ones. */
  function Counted(cfg: Cfg, count: nat, up: seq<nat>): Out
    requires up != [] && Confirm(up, cfg.debounce) < |up|
  {
    var released := up[Confirm(up, cfg.debounce)];
    if TimesOut(cfg, up) then Out(Fsm(Idle, released, 0, false), [CountKind(count + 1)])
    else Out(Fsm(InterPress, released, count + 1, false), [])
  }

  /** What one press means: `pending` short ones came right before. */
  function PressEvents(cfg: Cfg, pending: nat, p: Press): seq<Kind>
    requires Clean(cfg, p)
  {
    if IsLong(cfg, p) then [Long] else if TimesOut(cfg, p.up) then [CountKind(pending + 1)] else []
  }

  function StillPending(cfg: Cfg, pending: nat, p: Press): nat
    requires Clean(cfg, p)
  {
    if IsLong(cfg, p) || TimesOut(cfg, p.up) then 0 else pending + 1
  }

  predicate AllClean(cfg: Cfg, presses: seq<Press>) {
    forall i :: 0 <= i < |presses| ==> Clean(cfg, presses[i])
  }

  function Meaning(cfg: Cfg, pending: nat, presses: seq<Press>): seq<Kind>
    requires AllClean(cfg, presses)
    decreases |presses|
  {
    if presses == [] then []
    else
      assert Clean(cfg, presses[0]);
      PressEvents(cfg, pending, presses[0]) + Meaning(cfg, StillPending(cfg, pending, presses[0]), presses[1..])
  }

  /** The run over the polls from number `from` on, all at the same level. */
  function RunTimes(cfg: Cfg, m: Fsm, times: seq<nat>, from: nat, pressed: bool): Out
    requires from <= |times|
    decreases |times| - from
  {
    if from == |times| then Out(m, [])
    else
      var first := Step(cfg, Unbounded, m, Sample(times[from], pressed));
      var rest := RunTimes(cfg, first.fsm, times, from + 1, pressed);
      Out(rest.fsm, first.events + rest.events)
  }

  lemma {:induction false} RunAt(cfg: Cfg, m: Fsm, times: seq<nat>, from: nat, pressed: bool)
    requires from <= |times|
    ensures Run(cfg, Unbounded, m, At(times[from..], pressed)) == RunTimes(cfg, m, times, from, pressed)
    decreases |times| - from
  {
    if from < |times| {
      NextAt(times, from, pressed);
      RunAt(cfg, Step(cfg, Unbounded, m, Sample(times[from], pressed)).fsm, times, from + 1, pressed);
    }
  }

  lemma {:induction false} NextAt(times: seq<nat>, from: nat, pressed: bool)
    requires from < |times|
    ensures At(times[from..], pressed) != []
    ensures At(times[from..], pressed)[0] == Sample(times[from], pressed)
    ensures At(times[from..], pressed)[1..] == At(times[from + 1..], pressed)
  {
  }

  lemma {:induction false} Stays(cfg: Cfg, m: Fsm, times: seq<nat>, from: nat, pressed: bool)
    requires from <= |times|
    requires forall k :: from <= k < |times| ==> Step(cfg, Unbounded, m, Sample(times[k], pressed)) == Out(m, [])
    ensures RunTimes(cfg, m, times, from, pressed) == Out(m, [])
    decreases |times| - from
  {
    if from < |times| {
      Stays(cfg, m, times, from + 1, pressed);
    }
  }

  /** Stay for a while, take one step, go on. */
  lemma {:induction false} StayThenStep(cfg: Cfg, m: Fsm, times: seq<nat>, from: nat, i: nat, pressed: bool)
    requires from <= i < |times|
    requires forall k :: from <= k < i ==> Step(cfg, Unbounded, m, Sample(times[k], pressed)) == Out(m, [])
    ensures var next := Step(cfg, Unbounded, m, Sample(times[i], pressed));
            var rest := RunTimes(cfg, next.fsm, times, i + 1, pressed);
            RunTimes(cfg, m, times, from, pressed) == Out(rest.fsm, next.events + rest.events)
    decreases i - from
  {
    if from < i {
      StayThenStep(cfg, m, times, from + 1, i, pressed);
    }
  }

  predicate Ready(m: Fsm) {
    m.state == Idle || m.state == InterPress
  }

  lemma {:induction false} PressStarts(cfg: Cfg, m: Fsm, down: seq<nat>)
    requires Ready(m) && down != []
    ensures RunTimes(cfg, m, down, 0, true)
            == RunTimes(cfg, m.(state := DebouncePress, enter := down[0]), down, 1, true)
  {
    var rest := RunTimes(cfg, m.(state := DebouncePress, enter := down[0]), down, 1, true);
    assert [] + rest.events == rest.events;
  }

  /** A clean edge down confirms the press at the first poll after the window. */
  lemma {:induction false} PressConfirmed(cfg: Cfg, m: Fsm, down: seq<nat>)
    requires Ready(m) && down != [] && Confirm(down, cfg.debounce) < |down|
    ensures var c := Confirm(down, cfg.debounce);
            RunTimes(cfg, m, down, 0, true)
            == RunTimes(cfg, Fsm(Held, down[c], m.count, false), down, c + 1, true)
  {
    var c := Confirm(down, cfg.debounce);
    PressStarts(cfg, m, down);
    StayThenStep(cfg, m.(state := DebouncePress, enter := down[0]), down, 1, c, true);
    var rest := RunTimes(cfg, Fsm(Held, down[c], m.count, false), down, c + 1, true);
    assert [] + rest.events == rest.events;
  }

  /** Held down: the long press fires once, at the first poll after its time, or not at all. */
  lemma {:induction false} HoldDown(cfg: Cfg, m: Fsm, times: seq<nat>, from: nat)
    requires m.state == Held && !m.longFired && from <= |times| && Sorted(times)
    ensures var fires := from < |times| && times[|times| - 1] - m.enter >= cfg.longPress;
            RunTimes(cfg, m, times, from, true)
            == Out(m.(longFired := fires), if fires then [Long] else [])
    decreases |times| - from
  {
    if from < |times| {
      StayThenStep(cfg, m, times, from, from, true);
      if times[from] - m.enter >= cfg.longPress {
        Stays(cfg, m.(longFired := true), times, from + 1, true);
      } else {
        HoldDown(cfg, m, times, from + 1);
      }
    }
  }

  /** Everything up to and including the first sample of the release. */
  lemma {:induction false} HoldAndLetGo(cfg: Cfg, m: Fsm, times: seq<nat>, from: nat, up: nat)
    requires m.state == Held && !m.longFired && from <= |times| && Sorted(times)
    requires times != [] ==> times[|times| - 1] <= up
    ensures var held := RunTimes(cfg, m, times, from, true);
            var go := Step(cfg, Unbounded, held.fsm, Sample(up, false));
            var long := up - m.enter >= cfg.longPress;
            && go.fsm == Fsm(DebounceRelease, up, m.count, long)
            && held.events + go.events == if long then [Long] else []
  {
    HoldDown(cfg, m, times, from);
  }

  /** A clean edge up after a long press: nothing more is emitted and pending presses are dropped. */
  lemma {:induction false} ReleaseAfterLong(cfg: Cfg, m: Fsm, up: seq<nat>)
    requires up != [] && Confirm(up, cfg.debounce) < |up|
    requires m.state == DebounceRelease && m.longFired && m.enter == up[0]
    ensures RunTimes(cfg, m, up, 1, false) == Out(Fsm(Idle, m.enter, 0, false), [])
  {
    var r := Confirm(up, cfg.debounce);
    StayThenStep(cfg, m, up, 1, r, false);
    Stays(cfg, Fsm(Idle, m.enter, 0, false), up, r + 1, false);
  }

  /** Waiting for another press: times out once, at the first poll after the multi-press time. */
  lemma {:induction false} WaitForPress(cfg: Cfg, m: Fsm, times: seq<nat>, from: nat)
    requires m.state == InterPress && from <= |times| && Sorted(times)
    ensures RunTimes(cfg, m, times, from, false)
            == if from < |times| && times[|times| - 1] - m.enter >= cfg.multiPress
               then Out(m.(state := Idle, count := 0), [CountKind(m.count)])
               else Out(m, [])
    decreases |times| - from
  {
    if from < |times| {
      StayThenStep(cfg, m, times, from, from, false);
      if times[from] - m.enter >= cfg.multiPress {
        Stays(cfg, m.(state := Idle, count := 0), times, from + 1, false);
      } else {
        WaitForPress(cfg, m, times, from + 1);
      }
    }
  }

  lemma {:induction false} ReleaseAfterShort(cfg: Cfg, m: Fsm, up: seq<nat>)
    requires up != [] && Confirm(up, cfg.debounce) < |up| && Sorted(up)
    requires m.state == DebounceRelease && !m.longFired && m.enter == up[0]
    ensures RunTimes(cfg, m, up, 1, false) == Counted(cfg, m.count, up)
  {
    var r := Confirm(up, cfg.debounce);
    StayThenStep(cfg, m, up, 1, r, false);
    WaitForPress(cfg, Fsm(InterPress, up[r], m.count + 1, false), up, r + 1);
  }

  /** From the start of a clean press until its release is seen. */
  lemma {:induction false} CleanDown(cfg: Cfg, m: Fsm, p: Press)
    requires Ready(m) && Clean(cfg, p)
    ensures var out := RunTimes(cfg, Fsm(DebounceRelease, p.up[0], m.count, IsLong(cfg, p)), p.up, 1, false);
            Run(cfg, Unbounded, m, Samples(p))
            == Out(out.fsm, (if IsLong(cfg, p) then [Long] else []) + out.events)
  {
    var c := Confirm(p.down, cfg.debounce);
    var held := Fsm(Held, p.down[c], m.count, false);
    assert p.down[0..] == p.down && p.up[0..] == p.up;
    RunAt(cfg, m, p.down, 0, true);
    PressConfirmed(cfg, m, p.down);
    HoldAndLetGo(cfg, held, p.down, c + 1, p.up[0]);
    RunConcat(cfg, Unbounded, m, At(p.down, true), At(p.up, false));
    var a := RunTimes(cfg, held, p.down, c + 1, true);
    RunAt(cfg, a.fsm, p.up, 0, false);
    EventsAssoc(a.events, Step(cfg, Unbounded, a.fsm, Sample(p.up[0], false)).events,
                RunTimes(cfg, Fsm(DebounceRelease, p.up[0], m.count, IsLong(cfg, p)), p.up, 1, false).events);
  }

  lemma {:induction false} CleanLongPress(cfg: Cfg, m: Fsm, p: Press)
    requires Ready(m) && Clean(cfg, p) && IsLong(cfg, p)
    ensures Run(cfg, Unbounded, m, Samples(p)) == Out(Fsm(Idle, p.up[0], 0, false), [Long])
  {
    CleanDown(cfg, m, p);
    ReleaseAfterLong(cfg, Fsm(DebounceRelease, p.up[0], m.count, true), p.up);
  }

  lemma {:induction false} CleanShortPress(cfg: Cfg, m: Fsm, p: Press)
    requires Ready(m) && Clean(cfg, p) && !IsLong(cfg, p)
    ensures Run(cfg, Unbounded, m, Samples(p)) == Counted(cfg, m.count, p.up)
  {
    CleanDown(cfg, m, p);
    var go := Fsm(DebounceRelease, p.up[0], m.count, false);
    ReleaseAfterShort(cfg, go, p.up);
    var out := RunTimes(cfg, go, p.up, 1, false);
    assert [] + out.events == out.events;
  }

  lemma {:induction false} CleanPress(cfg: Cfg, m: Fsm, p: Press)
    requires Ready(m) && Clean(cfg, p)
    ensures var out := Run(cfg, Unbounded, m, Samples(p));
            && Ready(out.fsm)
            && out.events == PressEvents(cfg, m.count, p)
            && out.fsm.count == StillPending(cfg, m.count, p)
  {
    if IsLong(cfg, p) {
      CleanLongPress(cfg, m, p);
    } else {
      CleanShortPress(cfg, m, p);
    }
  }

  lemma {:induction false} CleanTrace(cfg: Cfg, m: Fsm, presses: seq<Press>)
    requires Ready(m) && AllClean(cfg, presses)
    ensures Run(cfg, Unbounded, m, Trace(presses)).events == Meaning(cfg, m.count, presses)
    decreases |presses|
  {
    if presses != [] {
      var p := presses[0];
      assert Clean(cfg, p);
      CleanPress(cfg, m, p);
      RunConcat(cfg, Unbounded, m, Samples(p), Trace(presses[1..]));
      CleanTrace(cfg, Run(cfg, Unbounded, m, Samples(p)).fsm, presses[1..]);
    }
  }

  /** Polls with the button up, then presses. */
  function Session(idle: seq<nat>, presses: seq<Press>): seq<Sample> {
    At(idle, false) + Trace(presses)
  }

  lemma {:induction false} IdleFirst(cfg: Cfg, m: Fsm, idle: seq<nat>, presses: seq<Press>)
    requires m.state == Idle
    ensures Run(cfg, Unbounded, m, Session(idle, presses)) == Run(cfg, Unbounded, m, Trace(presses))
  {
    assert idle[0..] == idle;
    RunAt(cfg, m, idle, 0, false);
    Stays(cfg, m, idle, 0, false);
    RunConcat(cfg, Unbounded, m, At(idle, false), Trace(presses));
    var out := Run(cfg, Unbounded, m, Trace(presses));
    assert [] + out.events == out.events;
  }

  /** From any idle state and after any time without a press, the task emits exactly what the presses
      mean, for every clean trace. */
  lemma {:induction false} GesturesRecognised(cfg: Cfg, m: Fsm, idle: seq<nat>, presses: seq<Press>)
    requires LargestThreshold(cfg) < U32 && AtRest(m)
    requires Timely(cfg, Session(idle, presses)) && AllClean(cfg, presses)
    ensures Run(cfg, Wrapping, m, Session(idle, presses)).events == Meaning(cfg, m.count, presses)
  {
    CleanTrace(cfg, m, presses);
    IdleFirst(cfg, m, idle, presses);
    WrapInvisible(cfg, m, Session(idle, presses));
  }

  /** A short press that another one follows in time. */
  predicate Joined(cfg: Cfg, p: Press) {
    Clean(cfg, p) && !IsLong(cfg, p) && !TimesOut(cfg, p.up)
  }

  predicate AllJoined(cfg: Cfg, presses: seq<Press>) {
    forall i :: 0 <= i < |presses| ==> Joined(cfg, presses[i])
  }

  lemma {:induction false} AllCleanSnoc(cfg: Cfg, presses: seq<Press>, last: Press)
    requires AllJoined(cfg, presses) && Clean(cfg, last)
    ensures AllClean(cfg, presses + [last])
  {
    forall i | 0 <= i < |presses + [last]| ensures Clean(cfg, (presses + [last])[i]) {
      assert i < |presses| ==> Joined(cfg, presses[i]);
    }
  }

  lemma {:induction false} MeaningAfterJoined(cfg: Cfg, pending: nat, p: Press, rest: seq<Press>)
    requires AllClean(cfg, [p] + rest) && AllClean(cfg, rest) && Joined(cfg, p)
    ensures Meaning(cfg, pending, [p] + rest) == Meaning(cfg, pending + 1, rest)
  {
    assert ([p] + rest)[0] == p && ([p] + rest)[1..] == rest;
    assert [] + Meaning(cfg, pending + 1, rest) == Meaning(cfg, pending + 1, rest);
  }

  /** Presses that follow each other in time only add up to the one that ends them. */
  lemma {:induction false} MeaningOfJoined(cfg: Cfg, pending: nat, presses: seq<Press>, last: Press)
    requires AllJoined(cfg, presses) && Clean(cfg, last) && AllClean(cfg, presses + [last])
    ensures Meaning(cfg, pending, presses + [last]) == PressEvents(cfg, pending + |presses|, last)
    decreases |presses|
  {
    if presses == [] {
      assert presses + [last] == [last] && [last][1..] == [];
    } else {
      var rest := presses[1..] + [last];
      assert presses + [last] == [presses[0]] + rest;
      AllCleanSnoc(cfg, presses[1..], last);
      MeaningOfJoined(cfg, pending + 1, presses[1..], last);
      assert Joined(cfg, presses[0]);
      MeaningAfterJoined(cfg, pending, presses[0], rest);
    }
  }

  /** k short presses in quick succession, then quiet, from idle with no press pending: exactly one
      event, a double click for two presses and a single one for any other number. */
  lemma {:induction false} ShortPressesThenQuiet(cfg: Cfg, m: Fsm, idle: seq<nat>, presses: seq<Press>, last: Press)
    requires LargestThreshold(cfg) < U32 && AtRest(m) && m.count == 0
    requires Timely(cfg, Session(idle, presses + [last]))
    requires AllJoined(cfg, presses) && Clean(cfg, last) && !IsLong(cfg, last) && TimesOut(cfg, last.up)
    ensures Run(cfg, Wrapping, m, Session(idle, presses + [last])).events
            == [if |presses| + 1 == 2 then Double else Single]
  {
    AllCleanSnoc(cfg, presses, last);
    MeaningOfJoined(cfg, 0, presses, last);
    GesturesRecognised(cfg, m, idle, presses + [last]);
  }

  /** Short presses and then a long one: exactly one event, the long one. The presses before it are
      dropped, its release emits nothing, and what comes next starts from no pending press. */
  lemma {:induction false} LongPressDiscards(cfg: Cfg, m: Fsm, idle: seq<nat>, presses: seq<Press>, hold: Press)
    requires LargestThreshold(cfg) < U32 && AtRest(m)
    requires Timely(cfg, Session(idle, presses + [hold]))
    requires AllJoined(cfg, presses) && Clean(cfg, hold) && IsLong(cfg, hold)
    ensures var out := Run(cfg, Wrapping, m, Session(idle, presses + [hold]));
            out.events == [Long] && AtRest(out.fsm) && out.fsm.count == 0
  {
    AllCleanSnoc(cfg, presses, hold);
    MeaningOfJoined(cfg, m.count, presses, hold);
    GesturesRecognised(cfg, m, idle, presses + [hold]);
    IdleFirst(cfg, m, idle, presses + [hold]);
    TraceSnoc(presses, hold);
    CleanTraceReady(cfg, m, presses);
    RunConcat(cfg, Unbounded, m, Trace(presses), Samples(hold));
    CleanLongPress(cfg, Run(cfg, Unbounded, m, Trace(presses)).fsm, hold);
    WrapInvisible(cfg, m, Session(idle, presses + [hold]));
  }

  lemma {:induction false} TraceSnoc(presses: seq<Press>, last: Press)
    ensures Trace(presses + [last]) == Trace(presses) + Samples(last)
    decreases |presses|
  {
    var all := presses + [last];
    if presses == [] {
      assert all == [last] && all[1..] == [];
    } else {
      assert all[0] == presses[0] && all[1..] == presses[1..] + [last];
      TraceSnoc(presses[1..], last);
    }
  }

  lemma {:induction false} CleanTraceReady(cfg: Cfg, m: Fsm, presses: seq<Press>)
    requires Ready(m) && AllJoined(cfg, presses)
    ensures Ready(Run(cfg, Unbounded, m, Trace(presses)).fsm)
    decreases |presses|
  {
    if presses != [] {
      var p := presses[0];
      assert Joined(cfg, p);
      CleanPress(cfg, m, p);
      RunConcat(cfg, Unbounded, m, Samples(p), Trace(presses[1..]));
      CleanTraceReady(cfg, Run(cfg, Unbounded, m, Samples(p)).fsm, presses[1..]);
    }
  }

  /** A bounce during the release: the button counts as held again from that poll on. The long-press time starts
      anew, but a long press that was reported is not reported again; no press is counted. */
  lemma {:induction false} ReleaseBounce(cfg: Cfg, m: Fsm, back: nat, times: seq<nat>)
    requires m.state == DebounceRelease && Sorted(times)
    ensures var out := Run(cfg, Unbounded, m, [Sample(back, true)] + At(times, true));
            var fires := !m.longFired && times != [] && times[|times| - 1] - back >= cfg.longPress;
            && out.fsm == Fsm(Held, back, m.count, m.longFired || fires)
            && out.events == if fires then [Long] else []
  {
    var held := Fsm(Held, back, m.count, m.longFired);
    assert ([Sample(back, true)] + At(times, true))[1..] == At(times, true) && times[0..] == times;
    RunAt(cfg, held, times, 0, true);
    var out := RunTimes(cfg, held, times, 0, true);
    assert [] + out.events == out.events;
    if m.longFired {
      Stays(cfg, held, times, 0, true);
    } else {
      HoldDown(cfg, held, times, 0);
    }
  }

  /** A poll that ends the wait for another press by time. */
  predicate IsTimeout(cfg: Cfg, m: Fsm, s: Sample) {
    !s.pressed && s.now - m.enter >= cfg.multiPress
  }

  /** The first poll that changes the machine at all makes it report the presses counted so far. */
  predicate ReportsNext(cfg: Cfg, m: Fsm, samples: seq<Sample>)
    decreases |samples|
  {
    samples != []
    && (if Step(cfg, Unbounded, m, samples[0]) == Out(m, []) then ReportsNext(cfg, m, samples[1..])
        else Step(cfg, Unbounded, m, samples[0]) == Out(m.(state := Idle, count := 0), [CountKind(m.count)]))
  }

  /** Some poll comes after the multi-press time, and none up to it finds the button down. */
  ghost predicate UpUntilTimeout(cfg: Cfg, m: Fsm, samples: seq<Sample>) {
    exists i :: 0 <= i < |samples| && IsTimeout(cfg, m, samples[i]) && forall j :: 0 <= j < i ==> !samples[j].pressed
  }

  lemma {:induction false} UpShift(cfg: Cfg, m: Fsm, samples: seq<Sample>)
    requires samples != [] && !samples[0].pressed && !IsTimeout(cfg, m, samples[0])
    ensures UpUntilTimeout(cfg, m, samples) <==> UpUntilTimeout(cfg, m, samples[1..])
  {
    var rest := samples[1..];
    if UpUntilTimeout(cfg, m, samples) {
      var i :| 0 <= i < |samples| && IsTimeout(cfg, m, samples[i]) && forall j :: 0 <= j < i ==> !samples[j].pressed;
      assert rest[i - 1] == samples[i];
      assert forall j :: 0 <= j < i - 1 ==> rest[j] == samples[j + 1];
    }
    if UpUntilTimeout(cfg, m, rest) {
      var i :| 0 <= i < |rest| && IsTimeout(cfg, m, rest[i]) && forall j :: 0 <= j < i ==> !rest[j].pressed;
      assert samples[i + 1] == rest[i];
      assert forall j :: 1 <= j < i + 1 ==> samples[j] == rest[j - 1];
    }
  }

  /** From the wait for another press, the presses counted so far are reported next exactly when some poll
      comes after the multi-press time and no poll before it finds the button down. */
  lemma {:induction false} PendingReportedIff(cfg: Cfg, m: Fsm, samples: seq<Sample>)
    requires m.state == InterPress
    ensures ReportsNext(cfg, m, samples) <==> UpUntilTimeout(cfg, m, samples)
    decreases |samples|
  {
    if samples != [] {
      if samples[0].pressed {
        assert Step(cfg, Unbounded, m, samples[0]).fsm.state == DebouncePress;
      } else if IsTimeout(cfg, m, samples[0]) {
        assert ReportsNext(cfg, m, samples);
      } else {
        UpShift(cfg, m, samples);
        PendingReportedIff(cfg, m, samples[1..]);
      }
    }
  }

  /** A bounce while another press is awaited keeps the presses counted so far but stops the timer:
      a press counted before it is reported only after the next one. */
  lemma {:induction false} BounceKeepsCount(cfg: Cfg, m: Fsm, down: nat, up: nat, quiet: seq<nat>)
    requires m.state == InterPress && m.enter >= 0
    ensures Run(cfg, Unbounded, m, [Sample(down, true), Sample(up, false)] + At(quiet, false))
            == Out(m.(state := Idle, enter := down), [])
  {
    var bounce := [Sample(down, true), Sample(up, false)];
    assert bounce[1..] == [Sample(up, false)] && bounce[1..][1..] == [];
    assert Run(cfg, Unbounded, m.(state := DebouncePress, enter := down), bounce[1..])
        == Out(m.(state := Idle, enter := down), []);
    assert quiet[0..] == quiet;
    RunAt(cfg, m.(state := Idle, enter := down), quiet, 0, false);
    Stays(cfg, m.(state := Idle, enter := down), quiet, 0, false);
    RunConcat(cfg, Unbounded, m, bounce, At(quiet, false));
  }
}
