/** The tasks around the transport as one transition system: any number of senders and resetters,
    the RX task, the dispatch task, the consumer of the AREQ queue, and timeouts at any moment.

    A run is a list of actions; each action is one atomic step of one task. */
module Correlator {
  import opened Bits
  import opened Wrappers
  import opened MtFrame
  import opened RxMachine
  import opened ZnpLink

  type TaskId = nat

  /** How a request ends; `at` is the position of the response among all frames the RX task posted. */
  datatype Outcome = Response(frame: Frame, at: nat) | TimedOut | BadRequest

  /** Where a task stands. `since` is the number of frames that had been dispatched when the task
      cleared the response semaphore. */
  datatype Pc =
    | Idle
    | Locking(req: Frame)
    | SettingType(req: Frame)
    | SettingId(req: Frame)
    | Clearing(req: Frame)
    | Writing(req: Frame, since: nat)
    | Waiting(req: Frame, since: nat)
    | Copying(req: Frame, since: nat)
    | Releasing(req: Frame, since: nat, outcome: Outcome)
    | Returned(req: Frame, since: nat, outcome: Outcome)
    | AwaitingReset
    | ResetReturned(ok: bool)

  /** The steps between taking the request mutex and giving it back. */
  predicate Critical(pc: Pc) {
    pc.SettingType? || pc.SettingId? || pc.Clearing? || pc.Writing? || pc.Waiting? || pc.Copying? || pc.Releasing?
  }

  /** What became of the frames so far, apart from those that reached the AREQ queue, and the timeouts. */
  datatype Tally = Tally(rawDropped: seq<Frame>, areqDropped: seq<Frame>, requestTimeouts: nat, resetTimeouts: nat,
                         matched: seq<Frame>, unexpected: seq<Frame>, unknown: seq<Frame>)

  /** The history of a run: received bytes, frames posted to the raw queue, how many of them were
      dispatched, which one is in the response cell, which ones were copied out as responses, and the
      frames handed to the consumer. */
  datatype Log = Log(start: Rx, bytes: seq<byte>, posted: seq<Frame>, dispatched: nat, srspAt: nat,
                     given: seq<nat>, consumed: seq<Frame>, tally: Tally)

  datatype World = World(link: Link, tasks: map<TaskId, Pc>, owner: Option<TaskId>, log: Log) {
    function PcOf(t: TaskId): Pc {
      if t in tasks then tasks[t] else Idle
    }

    function Goto(t: TaskId, pc: Pc): World {
      this.(tasks := tasks[t := pc])
    }

    function WithTally(t: Tally): World {
      this.(log := log.(tally := t))
    }
  }

  datatype Action =
    | Byte(b: byte)
    | Take
    | Process
    | Post
    | Consume
    | Call(t: TaskId, req: Frame)
    | CallReset(t: TaskId)
    | Advance(t: TaskId)
    | TimeOut(t: TaskId)
    | Forget(t: TaskId)

  predicate Init(w: World) {
    && w.link.rx.Valid() && w.link.rx.phase == HuntSof
    && w.link.rawQueue == [] && w.link.areqQueue == [] && w.link.dispatcher == Receiving
    && w.link.errors == 0
    && w.tasks == map[] && w.owner == None
    && w.log == Log(w.link.rx, [], [], 0, 0, [], [], Tally([], [], 0, 0, [], [], []))
  }

  predicate Enabled(w: World, a: Action) {
    match a
    case Byte(_) => true
    case Take => w.link.dispatcher.Receiving? && w.link.rawQueue != []
    case Process => w.link.dispatcher.Holding?
    case Post => w.link.dispatcher.Announced?
    case Consume => w.link.areqQueue != []
    case Call(t, _) => w.PcOf(t).Idle?
    case CallReset(t) => w.PcOf(t).Idle?
    case Forget(t) => w.PcOf(t).Returned? || w.PcOf(t).ResetReturned?
    case TimeOut(t) =>
      (match w.PcOf(t)
       case Locking(_) => w.owner.Some?
       case Waiting(_, _) => !w.link.srspSem
       case AwaitingReset => !w.link.resetSem
       case _ => false)
    case Advance(t) =>
      (match w.PcOf(t)
       case Locking(_) => w.owner.None?
       case Waiting(_, _) => w.link.srspSem
       case AwaitingReset => w.link.resetSem
       case pc => Critical(pc))
  }

  function ByteStep(w: World, b: byte): World {
    var events := Step(w.link.rx, b).1;
    var log := w.log.(bytes := w.log.bytes + [b]);
    var w1 := w.(link := RxByte(w.link, b), log := log);
    if events != [] && events[0].FrameReceived? then
      if |w.link.rawQueue| < RAW_QUEUE_DEPTH then
        w1.(log := log.(posted := log.posted + [events[0].frame]))
      else
        w1.WithTally(log.tally.(rawDropped := log.tally.rawDropped + [events[0].frame]))
    else w1
  }

  /** The tally after an attempt to queue an AREQ frame. */
  function AreqTally(l: Link, t: Tally, f: Frame): Tally {
    if |l.areqQueue| < l.areqDepth then t else t.(areqDropped := t.areqDropped + [f])
  }

  function ProcessStep(w: World): World
    requires w.link.dispatcher.Holding?
  {
    var f := w.link.dispatcher.frame;
    var log := w.log.(dispatched := w.log.dispatched + 1);
    var w1 := w.(link := DispatchProcess(w.link), log := log);
    if FrameType(f.cmdType) == SRSP then
      if KeyOf(f) == w.link.pending then
        w1.(log := log.(srspAt := w.log.dispatched,
                        tally := log.tally.(matched := log.tally.matched + [f])))
      else
        w1.WithTally(log.tally.(unexpected := log.tally.unexpected + [f]))
    else if IsAreq(f) then
      if IsResetInd(f) then w1 else w1.WithTally(AreqTally(w.link, log.tally, f))
    else
      w1.WithTally(log.tally.(unknown := log.tally.unknown + [f]))
  }

  function AdvanceStep(w: World, t: TaskId): World
    requires Enabled(w, Advance(t))
  {
    match w.PcOf(t)
    case Locking(req) => w.(owner := Some(t)).Goto(t, SettingType(req))
    case SettingType(req) =>
      w.(link := w.link.(pending := w.link.pending.(cmdType := ExpectedKey(req).cmdType))).Goto(t, SettingId(req))
    case SettingId(req) =>
      w.(link := w.link.(pending := w.link.pending.(cmdId := req.cmdId))).Goto(t, Clearing(req))
    case Clearing(req) =>
      w.(link := w.link.(srspSem := false)).Goto(t, Writing(req, w.log.dispatched))
    case Writing(req, since) => w.Goto(t, Waiting(req, since))
    case Waiting(req, since) => w.(link := w.link.(srspSem := false)).Goto(t, Copying(req, since))
    case Copying(req, since) =>
      w.(log := w.log.(given := w.log.given + [w.log.srspAt]))
       .Goto(t, Releasing(req, since, Response(w.link.srspFrame, w.log.srspAt)))
    case Releasing(req, since, outcome) => w.(owner := None).Goto(t, Returned(req, since, outcome))
    case AwaitingReset => w.(link := w.link.(resetSem := false)).Goto(t, ResetReturned(true))
  }

  function TimeOutStep(w: World, t: TaskId): World
    requires Enabled(w, TimeOut(t))
  {
    var tally := w.log.tally;
    var w1 := w.(link := CountError(w.link));
    match w.PcOf(t)
    case Locking(req) =>
      w1.WithTally(tally.(requestTimeouts := tally.requestTimeouts + 1)).Goto(t, Returned(req, 0, TimedOut))
    case Waiting(req, since) =>
      w1.WithTally(tally.(requestTimeouts := tally.requestTimeouts + 1)).Goto(t, Releasing(req, since, TimedOut))
    case AwaitingReset =>
      w1.WithTally(tally.(resetTimeouts := tally.resetTimeouts + 1)).Goto(t, ResetReturned(false))
  }

  function Next(w: World, a: Action): World
    requires Enabled(w, a)
  {
    match a
    case Byte(b) => ByteStep(w, b)
    case Take => w.(link := DispatchTake(w.link))
    case Process => ProcessStep(w)
    case Post => w.(link := DispatchPost(w.link)).WithTally(AreqTally(w.link, w.log.tally, w.link.dispatcher.frame))
    case Consume =>
      w.(link := w.link.(areqQueue := w.link.areqQueue[1..]),
         log := w.log.(consumed := w.log.consumed + [w.link.areqQueue[0]]))
    case Call(t, req) =>
      // a payload over 250 bytes does not fit the wire buffer and is refused by the encoder
      if req.WellFormed() then w.Goto(t, Locking(req)) else w.Goto(t, Returned(req, 0, BadRequest))
    case CallReset(t) => w.(link := w.link.(resetSem := false)).Goto(t, AwaitingReset)
    case Forget(t) => w.Goto(t, Idle)
    case TimeOut(t) => TimeOutStep(w, t)
    case Advance(t) => AdvanceStep(w, t)
  }

  // ---------- Runs ----------

  ghost predicate Possible(w: World, run: seq<Action>)
    decreases |run|
  {
    run == [] || (Enabled(w, run[0]) && Possible(Next(w, run[0]), run[1..]))
  }

  function Exec(w: World, run: seq<Action>): World
    requires Possible(w, run)
    decreases |run|
  {
    if run == [] then w else Exec(Next(w, run[0]), run[1..])
  }

  // ---------- Correlation ----------

  /** The request mutex has one holder, the task inside the critical section. */
  ghost predicate MutexInv(w: World) {
    forall t: TaskId :: Critical(w.PcOf(t)) <==> w.owner == Some(t)
  }

  /** Frame `at` of the posted ones is `f`, it was dispatched after the first `since` frames, and it
      carries the key that answers `req`. */
  predicate Answers(log: Log, f: Frame, at: nat, req: Frame, since: nat) {
    since <= at < log.dispatched && at < |log.posted| && log.posted[at] == f && KeyOf(f) == ExpectedKey(req)
  }

  /** What holds at each step of a task. */
  predicate TaskInv(link: Link, log: Log, pc: Pc) {
    match pc
    case SettingId(req) => link.pending.cmdType == ExpectedKey(req).cmdType
    case Clearing(req) => link.pending == ExpectedKey(req)
    case Writing(req, since) =>
      link.pending == ExpectedKey(req) && since <= log.dispatched
      && (link.srspSem ==> Answers(log, link.srspFrame, log.srspAt, req, since))
    case Waiting(req, since) =>
      link.pending == ExpectedKey(req) && since <= log.dispatched
      && (link.srspSem ==> Answers(log, link.srspFrame, log.srspAt, req, since))
    case Copying(req, since) =>
      link.pending == ExpectedKey(req) && since <= log.dispatched
      && Answers(log, link.srspFrame, log.srspAt, req, since)
    case Releasing(req, since, outcome) =>
      link.pending == ExpectedKey(req)
      && (outcome.Response? ==> Answers(log, outcome.frame, outcome.at, req, since))
    case Returned(req, since, outcome) =>
      outcome.Response? ==> Answers(log, outcome.frame, outcome.at, req, since)
    case _ => true
  }

  ghost predicate TasksInv(w: World) {
    forall t: TaskId :: TaskInv(w.link, w.log, w.PcOf(t))
  }

  /** The raw queue and the dispatcher's hand hold the posted frames that are not dispatched yet. */
  predicate PipeInv(link: Link, log: Log) {
    var taken := log.dispatched + (if link.dispatcher.Holding? then 1 else 0);
    && taken <= |log.posted|
    && link.rawQueue == log.posted[taken..]
    && (link.dispatcher.Holding? ==> log.posted[log.dispatched] == link.dispatcher.frame)
    && (link.dispatcher.Announced? ==> IsResetInd(link.dispatcher.frame))
  }

  ghost predicate Inv(w: World) {
    MutexInv(w) && PipeInv(w.link, w.log) && TasksInv(w) && GivenInv(w)
  }

  /** All positions in `given` are below `bound`. */
  ghost predicate Below(given: seq<nat>, bound: nat) {
    forall i :: 0 <= i < |given| ==> given[i] < bound
  }

  ghost predicate Increasing(given: seq<nat>) {
    forall i, j :: 0 <= i < j < |given| ==> given[i] < given[j]
  }

  /** Responses are copied out in the order in which they were posted, each at most once, and a
      request that is under way can only get one behind all of them. */
  ghost predicate GivenInv(w: World) {
    && Increasing(w.log.given)
    && Below(w.log.given, w.log.dispatched)
    && (forall t: TaskId :: GivenBefore(w.log.given, w.PcOf(t)))
  }

  ghost predicate GivenBefore(given: seq<nat>, pc: Pc) {
    (pc.Writing? || pc.Waiting? || pc.Copying?) ==> Below(given, pc.since)
  }

  lemma {:induction false} GivenStep(w: World, a: Action)
    requires Inv(w) && Enabled(w, a)
    ensures GivenInv(Next(w, a))
  {
    var w' := Next(w, a);
    LogGrows(w, a);
    if a.Advance? && w.PcOf(a.t).Copying? {
      assert TaskInv(w.link, w.log, w.PcOf(a.t)) && GivenBefore(w.log.given, w.PcOf(a.t));
      forall t: TaskId ensures GivenBefore(w'.log.given, w'.PcOf(t)) {
        if t != a.t {
          assert w'.PcOf(t) == w.PcOf(t);
          assert Critical(w.PcOf(a.t)) && !Critical(w.PcOf(t));
        }
      }
    } else {
      GivenUntouched(w, a);
      forall t: TaskId ensures GivenBefore(w'.log.given, w'.PcOf(t)) {
        assert GivenBefore(w.log.given, w.PcOf(t));
        if ByTask(a) && a.t == t {
          GivenActor(w, a);
        } else {
          assert w'.PcOf(t) == w.PcOf(t);
        }
      }
    }
  }

  lemma {:induction false} GivenUntouched(w: World, a: Action)
    requires Enabled(w, a) && !(a.Advance? && w.PcOf(a.t).Copying?)
    ensures Next(w, a).log.given == w.log.given
  {
  }

  lemma {:induction false} GivenActor(w: World, a: Action)
    requires Enabled(w, a) && ByTask(a) && !(a.Advance? && w.PcOf(a.t).Copying?)
    requires GivenBefore(w.log.given, w.PcOf(a.t)) && Below(w.log.given, w.log.dispatched)
    ensures GivenBefore(w.log.given, Next(w, a).PcOf(a.t))
  {
  }

  lemma {:induction false} BytePipe(w: World, b: byte)
    requires PipeInv(w.link, w.log)
    ensures PipeInv(ByteStep(w, b).link, ByteStep(w, b).log)
  {
    var events := Step(w.link.rx, b).1;
    var taken := w.log.dispatched + (if w.link.dispatcher.Holding? then 1 else 0);
    if events != [] && events[0].FrameReceived? {
      var f := events[0].frame;
      assert (w.log.posted + [f])[taken..] == w.log.posted[taken..] + [f];
    }
  }

  lemma {:induction false} TakePipe(w: World)
    requires PipeInv(w.link, w.log) && Enabled(w, Take)
    ensures PipeInv(Next(w, Take).link, Next(w, Take).log)
  {
    assert w.log.posted[w.log.dispatched..][1..] == w.log.posted[w.log.dispatched + 1..];
  }

  lemma {:induction false} ProcessPipe(w: World)
    requires PipeInv(w.link, w.log) && w.link.dispatcher.Holding?
    ensures PipeInv(ProcessStep(w).link, ProcessStep(w).log)
  {
  }

  lemma {:induction false} PipeUntouched(w: World, a: Action)
    requires Enabled(w, a) && !(a.Byte? || a.Take? || a.Process? || a.Post?)
    ensures Next(w, a).link.rawQueue == w.link.rawQueue
    ensures Next(w, a).link.dispatcher == w.link.dispatcher
    ensures Next(w, a).log.posted == w.log.posted && Next(w, a).log.dispatched == w.log.dispatched
  {
  }

  lemma {:induction false} PipeStep(w: World, a: Action)
    requires PipeInv(w.link, w.log) && Enabled(w, a)
    ensures PipeInv(Next(w, a).link, Next(w, a).log)
  {
    match a {
      case Byte(b) => BytePipe(w, b);
      case Take => TakePipe(w);
      case Process => ProcessPipe(w);
      case Post =>
      case _ => PipeUntouched(w, a);
    }
  }

  lemma {:induction false} MutexStep(w: World, a: Action)
    requires MutexInv(w) && Enabled(w, a)
    ensures MutexInv(Next(w, a))
  {
  }

  predicate ByTask(a: Action) {
    a.Advance? || a.TimeOut? || a.Call? || a.CallReset? || a.Forget?
  }

  /** The history only grows. */
  ghost predicate Grows(before: Log, after: Log) {
    before.posted <= after.posted && before.dispatched <= after.dispatched
  }

  lemma {:induction false} LogGrows(w: World, a: Action)
    requires PipeInv(w.link, w.log) && Enabled(w, a)
    ensures Grows(w.log, Next(w, a).log)
    ensures !a.Process? ==> Next(w, a).log.srspAt == w.log.srspAt
  {
  }

  lemma {:induction false} TaskFrame(l: Link, log: Log, l': Link, log': Log, pc: Pc)
    requires TaskInv(l, log, pc) && Grows(log, log')
    requires Critical(pc) ==>
               && l'.pending == l.pending && l'.srspFrame == l.srspFrame
               && log'.srspAt == log.srspAt && (l'.srspSem ==> l.srspSem)
    ensures TaskInv(l', log', pc)
  {
  }

  /** Only the holder of the request mutex and the dispatcher's match touch the response cells. */
  lemma {:induction false} CellsUntouched(w: World, a: Action)
    requires Enabled(w, a) && !a.Process?
    requires ByTask(a) ==> !Critical(w.PcOf(a.t))
    ensures Next(w, a).link.pending == w.link.pending
    ensures Next(w, a).link.srspFrame == w.link.srspFrame
    ensures Next(w, a).link.srspSem == w.link.srspSem
  {
  }

  /** Dispatching a frame: a match answers the request that is pending. */
  lemma {:induction false} TaskProcess(w: World, pc: Pc)
    requires PipeInv(w.link, w.log) && w.link.dispatcher.Holding? && TaskInv(w.link, w.log, pc)
    ensures TaskInv(ProcessStep(w).link, ProcessStep(w).log, pc)
  {
    var f := w.link.dispatcher.frame;
    LogGrows(w, Process);
    if !(FrameType(f.cmdType) == SRSP && KeyOf(f) == w.link.pending) {
      TaskFrame(w.link, w.log, ProcessStep(w).link, ProcessStep(w).log, pc);
    }
  }

  /** A step of another part of the system keeps what a task relies on. */
  lemma {:induction false} TaskUndisturbed(w: World, a: Action, t: TaskId)
    requires Inv(w) && Enabled(w, a)
    requires ByTask(a) ==> a.t != t
    ensures TaskInv(Next(w, a).link, Next(w, a).log, w.PcOf(t))
  {
    assert TaskInv(w.link, w.log, w.PcOf(t));
    if a.Process? {
      TaskProcess(w, w.PcOf(t));
    } else {
      LogGrows(w, a);
      if ByTask(a) && Critical(w.PcOf(a.t)) {
        assert !Critical(w.PcOf(t));
      } else {
        CellsUntouched(w, a);
      }
      TaskFrame(w.link, w.log, Next(w, a).link, Next(w, a).log, w.PcOf(t));
    }
  }

  lemma {:induction false} TaskStep(w: World, a: Action)
    requires Inv(w) && Enabled(w, a)
    requires ByTask(a)
    ensures TaskInv(Next(w, a).link, Next(w, a).log, Next(w, a).PcOf(a.t))
  {
  }

  lemma {:induction false} InvStep(w: World, a: Action)
    requires Inv(w) && Enabled(w, a)
    ensures Inv(Next(w, a))
  {
    PipeStep(w, a);
    MutexStep(w, a);
    GivenStep(w, a);
    forall t: TaskId ensures TaskInv(Next(w, a).link, Next(w, a).log, Next(w, a).PcOf(t)) {
      if ByTask(a) && a.t == t {
        TaskStep(w, a);
      } else {
        TaskUndisturbed(w, a, t);
      }
    }
  }

  lemma {:induction false} InvRun(w: World, run: seq<Action>)
    requires Inv(w) && Possible(w, run)
    ensures Inv(Exec(w, run))
    decreases |run|
  {
    if run != [] {
      InvStep(w, run[0]);
      InvRun(Next(w, run[0]), run[1..]);
    }
  }

  lemma {:induction false} InitInv(w: World)
    requires Init(w)
    ensures Inv(w)
  {
  }

  /** In every run, whoever gets a response gets one with the response type of its own request's
      subsystem and the same command id, and that frame was dispatched after the request had
      cleared the stale token. So a response that came too late for an earlier request and was
      dispatched before the clear, or has another key, is never returned. */
  lemma {:induction false} ResponseMatchesRequest(w: World, run: seq<Action>, t: TaskId)
    requires Init(w) && Possible(w, run)
    requires Exec(w, run).PcOf(t).Returned? && Exec(w, run).PcOf(t).outcome.Response?
    ensures var w', pc := Exec(w, run), Exec(w, run).PcOf(t);
            && pc.outcome.frame.cmdType == pc.req.cmdType % 32 + 0x60
            && pc.outcome.frame.cmdId == pc.req.cmdId
            && pc.since <= pc.outcome.at < |w'.log.posted|
            && w'.log.posted[pc.outcome.at] == pc.outcome.frame
  {
    InitInv(w);
    InvRun(w, run);
    assert TaskInv(Exec(w, run).link, Exec(w, run).log, Exec(w, run).PcOf(t));
  }

  /** From the clear of the stale token until the mutex is given back, the pending cells hold
      the key of the request whose task owns the mutex, and no other task is in between. */
  lemma {:induction false} PendingStable(w: World, run: seq<Action>, t: TaskId)
    requires Init(w) && Possible(w, run)
    requires var pc := Exec(w, run).PcOf(t);
             pc.Writing? || pc.Waiting? || pc.Copying? || pc.Releasing?
    ensures Exec(w, run).link.pending == ExpectedKey(Exec(w, run).PcOf(t).req)
    ensures forall u: TaskId :: u != t ==> !Critical(Exec(w, run).PcOf(u))
  {
    InitInv(w);
    InvRun(w, run);
    assert TaskInv(Exec(w, run).link, Exec(w, run).log, Exec(w, run).PcOf(t));
  }

  /** No response is handed out twice, and responses are handed out in the order of arrival. */
  lemma {:induction false} ResponsesGivenOnce(w: World, run: seq<Action>)
    requires Init(w) && Possible(w, run)
    ensures Increasing(Exec(w, run).log.given)
    ensures forall i :: 0 <= i < |Exec(w, run).log.given| ==>
              Exec(w, run).log.given[i] < |Exec(w, run).log.posted|
  {
    InitInv(w);
    InvRun(w, run);
  }

  /** The limit of the correlation: whoever waits takes any frame with the expected key that is
      dispatched now, even one that was on its way before the request was written. */
  lemma {:induction false} MatchIsTaken(w: World, t: TaskId, req: Frame, since: nat)
    requires Inv(w) && w.PcOf(t) == Waiting(req, since)
    requires w.link.dispatcher.Holding? && KeyOf(w.link.dispatcher.frame) == ExpectedKey(req)
    ensures Possible(w, [Process, Advance(t), Advance(t)])
    ensures Exec(w, [Process, Advance(t), Advance(t)]).PcOf(t)
            == Releasing(req, since, Response(w.link.dispatcher.frame, w.log.dispatched))
  {
    assert TaskInv(w.link, w.log, w.PcOf(t));
    ExpectedIsSrsp(req);
    var run := [Process, Advance(t), Advance(t)];
    assert run[1..] == [Advance(t), Advance(t)] && run[1..][1..] == [Advance(t)] && run[1..][1..][1..] == [];
    var w1 := Next(w, Process);
    assert w1.PcOf(t) == Waiting(req, since) && w1.link.srspSem;
    var w2 := Next(w1, Advance(t));
    assert w2.PcOf(t) == Copying(req, since);
    assert Possible(w2, run[1..][1..]);
    assert Possible(w1, run[1..]);
    assert Exec(w, run) == Exec(w1, run[1..]) == Exec(w2, run[1..][1..]) == Next(w2, Advance(t));
  }

  lemma {:induction false} ExpectedIsSrsp(req: Frame)
    ensures FrameType(ExpectedKey(req).cmdType) == SRSP
  {
  }
}
