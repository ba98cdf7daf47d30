/** The limit of the correlation, shown on a run from the very start: a response that comes after its
    request has timed out is handed to the next request with the same key. */
module LateResponse {
  import opened Bits
  import opened Wrappers
  import opened MtFrame
  import opened RxMachine
  import opened ZnpLink
  import opened Correlator

  lemma {:induction false} RunsCompose(w: World, a: seq<Action>, b: seq<Action>)
    requires Possible(w, a) && Possible(Exec(w, a), b)
    ensures Possible(w, a + b) && Exec(w, a + b) == Exec(Exec(w, a), b)
    decreases |a|
  {
    if a == [] {
      assert a + b == b;
    } else {
      assert (a + b)[0] == a[0] && (a + b)[1..] == a[1..] + b;
      RunsCompose(Next(w, a[0]), a[1..], b);
    }
  }

  lemma {:induction false} OneAction(w: World, a: Action)
    requires Enabled(w, a)
    ensures Possible(w, [a]) && Exec(w, [a]) == Next(w, a)
  {
    assert [a][1..] == [];
  }

  lemma {:induction false} AddAction(w: World, run: seq<Action>, a: Action)
    requires Possible(w, run) && Enabled(Exec(w, run), a)
    ensures Possible(w, run + [a]) && Exec(w, run + [a]) == Next(Exec(w, run), a)
  {
    OneAction(Exec(w, run), a);
    RunsCompose(w, run, [a]);
  }

  // ---------- Bytes from the wire ----------

  function Bytes(stream: seq<byte>): seq<Action> {
    if stream == [] then [] else [Byte(stream[0])] + Bytes(stream[1..])
  }

  /** `w` after the RX task has read `stream` and posted `frames`. */
  function Heard(w: World, stream: seq<byte>, rx: Rx, frames: seq<Frame>): World {
    w.(link := w.link.(rx := rx, rawQueue := w.link.rawQueue + frames),
       log := w.log.(bytes := w.log.bytes + stream, posted := w.log.posted + frames))
  }

  lemma {:induction false} OneByte(w: World, b: byte)
    requires FcsErrors(Step(w.link.rx, b).1) == 0
    requires |w.link.rawQueue| + |Frames(Step(w.link.rx, b).1)| <= RAW_QUEUE_DEPTH
    ensures Next(w, Byte(b)) == Heard(w, [b], Step(w.link.rx, b).0, Frames(Step(w.link.rx, b).1))
  {
    StepReportsAtMostOne(w.link.rx, b);
    assert w.link.rawQueue + [] == w.link.rawQueue && w.log.posted + [] == w.log.posted;
  }

  lemma {:induction false} HeardTwice(w: World, a: seq<byte>, b: seq<byte>, rx: Rx, rx': Rx, f: seq<Frame>, g: seq<Frame>)
    ensures Heard(Heard(w, a, rx, f), b, rx', g) == Heard(w, a + b, rx', f + g)
  {
    assert w.log.bytes + a + b == w.log.bytes + (a + b);
    assert w.log.posted + f + g == w.log.posted + (f + g);
    assert w.link.rawQueue + f + g == w.link.rawQueue + (f + g);
  }

  /** A stream without rejected candidates whose frames fit the raw queue. */
  lemma {:induction false} BytesHeard(w: World, stream: seq<byte>)
    requires FcsErrors(Run(w.link.rx, stream).1) == 0
    requires |w.link.rawQueue| + |Frames(Run(w.link.rx, stream).1)| <= RAW_QUEUE_DEPTH
    ensures Possible(w, Bytes(stream))
    ensures Exec(w, Bytes(stream)) == Heard(w, stream, Run(w.link.rx, stream).0, Frames(Run(w.link.rx, stream).1))
    decreases |stream|
  {
    if stream == [] {
      assert w.link.rawQueue + [] == w.link.rawQueue && w.log.posted + [] == w.log.posted;
      assert w.log.bytes + [] == w.log.bytes;
    } else {
      var b, rest := stream[0], stream[1..];
      var s := Step(w.link.rx, b);
      FramesConcat(s.1, Run(s.0, rest).1);
      FcsErrorsConcat(s.1, Run(s.0, rest).1);
      OneByte(w, b);
      BytesHeard(Next(w, Byte(b)), rest);
      HeardTwice(w, [b], rest, s.0, Run(s.0, rest).0, Frames(s.1), Frames(Run(s.0, rest).1));
      assert [b] + rest == stream;
    }
  }

  /** The wire image of a frame puts that frame into the raw queue. */
  lemma {:induction false} FrameHeard(w: World, f: Frame)
    requires w.link.rx.Valid() && w.link.rx.phase == HuntSof && f.WellFormed()
    requires |w.link.rawQueue| < RAW_QUEUE_DEPTH
    ensures Possible(w, Bytes(Encode(f)))
    ensures Exec(w, Bytes(Encode(f))) == Heard(w, Encode(f), Run(w.link.rx, Encode(f)).0, [f])
  {
    RunEncoded(w.link.rx, f);
    assert Run(w.link.rx, Encode(f)).1 == [FrameReceived(f)] + [];
    FramesCons(FrameReceived(f), []);
    BytesHeard(w, Encode(f));
  }

  // ---------- A request up to the point where it waits ----------

  function Ask(t: TaskId, req: Frame): seq<Action> {
    [Call(t, req), Advance(t), Advance(t), Advance(t), Advance(t), Advance(t)]
  }

  /** `w` with task `t` waiting for the response to `req`. */
  function Asking(w: World, t: TaskId, req: Frame): World {
    w.(link := w.link.(pending := ExpectedKey(req), srspSem := false), owner := Some(t))
     .Goto(t, Waiting(req, w.log.dispatched))
  }

  /** Lock the mutex and record the pair. */
  lemma {:induction false} AskRecords(w: World, t: TaskId, req: Frame)
    requires w.owner.None? && w.PcOf(t).Idle? && req.WellFormed()
    ensures var run := [Call(t, req), Advance(t), Advance(t), Advance(t)];
            && Possible(w, run)
            && Exec(w, run) == w.(link := w.link.(pending := ExpectedKey(req)), owner := Some(t)).Goto(t, Clearing(req))
  {
    var a := Advance(t);
    OneAction(w, Call(t, req));
    AddAction(w, [Call(t, req)], a);
    AddAction(w, [Call(t, req)] + [a], a);
    AddAction(w, [Call(t, req)] + [a] + [a], a);
    assert [Call(t, req)] + [a] + [a] + [a] == [Call(t, req), a, a, a];
    assert w.tasks[t := Locking(req)][t := SettingType(req)][t := SettingId(req)][t := Clearing(req)]
        == w.tasks[t := Clearing(req)];
  }

  /** Clear the token and write to the wire. */
  lemma {:induction false} AskWrites(w: World, t: TaskId, req: Frame)
    requires w.PcOf(t) == Clearing(req)
    ensures Possible(w, [Advance(t), Advance(t)])
    ensures Exec(w, [Advance(t), Advance(t)])
            == w.(link := w.link.(srspSem := false)).Goto(t, Waiting(req, w.log.dispatched))
  {
    var a := Advance(t);
    OneAction(w, a);
    AddAction(w, [a], a);
    assert [a] + [a] == [a, a];
    assert w.tasks[t := Writing(req, w.log.dispatched)][t := Waiting(req, w.log.dispatched)]
        == w.tasks[t := Waiting(req, w.log.dispatched)];
  }

  lemma {:induction false} AskWaits(w: World, t: TaskId, req: Frame)
    requires w.owner.None? && w.PcOf(t).Idle? && req.WellFormed()
    ensures Possible(w, Ask(t, req)) && Exec(w, Ask(t, req)) == Asking(w, t, req)
  {
    var a := Advance(t);
    AskRecords(w, t, req);
    AskWrites(Exec(w, [Call(t, req), a, a, a]), t, req);
    RunsCompose(w, [Call(t, req), a, a, a], [a, a]);
    assert [Call(t, req), a, a, a] + [a, a] == Ask(t, req);
    assert w.tasks[t := Clearing(req)][t := Waiting(req, w.log.dispatched)] == w.tasks[t := Waiting(req, w.log.dispatched)];
  }

  function GiveUp(t: TaskId): seq<Action> {
    [TimeOut(t), Advance(t)]
  }

  lemma {:induction false} GiveUpReturns(w: World, t: TaskId, req: Frame, since: nat)
    requires w.PcOf(t) == Waiting(req, since) && !w.link.srspSem
    ensures Possible(w, GiveUp(t))
    ensures var w' := Exec(w, GiveUp(t));
            && w'.PcOf(t) == Returned(req, since, TimedOut) && w'.owner.None?
            && w'.tasks == w.tasks[t := Returned(req, since, TimedOut)]
            && w'.link == CountError(w.link)
            && w'.log == w.log.(tally := w'.log.tally)
  {
    OneAction(w, TimeOut(t));
    AddAction(w, [TimeOut(t)], Advance(t));
    assert [TimeOut(t)] + [Advance(t)] == GiveUp(t);
  }

  function Answered(t: TaskId): seq<Action> {
    [Take, Process, Advance(t), Advance(t), Advance(t)]
  }

  /** The frame at the head of the raw queue is dispatched and matches. */
  lemma {:induction false} AnswerMatches(w: World, f: Frame)
    requires w.link.dispatcher.Receiving? && w.link.rawQueue == [f] && KeyOf(f) == w.link.pending
    requires FrameType(f.cmdType) == SRSP
    ensures Possible(w, [Take, Process])
    ensures var w' := Exec(w, [Take, Process]);
            && w'.tasks == w.tasks && w'.owner == w.owner && w'.log.posted == w.log.posted
            && w'.link.srspSem && w'.link.srspFrame == f && w'.log.srspAt == w.log.dispatched
  {
    OneAction(w, Take);
    AddAction(w, [Take], Process);
    assert [Take] + [Process] == [Take, Process];
  }

  lemma {:induction false} AnswerCopied(w: World, t: TaskId, req: Frame, since: nat)
    requires w.PcOf(t) == Waiting(req, since) && w.link.srspSem
    ensures Possible(w, [Advance(t), Advance(t), Advance(t)])
    ensures var w' := Exec(w, [Advance(t), Advance(t), Advance(t)]);
            && w'.tasks == w.tasks[t := Returned(req, since, Response(w.link.srspFrame, w.log.srspAt))]
            && w'.log.posted == w.log.posted
  {
    var a := Advance(t);
    OneAction(w, a);
    AddAction(w, [a], a);
    AddAction(w, [a] + [a], a);
    assert [a] + [a] + [a] == [a, a, a];
  }

  lemma {:induction false} AnswerReturns(w: World, t: TaskId, req: Frame, since: nat, f: Frame)
    requires w.PcOf(t) == Waiting(req, since) && w.link.pending == ExpectedKey(req)
    requires w.link.dispatcher.Receiving? && w.link.rawQueue == [f] && KeyOf(f) == ExpectedKey(req)
    ensures Possible(w, Answered(t))
    ensures var w' := Exec(w, Answered(t));
            && w'.tasks == w.tasks[t := Returned(req, since, Response(f, w.log.dispatched))]
            && w'.log.posted == w.log.posted
  {
    ExpectedIsSrsp(req);
    AnswerMatches(w, f);
    AnswerCopied(Exec(w, [Take, Process]), t, req, since);
    RunsCompose(w, [Take, Process], [Advance(t), Advance(t), Advance(t)]);
    assert [Take, Process] + [Advance(t), Advance(t), Advance(t)] == Answered(t);
  }

  // ---------- The whole run ----------

  /** The first request times out and returns; only then its response arrives; then the second
      request is made, and the frame is dispatched. */
  function LateRun(t: TaskId, req: Frame, resp: Frame, u: TaskId, next: Frame): seq<Action> {
    Ask(t, req) + GiveUp(t) + Bytes(Encode(resp)) + Ask(u, next) + Answered(u)
  }

  /** For any two tasks and any two requests with the same key: the late response to the first one is
      returned to the second one, although it had arrived before that was made. */
  lemma {:induction false} LateResponseIsReturned(w: World, t: TaskId, req: Frame, resp: Frame, u: TaskId, next: Frame)
    requires Init(w) && t != u && req.WellFormed() && next.WellFormed() && resp.WellFormed()
    requires ExpectedKey(req) == ExpectedKey(next) == KeyOf(resp)
    ensures Possible(w, LateRun(t, req, resp, u, next))
    ensures var w' := Exec(w, LateRun(t, req, resp, u, next));
            && w'.PcOf(t) == Returned(req, 0, TimedOut)
            && w'.PcOf(u) == Returned(next, 0, Response(resp, 0))
  {
    AskWaits(w, t, req);
    var w1 := Asking(w, t, req);
    GiveUpReturns(w1, t, req, 0);
    RunsCompose(w, Ask(t, req), GiveUp(t));
    var w2 := Exec(w1, GiveUp(t));
    FrameHeard(w2, resp);
    RunsCompose(w, Ask(t, req) + GiveUp(t), Bytes(Encode(resp)));
    var w3 := Exec(w2, Bytes(Encode(resp)));
    assert w3.link.rawQueue == [resp];
    AskWaits(w3, u, next);
    RunsCompose(w, Ask(t, req) + GiveUp(t) + Bytes(Encode(resp)), Ask(u, next));
    var w4 := Asking(w3, u, next);
    AnswerReturns(w4, u, next, 0, resp);
    RunsCompose(w, Ask(t, req) + GiveUp(t) + Bytes(Encode(resp)) + Ask(u, next), Answered(u));
  }
}
