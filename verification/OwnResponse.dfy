/** When the response that a request gets is its own: the tasks together with a coprocessor that answers
    requests in the order in which they were written, each at most once, some perhaps never. */
module OwnResponse {
  import opened Bits
  import opened Wrappers
  import opened MtFrame
  import opened RxMachine
  import opened ZnpLink
  import opened Correlator
  import opened LateResponse
  import opened FreshResponse

  /** `asked` are the requests written so far; those before `next` are answered or passed over. `from` says of
      each posted frame which request it answers. */
  datatype Dialog = Dialog(w: World, asked: seq<Frame>, next: nat, from: seq<Option<nat>>)

  /** An action; if it completes a response, that is the answer to request `n`. */
  datatype Move = Move(a: Action, n: nat)

  predicate IsSrsp(f: Frame) {
    FrameType(f.cmdType) == SRSP
  }

  function Completed(w: World, a: Action): Option<Frame> {
    if !a.Byte? then None
    else
      var events := Step(w.link.rx, a.b).1;
      if events != [] && events[0].FrameReceived? then Some(events[0].frame) else None
  }

  predicate Answering(d: Dialog, a: Action) {
    Completed(d.w, a).Some? && IsSrsp(Completed(d.w, a).value)
  }

  predicate CanMove(d: Dialog, m: Move) {
    && Enabled(d.w, m.a)
    && (Answering(d, m.a) ==>
          d.next <= m.n < |d.asked| && KeyOf(Completed(d.w, m.a).value) == ExpectedKey(d.asked[m.n]))
  }

  predicate Writes(w: World, a: Action) {
    a.Advance? && w.PcOf(a.t).Writing?
  }

  function MakeMove(d: Dialog, m: Move): Dialog
    requires CanMove(d, m)
  {
    var w := Next(d.w, m.a);
    Dialog(w,
           if Writes(d.w, m.a) then d.asked + [d.w.PcOf(m.a.t).req] else d.asked,
           if Answering(d, m.a) then m.n + 1 else d.next,
           if |w.log.posted| > |d.w.log.posted| then d.from + [if Answering(d, m.a) then Some(m.n) else None]
           else d.from)
  }

  ghost predicate CanPlay(d: Dialog, run: seq<Move>)
    decreases |run|
  {
    run == [] || (CanMove(d, run[0]) && CanPlay(MakeMove(d, run[0]), run[1..]))
  }

  function Play(d: Dialog, run: seq<Move>): Dialog
    requires CanPlay(d, run)
    decreases |run|
  {
    if run == [] then d else Play(MakeMove(d, run[0]), run[1..])
  }

  /** Every response posted answers a request made before, with the key that belongs to it. */
  ghost predicate DialogInv(d: Dialog) {
    && Inv(d.w) && |d.from| == |d.w.log.posted| && d.next <= |d.asked|
    && (forall k :: 0 <= k < |d.from| && d.from[k].Some? ==>
          d.from[k].value < d.next && KeyOf(d.w.log.posted[k]) == ExpectedKey(d.asked[d.from[k].value]))
    && (forall k :: 0 <= k < |d.from| && IsSrsp(d.w.log.posted[k]) ==> d.from[k].Some?)
  }

  /** What is posted in a step. */
  lemma {:induction false} PostedStep(w: World, a: Action)
    requires Enabled(w, a)
    ensures var posted := Next(w, a).log.posted;
            posted == w.log.posted || (Completed(w, a).Some? && posted == w.log.posted + [Completed(w, a).value])
  {
  }

  lemma {:induction false} DialogStep(d: Dialog, m: Move)
    requires DialogInv(d) && CanMove(d, m)
    ensures DialogInv(MakeMove(d, m))
  {
    InvStep(d.w, m.a);
    PostedStep(d.w, m.a);
  }

  // ---------- Nobody else's answer ----------

  /** A request with the key has been written and its answer has not come yet. */
  ghost predicate Outstanding(d: Dialog, key: Key) {
    exists n :: d.next <= n < |d.asked| && ExpectedKey(d.asked[n]) == key
  }

  /** No move gives up the result of the task. */
  predicate KeepsResult(run: seq<Move>, t: TaskId) {
    forall m :: m in run ==> m.a != Forget(t)
  }

  /** The request that the posted frame `at` answers. */
  function Source(d: Dialog, at: nat): Option<nat> {
    if at < |d.from| then d.from[at] else None
  }

  /** The task ends with a response that is not the answer to the request it is about to write. */
  ghost predicate EndsWithForeign(d: Dialog, run: seq<Move>, t: TaskId) {
    && CanPlay(d, run) && KeepsResult(run, t)
    && Play(d, run).w.PcOf(t).Returned? && Play(d, run).w.PcOf(t).outcome.Response?
    && Source(Play(d, run), Play(d, run).w.PcOf(t).outcome.at) != Some(|d.asked|)
  }

  /** `d'` comes after `d0`: histories only got longer, and new answers are to requests still open in `d0`. */
  ghost predicate Later(d0: Dialog, d: Dialog) {
    && d0.asked <= d.asked && d0.from <= d.from && d0.next <= d.next
    && Grows(d0.w.log, d.w.log)
    && (forall k :: |d0.from| <= k < |d.from| && d.from[k].Some? ==> d0.next <= d.from[k].value)
  }

  lemma {:induction false} LaterStep(d0: Dialog, d: Dialog, m: Move)
    requires DialogInv(d) && Later(d0, d) && CanMove(d, m)
    ensures Later(d0, MakeMove(d, m))
  {
    LogGrows(d.w, m.a);
    PostedStep(d.w, m.a);
  }

  /** How many requests have been written while the task works on number `q`, and which answers it can have got. */
  predicate Turn(d: Dialog, pc: Pc, q: nat) {
    && (pc.Clearing? || pc.Writing? ==> |d.asked| == q)
    && (pc.Waiting? || pc.Copying? ==> |d.asked| == q + 1)
    && ((pc.Releasing? || pc.Returned?) && pc.outcome.Response? ==>
          pc.outcome.at < |d.from| && (d.from[pc.outcome.at].Some? ==> d.from[pc.outcome.at].value <= q))
  }

  lemma {:induction false} TurnOfOther(d: Dialog, m: Move, t: TaskId, q: nat)
    requires DialogInv(d) && CanMove(d, m) && Turn(d, d.w.PcOf(t), q)
    requires Next(d.w, m.a).PcOf(t) == d.w.PcOf(t) && (Writes(d.w, m.a) ==> m.a.t != t)
    ensures Turn(MakeMove(d, m), d.w.PcOf(t), q)
  {
    if Writes(d.w, m.a) {
      assert Critical(d.w.PcOf(m.a.t));
      assert !Critical(d.w.PcOf(t));
    }
  }

  lemma {:induction false} TurnOfTask(d: Dialog, m: Move, t: TaskId, req: Frame, since: nat, q: nat)
    requires DialogInv(d) && CanMove(d, m) && Turn(d, d.w.PcOf(t), q) && WorksOn(d.w.PcOf(t), req, since)
    requires ByTask(m.a) && m.a.t == t && m.a != Forget(t)
    ensures Turn(MakeMove(d, m), Next(d.w, m.a).PcOf(t), q)
  {
    assert TaskInv(d.w.link, d.w.log, d.w.PcOf(t));
  }

  lemma {:induction false} TurnStep(d: Dialog, m: Move, t: TaskId, req: Frame, since: nat, q: nat)
    requires DialogInv(d) && CanMove(d, m) && Turn(d, d.w.PcOf(t), q) && WorksOn(d.w.PcOf(t), req, since)
    requires m.a != Forget(t)
    ensures Turn(MakeMove(d, m), Next(d.w, m.a).PcOf(t), q)
  {
    if ByTask(m.a) && m.a.t == t {
      TurnOfTask(d, m, t, req, since, q);
    } else {
      OthersUntouched(d.w, m.a, t);
      TurnOfOther(d, m, t, q);
    }
  }

  lemma {:induction false} OthersUntouched(w: World, a: Action, t: TaskId)
    requires Enabled(w, a) && !(ByTask(a) && a.t == t)
    ensures Next(w, a).PcOf(t) == w.PcOf(t)
  {
  }

  lemma {:induction false} TurnRun(d0: Dialog, d: Dialog, run: seq<Move>, t: TaskId, req: Frame, since: nat, q: nat)
    requires DialogInv(d) && Later(d0, d) && CanPlay(d, run) && KeepsResult(run, t)
    requires Turn(d, d.w.PcOf(t), q) && WorksOn(d.w.PcOf(t), req, since) && since <= d.w.log.dispatched
    ensures DialogInv(Play(d, run)) && Later(d0, Play(d, run))
    ensures Turn(Play(d, run), Play(d, run).w.PcOf(t), q) && WorksOn(Play(d, run).w.PcOf(t), req, since)
    decreases |run|
  {
    if run != [] {
      var m := run[0];
      assert m in run && forall x :: x in run[1..] ==> x in run;
      DialogStep(d, m);
      LaterStep(d0, d, m);
      TurnStep(d, m, t, req, since, q);
      WorksOnStep(d.w, m.a, t, req, since);
      LogGrows(d.w, m.a);
      TurnRun(d0, MakeMove(d, m), run[1..], t, req, since, q);
    }
  }

  lemma {:induction false} OwnAtEnd(d: Dialog, d': Dialog, t: TaskId, req: Frame)
    requires DialogInv(d) && DialogInv(d') && Later(d, d')
    requires var pc := d'.w.PcOf(t);
             && pc.Returned? && pc.outcome.Response?
             && Turn(d', pc, |d.asked|) && WorksOn(pc, req, d.w.log.dispatched)
    requires !UnderWay(d.w, ExpectedKey(req)) && !Outstanding(d, ExpectedKey(req))
    ensures Source(d', d'.w.PcOf(t).outcome.at) == Some(|d.asked|)
  {
    var pc := d'.w.PcOf(t);
    var at := pc.outcome.at;
    assert TaskInv(d'.w.link, d'.w.log, pc);
    NewFrame(d, d', at, ExpectedKey(req));
    ExpectedIsSrsp(req);
    assert IsSrsp(d'.w.log.posted[at]);
    NewRequest(d, d', d'.from[at].value, ExpectedKey(req));
  }

  lemma {:induction false} NewFrame(d: Dialog, d': Dialog, at: nat, key: Key)
    requires Later(d, d') && !UnderWay(d.w, key)
    requires d.w.log.dispatched <= at < |d'.w.log.posted| && KeyOf(d'.w.log.posted[at]) == key
    ensures at >= |d.w.log.posted|
  {
    assert d.w.log.posted <= d'.w.log.posted;
  }

  lemma {:induction false} NewRequest(d: Dialog, d': Dialog, n: nat, key: Key)
    requires Later(d, d') && !Outstanding(d, key)
    requires d.next <= n < |d'.asked| && ExpectedKey(d'.asked[n]) == key
    ensures n >= |d.asked|
  {
    assert d.asked <= d'.asked;
  }

  /** If no frame with the key is under way and no request with the key is unanswered when the task clears the
      stale token, then the response it gets, if any, is the answer to its own request. */
  lemma {:induction false} ResponseIsOwn(d: Dialog, run: seq<Move>, t: TaskId, req: Frame)
    requires DialogInv(d) && d.w.PcOf(t) == Clearing(req) && CanPlay(d, run) && KeepsResult(run, t)
    requires !UnderWay(d.w, ExpectedKey(req)) && !Outstanding(d, ExpectedKey(req))
    requires Play(d, run).w.PcOf(t).Returned? && Play(d, run).w.PcOf(t).outcome.Response?
    ensures Source(Play(d, run), Play(d, run).w.PcOf(t).outcome.at) == Some(|d.asked|)
  {
    assert Later(d, d);
    TurnRun(d, d, run, t, req, d.w.log.dispatched, |d.asked|);
    OwnAtEnd(d, Play(d, run), t, req);
  }

  // ---------- The converse ----------

  function Lifted(run: seq<Action>, n: nat): seq<Move> {
    if run == [] then [] else [Move(run[0], n)] + Lifted(run[1..], n)
  }

  /** `d'` differs from `d` in the tasks only, and perhaps in requests added. */
  predicate Follows(d: Dialog, d': Dialog, w': World) {
    d'.w == w' && d'.from == d.from && d'.next == d.next && d.asked <= d'.asked
  }

  lemma {:induction false} QuietMove(d: Dialog, a: Action, n: nat)
    requires Enabled(d.w, a) && !a.Byte?
    ensures CanMove(d, Move(a, n)) && Follows(d, MakeMove(d, Move(a, n)), Next(d.w, a))
  {
    PostedStep(d.w, a);
  }

  lemma {:induction false} QuietPlay(d: Dialog, run: seq<Action>, n: nat)
    requires Possible(d.w, run) && Quiet(run)
    ensures CanPlay(d, Lifted(run, n)) && Follows(d, Play(d, Lifted(run, n)), Exec(d.w, run))
    decreases |run|
  {
    if run != [] {
      assert run[0] in run && forall a :: a in run[1..] ==> a in run;
      QuietMove(d, run[0], n);
      QuietPlay(MakeMove(d, Move(run[0], n)), run[1..], n);
      assert Lifted(run, n)[1..] == Lifted(run[1..], n);
    }
  }

  lemma {:induction false} LiftedKeeps(run: seq<Action>, n: nat, t: TaskId)
    requires Keeps(run, t)
    ensures KeepsResult(Lifted(run, n), t)
  {
    if run != [] {
      assert run[0] in run && forall a :: a in run[1..] ==> a in run;
      LiftedKeeps(run[1..], n, t);
    }
  }

  lemma {:induction false} PlaysFollow(d: Dialog, a: seq<Move>, b: seq<Move>)
    requires CanPlay(d, a) && CanPlay(Play(d, a), b)
    ensures CanPlay(d, a + b) && Play(d, a + b) == Play(Play(d, a), b)
  {
    PlaySplit(d, a, b, a + b);
  }

  lemma {:induction false} PlaySplit(d: Dialog, a: seq<Move>, b: seq<Move>, all: seq<Move>)
    requires CanPlay(d, a) && CanPlay(Play(d, a), b) && all == a + b
    ensures CanPlay(d, all) && Play(d, all) == Play(Play(d, a), b)
    decreases |a|
  {
    if a == [] {
      assert all == b;
    } else {
      assert all[0] == a[0] && all[1..] == a[1..] + b;
      PlaySplit(MakeMove(d, a[0]), a[1..], b, all[1..]);
    }
  }

  lemma {:induction false} BothKeep(a: seq<Move>, b: seq<Move>, t: TaskId)
    requires KeepsResult(a, t) && KeepsResult(b, t)
    ensures KeepsResult(a + b, t)
  {
  }

  /** The bytes of one answer, which completes no other frame. */
  lemma {:induction false} BytesPlay(d: Dialog, stream: seq<byte>, n: nat, f: Frame)
    requires Run(d.w.link.rx, stream).1 == [FrameReceived(f)] && |d.w.link.rawQueue| < RAW_QUEUE_DEPTH
    requires IsSrsp(f) && d.next <= n < |d.asked| && KeyOf(f) == ExpectedKey(d.asked[n])
    ensures CanPlay(d, Lifted(Bytes(stream), n))
    ensures var d' := Play(d, Lifted(Bytes(stream), n));
            d'.from == d.from + [Some(n)] && d'.asked == d.asked && Possible(d.w, Bytes(stream))
            && d'.w == Exec(d.w, Bytes(stream))
    decreases |stream|
  {
    var b, rest := stream[0], stream[1..];
    var m := Move(Byte(b), n);
    var s := Step(d.w.link.rx, b);
    StepReportsAtMostOne(d.w.link.rx, b);
    assert Lifted(Bytes(stream), n)[1..] == Lifted(Bytes(rest), n) && Bytes(stream)[1..] == Bytes(rest);
    if s.1 == [] {
      assert [] + Run(s.0, rest).1 == Run(s.0, rest).1;
      SilentByte(d, b, n);
      BytesPlay(MakeMove(d, m), rest, n, f);
    } else {
      assert (s.1 + Run(s.0, rest).1)[0] == s.1[0] && |Run(s.0, rest).1| == 0;
      LastByte(d, b, n, f);
      SilentBytes(MakeMove(d, m), rest, n);
    }
  }

  lemma {:induction false} SilentByte(d: Dialog, b: byte, n: nat)
    requires Step(d.w.link.rx, b).1 == []
    ensures CanMove(d, Move(Byte(b), n))
    ensures var d' := MakeMove(d, Move(Byte(b), n));
            && d'.asked == d.asked && d'.next == d.next && d'.from == d.from && d'.w == Next(d.w, Byte(b))
            && d'.w.link.rx == Step(d.w.link.rx, b).0 && d'.w.link.rawQueue == d.w.link.rawQueue
  {
  }

  lemma {:induction false} LastByte(d: Dialog, b: byte, n: nat, f: Frame)
    requires Step(d.w.link.rx, b).1 == [FrameReceived(f)] && |d.w.link.rawQueue| < RAW_QUEUE_DEPTH
    requires IsSrsp(f) && d.next <= n < |d.asked| && KeyOf(f) == ExpectedKey(d.asked[n])
    ensures CanMove(d, Move(Byte(b), n))
    ensures var d' := MakeMove(d, Move(Byte(b), n));
            && d'.asked == d.asked && d'.from == d.from + [Some(n)] && d'.w == Next(d.w, Byte(b))
            && d'.w.link.rx == Step(d.w.link.rx, b).0
  {
  }

  lemma {:induction false} SilentBytes(d: Dialog, stream: seq<byte>, n: nat)
    requires Run(d.w.link.rx, stream).1 == []
    ensures CanPlay(d, Lifted(Bytes(stream), n))
    ensures var d' := Play(d, Lifted(Bytes(stream), n));
            d'.from == d.from && d'.asked == d.asked && Possible(d.w, Bytes(stream)) && d'.w == Exec(d.w, Bytes(stream))
    decreases |stream|
  {
    if stream != [] {
      var b, rest := stream[0], stream[1..];
      assert Step(d.w.link.rx, b).1 == [] && Run(Step(d.w.link.rx, b).0, rest).1 == [];
      assert Lifted(Bytes(stream), n)[1..] == Lifted(Bytes(rest), n) && Bytes(stream)[1..] == Bytes(rest);
      SilentByte(d, b, n);
      SilentBytes(MakeMove(d, Move(Byte(b), n)), rest, n);
    }
  }

  lemma {:induction false} BytesKeep(stream: seq<byte>, n: nat, t: TaskId)
    ensures KeepsResult(Lifted(Bytes(stream), n), t)
  {
    if stream != [] {
      BytesKeep(stream[1..], n, t);
      assert Lifted(Bytes(stream), n) == [Move(Byte(stream[0]), n)] + Lifted(Bytes(stream[1..]), n);
    }
  }

  /** The dispatch task works off everything, if nothing matches. */
  lemma {:induction false} DispatchAll(w: World, t: TaskId) returns (run: seq<Action>, w': World)
    requires PipeInv(w.link, w.log)
    requires forall i :: w.log.dispatched <= i < |w.log.posted| ==> KeyOf(w.log.posted[i]) != w.link.pending
    ensures Leads(w, run, w', t) && SameSide(w, w') && PipeInv(w'.link, w'.log)
    ensures w'.link.rawQueue == [] && w'.link.dispatcher == Receiving && w'.log.dispatched == |w.log.posted|
    decreases WorkUntil(w, |w.log.posted|)
  {
    if w.link.dispatcher.Receiving? && w.link.rawQueue == [] {
      run, w' := [], w;
    } else {
      var a := match w.link.dispatcher case Receiving => Take case Holding(_) => Process case Announced(_) => Post;
      var w1 := Next(w, a);
      DispatchStep(w, a);
      OneAction(w, a);
      var rest;
      rest, w' := DispatchAll(w1, t);
      LeadsOn(w, [a], w1, rest, w', t);
      run := [a] + rest;
    }
  }

  lemma {:induction false} AnswerUnderWay(d: Dialog, t: TaskId, req: Frame) returns (run: seq<Move>)
    requires DialogInv(d) && d.w.PcOf(t) == Clearing(req) && UnderWay(d.w, ExpectedKey(req))
    ensures EndsWithForeign(d, run, t)
  {
    var acts := OldComesBack(d.w, t, req);
    run := Lifted(acts, 0);
    QuietPlay(d, acts, 0);
    LiftedKeeps(acts, 0, t);
  }

  /** The task has written its request and the pipeline is empty. */
  lemma {:induction false} WriteAndDrain(d: Dialog, t: TaskId, req: Frame) returns (run: seq<Move>)
    requires DialogInv(d) && d.w.PcOf(t) == Clearing(req) && !UnderWay(d.w, ExpectedKey(req))
    ensures CanPlay(d, run) && KeepsResult(run, t)
    ensures var d' := Play(d, run);
            && Waits(d'.w, t, req, d.w.log.dispatched) && PipeInv(d'.w.link, d'.w.log)
            && d'.w.link.rawQueue == [] && d'.w.link.dispatcher == Receiving && d'.w.link.rx == d.w.link.rx
            && d'.w.log.dispatched == |d'.w.log.posted| == |d.w.log.posted|
            && d'.from == d.from && d'.next == d.next && d.asked <= d'.asked
  {
    ClearAndWrite(d.w, t, req);
    var w1 := d.w.(link := d.w.link.(srspSem := false)).Goto(t, Waiting(req, d.w.log.dispatched));
    var drain, w2 := DispatchAll(w1, t);
    LeadsOn(d.w, [Advance(t), Advance(t)], w1, drain, w2, t);
    var acts := [Advance(t), Advance(t)] + drain;
    run := Lifted(acts, 0);
    QuietPlay(d, acts, 0);
    LiftedKeeps(acts, 0, t);
  }

  /** The answer to request `n` comes while the task waits and nothing else is under way. */
  lemma {:induction false} AnswerComes(d: Dialog, t: TaskId, req: Frame, since: nat, n: nat) returns (run: seq<Move>)
    requires Waits(d.w, t, req, since) && PipeInv(d.w.link, d.w.log) && |d.from| == |d.w.log.posted|
    requires d.w.link.rawQueue == [] && d.w.link.dispatcher == Receiving && d.w.log.dispatched == |d.w.log.posted|
    requires d.w.link.rx.Valid() && d.w.link.rx.phase == HuntSof
    requires d.next <= n < |d.asked| && ExpectedKey(d.asked[n]) == ExpectedKey(req)
    ensures CanPlay(d, run) && KeepsResult(run, t)
    ensures var d', pc := Play(d, run), Play(d, run).w.PcOf(t);
            && pc.Returned? && pc.outcome.Response? && Source(d', pc.outcome.at) == Some(n)
  {
    var key := ExpectedKey(req);
    var f := Frame(0, key.cmdType, key.cmdId, []);
    var first := Lifted(Bytes(Encode(f)), n);
    ExpectedIsSrsp(req);
    RunEncoded(d.w.link.rx, f);
    BytesPlay(d, Encode(f), n, f);
    BytesKeep(Encode(f), n, t);
    FrameHeard(d.w, f);
    var d1 := Play(d, first);
    AnswerReturns(d1.w, t, req, since, f);
    AnsweredQuiet(t);
    QuietPlay(d1, Answered(t), n);
    LiftedKeeps(Answered(t), n, t);
    PlaysFollow(d, first, Lifted(Answered(t), n));
    BothKeep(first, Lifted(Answered(t), n), t);
    run := first + Lifted(Answered(t), n);
  }

  lemma {:induction false} AnswerOutstanding(d: Dialog, t: TaskId, req: Frame) returns (run: seq<Move>)
    requires DialogInv(d) && d.w.PcOf(t) == Clearing(req)
    requires d.w.link.rx.Valid() && d.w.link.rx.phase == HuntSof
    requires !UnderWay(d.w, ExpectedKey(req)) && Outstanding(d, ExpectedKey(req))
    ensures EndsWithForeign(d, run, t)
  {
    var n :| d.next <= n < |d.asked| && ExpectedKey(d.asked[n]) == ExpectedKey(req);
    var first := WriteAndDrain(d, t, req);
    var d1 := Play(d, first);
    assert d1.asked[n] == d.asked[n];
    var second := AnswerComes(d1, t, req, d.w.log.dispatched, n);
    PlaysFollow(d, first, second);
    BothKeep(first, second, t);
    run := first + second;
  }

  lemma {:induction false} AnsweredQuiet(t: TaskId)
    ensures Quiet(Answered(t)) && Keeps(Answered(t), t)
  {
  }

  /** While the receiver hunts: a task that is about to clear the stale token can get the answer to somebody
      else's request exactly when a frame with its key is under way at that moment or a request with
      that key is still unanswered. */
  lemma {:induction false} ForeignResponseIff(d: Dialog, t: TaskId, req: Frame)
    requires DialogInv(d) && d.w.PcOf(t) == Clearing(req)
    requires d.w.link.rx.Valid() && d.w.link.rx.phase == HuntSof
    ensures (exists run :: EndsWithForeign(d, run, t))
            <==> UnderWay(d.w, ExpectedKey(req)) || Outstanding(d, ExpectedKey(req))
  {
    if UnderWay(d.w, ExpectedKey(req)) {
      var run := AnswerUnderWay(d, t, req);
    } else if Outstanding(d, ExpectedKey(req)) {
      var run := AnswerOutstanding(d, t, req);
    } else if exists run :: EndsWithForeign(d, run, t) {
      var run :| EndsWithForeign(d, run, t);
      ResponseIsOwn(d, run, t, req);
    }
  }

  lemma {:induction false} StartDialogInv(w: World)
    requires Init(w)
    ensures DialogInv(Dialog(w, [], 0, []))
  {
    InitInv(w);
  }

  lemma {:induction false} DialogRun(d: Dialog, run: seq<Move>)
    requires DialogInv(d) && CanPlay(d, run)
    ensures DialogInv(Play(d, run))
    decreases |run|
  {
    if run != [] {
      DialogStep(d, run[0]);
      DialogRun(MakeMove(d, run[0]), run[1..]);
    }
  }
}
