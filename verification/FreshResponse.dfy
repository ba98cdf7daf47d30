/** When the response that a request gets can be one that was there before the request was made. */
module FreshResponse {
  import opened Bits
  import opened Wrappers
  import opened MtFrame
  import opened RxMachine
  import opened ZnpLink
  import opened Correlator
  import opened LateResponse

  /** The task does not give up its result during the run. */
  predicate Keeps(run: seq<Action>, t: TaskId) {
    Forget(t) !in run
  }

  /** The task works on `req`, which it has not written before the first `since` frames were dispatched. */
  predicate WorksOn(pc: Pc, req: Frame, since: nat) {
    || pc == Clearing(req)
    || ((pc.Writing? || pc.Waiting? || pc.Copying? || pc.Releasing? || pc.Returned?) && pc.req == req && since <= pc.since)
  }

  lemma {:induction false} WorksOnStep(w: World, a: Action, t: TaskId, req: Frame, since: nat)
    requires Enabled(w, a) && a != Forget(t) && since <= w.log.dispatched
    requires WorksOn(w.PcOf(t), req, since)
    ensures WorksOn(Next(w, a).PcOf(t), req, since)
  {
  }

  lemma {:induction false} WorksOnRun(w: World, run: seq<Action>, t: TaskId, req: Frame, since: nat)
    requires Inv(w) && Possible(w, run) && Keeps(run, t)
    requires since <= w.log.dispatched && WorksOn(w.PcOf(t), req, since)
    ensures WorksOn(Exec(w, run).PcOf(t), req, since)
    ensures Inv(Exec(w, run)) && Grows(w.log, Exec(w, run).log)
    decreases |run|
  {
    if run != [] {
      assert run[0] in run && forall a :: a in run[1..] ==> a in run;
      InvStep(w, run[0]);
      LogGrows(w, run[0]);
      WorksOnStep(w, run[0], t, req, since);
      WorksOnRun(Next(w, run[0]), run[1..], t, req, since);
    }
  }

  /** A frame with the key has been posted and is not dispatched yet: it is in the raw queue or in the
      dispatcher's hand. */
  ghost predicate UnderWay(w: World, key: Key) {
    exists k :: w.log.dispatched <= k < |w.log.posted| && KeyOf(w.log.posted[k]) == key
  }

  /** The task ends with a response that was posted before the run began. */
  ghost predicate EndsWithOld(w: World, run: seq<Action>, t: TaskId) {
    && Possible(w, run) && Keeps(run, t)
    && Exec(w, run).PcOf(t).Returned? && Exec(w, run).PcOf(t).outcome.Response?
    && Exec(w, run).PcOf(t).outcome.at < |w.log.posted|
  }

  lemma {:induction false} OldWasUnderWay(w: World, run: seq<Action>, t: TaskId, req: Frame)
    requires Inv(w) && w.PcOf(t) == Clearing(req) && EndsWithOld(w, run, t)
    ensures UnderWay(w, ExpectedKey(req))
  {
    WorksOnRun(w, run, t, req, w.log.dispatched);
    var w', pc := Exec(w, run), Exec(w, run).PcOf(t);
    assert TaskInv(w'.link, w'.log, pc);
    assert w.log.posted[pc.outcome.at] == w'.log.posted[pc.outcome.at];
  }

  // ---------- The converse: the first match under way is what comes back ----------

  /** Nothing is received during the run. */
  predicate Quiet(run: seq<Action>) {
    forall a :: a in run ==> !a.Byte?
  }

  /** A quiet run to `w'` in which the task keeps its result. */
  ghost predicate Leads(w: World, run: seq<Action>, w': World, t: TaskId) {
    Possible(w, run) && Exec(w, run) == w' && Keeps(run, t) && Quiet(run)
  }

  lemma {:induction false} LeadsOn(w: World, a: seq<Action>, w1: World, b: seq<Action>, w2: World, t: TaskId)
    requires Leads(w, a, w1, t) && Leads(w1, b, w2, t)
    ensures Leads(w, a + b, w2, t)
  {
    RunsCompose(w, a, b);
  }

  /** `t` waits for the answer to `req` and the token is clear. */
  predicate Waits(w: World, t: TaskId, req: Frame, since: nat) {
    w.PcOf(t) == Waiting(req, since) && !w.link.srspSem && w.link.pending == ExpectedKey(req)
  }

  /** What draining the pipeline leaves alone. */
  predicate SameSide(w: World, w': World) {
    && w'.tasks == w.tasks && w'.owner == w.owner && w'.link.pending == w.link.pending
    && w'.link.rx == w.link.rx && w'.log.posted == w.log.posted && w'.link.srspSem == w.link.srspSem
  }

  /** One step of the dispatch task that matches nothing. */
  lemma {:induction false} DispatchStep(w: World, a: Action)
    requires PipeInv(w.link, w.log) && a in {Take, Process, Post} && Enabled(w, a)
    requires a.Process? ==> KeyOf(w.link.dispatcher.frame) != w.link.pending
    ensures SameSide(w, Next(w, a)) && PipeInv(Next(w, a).link, Next(w, a).log)
    ensures Next(w, a).log.dispatched == w.log.dispatched + (if a.Process? then 1 else 0)
    ensures a.Take? ==> Next(w, a).link.dispatcher == Holding(w.log.posted[w.log.dispatched])
    ensures a.Post? ==> Next(w, a).link.dispatcher == Receiving
    ensures a.Process? ==> !Next(w, a).link.dispatcher.Holding?
  {
    PipeStep(w, a);
  }

  /** Work left for the dispatch task until frame `k` is in its hand. */
  function WorkUntil(w: World, k: nat): int {
    3 * (k - w.log.dispatched)
    + (match w.link.dispatcher case Receiving => 1 case Holding(_) => 0 case Announced(_) => 2)
  }

  /** The dispatch task gets frame `k` into its hand, if no frame before it matches. */
  lemma {:induction false} DispatchUntil(w: World, k: nat, t: TaskId) returns (run: seq<Action>, w': World)
    requires PipeInv(w.link, w.log) && w.log.dispatched <= k < |w.log.posted|
    requires forall i :: w.log.dispatched <= i < k ==> KeyOf(w.log.posted[i]) != w.link.pending
    ensures Leads(w, run, w', t) && SameSide(w, w') && PipeInv(w'.link, w'.log)
    ensures w'.log.dispatched == k && w'.link.dispatcher == Holding(w.log.posted[k])
    decreases WorkUntil(w, k)
  {
    if w.link.dispatcher.Holding? && w.log.dispatched == k {
      run, w' := [], w;
    } else {
      var a := match w.link.dispatcher case Receiving => Take case Holding(_) => Process case Announced(_) => Post;
      var w1 := Next(w, a);
      DispatchStep(w, a);
      OneAction(w, a);
      var rest;
      rest, w' := DispatchUntil(w1, k, t);
      LeadsOn(w, [a], w1, rest, w', t);
      run := [a] + rest;
    }
  }

  /** From the clear of the token to the wait for the response. */
  lemma {:induction false} ClearAndWrite(w: World, t: TaskId, req: Frame)
    requires Inv(w) && w.PcOf(t) == Clearing(req)
    ensures Leads(w, [Advance(t), Advance(t)],
                  w.(link := w.link.(srspSem := false)).Goto(t, Waiting(req, w.log.dispatched)), t)
    ensures w.link.pending == ExpectedKey(req)
  {
    AskWrites(w, t, req);
    assert TaskInv(w.link, w.log, w.PcOf(t));
  }

  /** The frame in the dispatcher's hand matches, and the waiting task returns it. */
  lemma {:induction false} TakeMatch(w: World, t: TaskId, req: Frame, since: nat) returns (w': World)
    requires Waits(w, t, req, since)
    requires w.link.dispatcher.Holding? && KeyOf(w.link.dispatcher.frame) == ExpectedKey(req)
    ensures Leads(w, [Process, Advance(t), Advance(t), Advance(t)], w', t)
    ensures w'.PcOf(t) == Returned(req, since, Response(w.link.dispatcher.frame, w.log.dispatched))
    ensures w'.log.posted == w.log.posted
  {
    ExpectedIsSrsp(req);
    OneAction(w, Process);
    var w1 := Next(w, Process);
    AnswerCopied(w1, t, req, since);
    RunsCompose(w, [Process], [Advance(t), Advance(t), Advance(t)]);
    assert [Process] + [Advance(t), Advance(t), Advance(t)] == [Process, Advance(t), Advance(t), Advance(t)];
    w' := Exec(w1, [Advance(t), Advance(t), Advance(t)]);
  }

  lemma {:induction false} FirstMatch(posted: seq<Frame>, from: nat, k: nat, key: Key) returns (i: nat)
    requires from <= k < |posted| && KeyOf(posted[k]) == key
    ensures from <= i < |posted| && KeyOf(posted[i]) == key && forall j :: from <= j < i ==> KeyOf(posted[j]) != key
    decreases k - from
  {
    if KeyOf(posted[from]) == key {
      i := from;
    } else {
      i := FirstMatch(posted, from + 1, k, key);
    }
  }

  lemma {:induction false} OldComesBack(w: World, t: TaskId, req: Frame) returns (run: seq<Action>)
    requires Inv(w) && w.PcOf(t) == Clearing(req) && UnderWay(w, ExpectedKey(req))
    ensures EndsWithOld(w, run, t) && Quiet(run)
  {
    var key := ExpectedKey(req);
    var k :| w.log.dispatched <= k < |w.log.posted| && KeyOf(w.log.posted[k]) == key;
    var i := FirstMatch(w.log.posted, w.log.dispatched, k, key);
    ClearAndWrite(w, t, req);
    var w1 := w.(link := w.link.(srspSem := false)).Goto(t, Waiting(req, w.log.dispatched));
    var drain, w2 := DispatchUntil(w1, i, t);
    LeadsOn(w, [Advance(t), Advance(t)], w1, drain, w2, t);
    var w3 := TakeMatch(w2, t, req, w.log.dispatched);
    LeadsOn(w, [Advance(t), Advance(t)] + drain, w2, [Process, Advance(t), Advance(t), Advance(t)], w3, t);
    run := [Advance(t), Advance(t)] + drain + [Process, Advance(t), Advance(t), Advance(t)];
  }

  /** A task that is about to clear the stale token can get a response that was there before exactly when a
      frame with its key is under way at that moment. */
  lemma {:induction false} OldResponseIff(w: World, t: TaskId, req: Frame)
    requires Inv(w) && w.PcOf(t) == Clearing(req)
    ensures (exists run :: EndsWithOld(w, run, t)) <==> UnderWay(w, ExpectedKey(req))
  {
    if exists run :: EndsWithOld(w, run, t) {
      var run :| EndsWithOld(w, run, t);
      OldWasUnderWay(w, run, t, req);
    }
    if UnderWay(w, ExpectedKey(req)) {
      var run := OldComesBack(w, t, req);
    }
  }
}
