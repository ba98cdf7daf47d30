/** The reset of the coprocessor: the task that asserts it gets through exactly when an indication comes. */
module ResetHandshake {
  import opened Bits
  import opened Wrappers
  import opened MtFrame
  import opened RxMachine
  import opened ZnpLink
  import opened Correlator
  import opened LateResponse
  import opened FreshResponse

  /** SYS_RESET_IND. */
  predicate Indicates(f: Frame) {
    f.cmdType == 0x41 && f.cmdId == 0x80
  }

  /** Progress: an indication in the dispatcher's hand releases the task that waits for it. */
  lemma {:induction false} ResetProgress(w: World, t: TaskId)
    requires w.PcOf(t) == AwaitingReset
    requires w.link.dispatcher.Holding? && Indicates(w.link.dispatcher.frame)
    ensures Possible(w, [Process, Advance(t)])
    ensures Exec(w, [Process, Advance(t)]).PcOf(t) == ResetReturned(true)
  {
    OneAction(w, Process);
    AddAction(w, [Process], Advance(t));
    assert [Process] + [Advance(t)] == [Process, Advance(t)];
  }

  /** The two ways out of the wait: with a token only success is possible, without one only a counted
      failure. */
  lemma {:induction false} ResetOutcomes(w: World, t: TaskId)
    requires w.PcOf(t) == AwaitingReset
    ensures Enabled(w, Advance(t)) <==> w.link.resetSem
    ensures Enabled(w, TimeOut(t)) <==> !w.link.resetSem
    ensures w.link.resetSem ==>
              && Next(w, Advance(t)).PcOf(t) == ResetReturned(true) && !Next(w, Advance(t)).link.resetSem
              && Next(w, Advance(t)).link.errors == w.link.errors
    ensures !w.link.resetSem ==>
              && Next(w, TimeOut(t)).PcOf(t) == ResetReturned(false)
              && Next(w, TimeOut(t)).link.errors == (w.link.errors + 1) % U32
  {
  }

  /** An indication was dispatched after the first `since` frames. */
  ghost predicate IndicatedSince(log: Log, since: nat) {
    exists k :: since <= k < log.dispatched && k < |log.posted| && Indicates(log.posted[k])
  }

  lemma {:induction false} IndicatedStays(before: Log, after: Log, since: nat)
    requires Grows(before, after) && IndicatedSince(before, since)
    ensures IndicatedSince(after, since)
  {
    var k :| since <= k < before.dispatched && k < |before.posted| && Indicates(before.posted[k]);
    assert after.posted[k] == before.posted[k];
  }

  /** What holds from the call of a reset on. */
  ghost predicate ResetInv(w: World, t: TaskId, since: nat) {
    && since <= w.log.dispatched
    && (w.PcOf(t).AwaitingReset? || w.PcOf(t).ResetReturned?)
    && (w.PcOf(t).AwaitingReset? && w.link.resetSem ==> IndicatedSince(w.log, since))
    && (w.PcOf(t) == ResetReturned(true) ==> IndicatedSince(w.log, since))
  }

  /** Only a dispatched indication gives a token. */
  lemma {:induction false} TokenStep(w: World, a: Action)
    requires PipeInv(w.link, w.log) && Enabled(w, a) && Next(w, a).link.resetSem && !w.link.resetSem
    ensures a.Process? && Indicates(w.log.posted[w.log.dispatched])
    ensures Next(w, a).log.dispatched == w.log.dispatched + 1 && Next(w, a).log.posted == w.log.posted
  {
  }

  lemma {:induction false} ResetTask(w: World, a: Action, t: TaskId)
    requires Enabled(w, a) && a != Forget(t) && (w.PcOf(t).AwaitingReset? || w.PcOf(t).ResetReturned?)
    ensures var pc, pc' := w.PcOf(t), Next(w, a).PcOf(t);
            pc' == pc || (pc.AwaitingReset? && pc' == ResetReturned(w.link.resetSem))
  {
  }

  lemma {:induction false} ResetStep(w: World, a: Action, t: TaskId, since: nat)
    requires PipeInv(w.link, w.log) && ResetInv(w, t, since) && Enabled(w, a) && a != Forget(t)
    ensures ResetInv(Next(w, a), t, since) && PipeInv(Next(w, a).link, Next(w, a).log)
  {
    var w' := Next(w, a);
    PipeStep(w, a);
    LogGrows(w, a);
    ResetTask(w, a, t);
    if IndicatedSince(w.log, since) {
      IndicatedStays(w.log, w'.log, since);
    } else if w'.link.resetSem && !w.link.resetSem {
      TokenStep(w, a);
      assert Indicates(w'.log.posted[w.log.dispatched]);
    }
  }

  lemma {:induction false} ResetRun(w: World, run: seq<Action>, t: TaskId, since: nat)
    requires PipeInv(w.link, w.log) && ResetInv(w, t, since) && Possible(w, run) && Keeps(run, t)
    ensures ResetInv(Exec(w, run), t, since)
    decreases |run|
  {
    if run != [] {
      assert run[0] in run && forall a :: a in run[1..] ==> a in run;
      ResetStep(w, run[0], t, since);
      ResetRun(Next(w, run[0]), run[1..], t, since);
    }
  }

  /** Soundness, for every run after the call of a reset: the call succeeds only if an indication was
      dispatched after it. A token left by an earlier indication does not count. */
  lemma {:induction false} ResetSound(w: World, run: seq<Action>, t: TaskId)
    requires PipeInv(w.link, w.log) && Enabled(w, CallReset(t))
    requires Possible(Next(w, CallReset(t)), run) && Keeps(run, t)
    requires Exec(Next(w, CallReset(t)), run).PcOf(t) == ResetReturned(true)
    ensures var log := Exec(Next(w, CallReset(t)), run).log;
            exists k :: w.log.dispatched <= k < log.dispatched && k < |log.posted|
                        && log.posted[k].cmdType == 0x41 && log.posted[k].cmdId == 0x80
  {
    var w1 := Next(w, CallReset(t));
    PipeStep(w, CallReset(t));
    ResetRun(w1, run, t, w.log.dispatched);
    var log := Exec(w1, run).log;
    var k :| w.log.dispatched <= k < log.dispatched && k < |log.posted| && Indicates(log.posted[k]);
    assert log.posted[k].cmdType == 0x41 && log.posted[k].cmdId == 0x80;
  }
}
