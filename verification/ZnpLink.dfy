/** The shared state of the transport and what each task does to it.

    `Link` is the state as a value and the functions on it are the specification; the class
    `Transport` is the same state in the form of the module statics, updated in place. */
module ZnpLink {
  import opened Bits
  import opened MtFrame
  import opened RxMachine

  const RAW_QUEUE_DEPTH: nat := 16
  const AREQ: byte := 0x40
  const SRSP: byte := 0x60
  const SYS_AREQ: byte := 0x41
  const SYS_RESET_IND: byte := 0x80
  const ZDO_AREQ: byte := 0x45
  const ZDO_STATE_CHANGE_IND: byte := 0xC0
  const DEV_ZB_COORD: byte := 0x09

  /** The frame-type bits: `cmd_type & 0xE0`. */
  function FrameType(cmdType: byte): byte {
    cmdType / 32 * 32
  }

  /** What correlates a response with its request. */
  datatype Key = Key(cmdType: byte, cmdId: byte)

  function KeyOf(f: Frame): Key {
    Key(f.cmdType, f.cmdId)
  }

  /** `(cmd_type & 0x1F) | 0x60` and the request's command id. */
  function ExpectedKey(req: Frame): Key {
    Key(req.cmdType % 32 + SRSP, req.cmdId)
  }

  predicate IsAreq(f: Frame) {
    FrameType(f.cmdType) == AREQ
  }

  predicate IsResetInd(f: Frame) {
    f.cmdType == SYS_AREQ && f.cmdId == SYS_RESET_IND
  }

  predicate IsCoordInd(f: Frame) {
    f.cmdType == ZDO_AREQ && f.cmdId == ZDO_STATE_CHANGE_IND && f.payload != [] && f.payload[0] == DEV_ZB_COORD
  }

  /** The dispatch task between two of its steps. A reset indication is announced through its
      semaphore before it is queued. */
  datatype Dispatcher = Receiving | Holding(frame: Frame) | Announced(frame: Frame)

  datatype Link = Link(
    rx: Rx,
    rawQueue: seq<Frame>,
    dispatcher: Dispatcher,
    areqQueue: seq<Frame>,
    areqDepth: nat,
    pending: Key,
    srspFrame: Frame,
    srspSem: bool,
    resetSem: bool,
    errors: nat)

  function CountError(l: Link): Link {
    l.(errors := (l.errors + 1) % U32)
  }

  // ---------- RX task ----------

  function PostRaw(l: Link, f: Frame): Link {
    if |l.rawQueue| < RAW_QUEUE_DEPTH then l.(rawQueue := l.rawQueue + [f]) else CountError(l)
  }

  function RxByte(l: Link, b: byte): Link {
    var (rx, events) := Step(l.rx, b);
    var l1 := l.(rx := rx);
    if events == [] then l1
    else match events[0]
      case FcsError => CountError(l1)
      case FrameReceived(f) => PostRaw(l1, f)
  }

  // ---------- Dispatch task ----------

  function DispatchTake(l: Link): Link
    requires l.dispatcher.Receiving? && l.rawQueue != []
  {
    l.(rawQueue := l.rawQueue[1..], dispatcher := Holding(l.rawQueue[0]))
  }

  function PostAreq(l: Link, f: Frame): Link {
    var l1 := l.(dispatcher := Receiving);
    if |l.areqQueue| < l.areqDepth then l1.(areqQueue := l.areqQueue + [f]) else CountError(l1)
  }

  /** The comparison, the copy of the frame and the signal are one step. */
  function DispatchProcess(l: Link): Link
    requires l.dispatcher.Holding?
  {
    var f := l.dispatcher.frame;
    if FrameType(f.cmdType) == SRSP then
      if KeyOf(f) == l.pending then
        l.(dispatcher := Receiving, srspFrame := f, srspSem := true)
      else
        l.(dispatcher := Receiving)
    else if IsAreq(f) then
      if IsResetInd(f) then l.(dispatcher := Announced(f), resetSem := true) else PostAreq(l, f)
    else
      l.(dispatcher := Receiving)
  }

  function DispatchPost(l: Link): Link
    requires l.dispatcher.Announced?
  {
    PostAreq(l, l.dispatcher.frame)
  }

  /** One full iteration of the dispatch loop. */
  function DispatchOne(l: Link): Link
    requires l.dispatcher.Receiving? && l.rawQueue != []
  {
    var l1 := DispatchProcess(DispatchTake(l));
    if l1.dispatcher.Announced? then DispatchPost(l1) else l1
  }

  /** Where a frame goes, by the numbers of the protocol: responses (0x60 to 0x7F) that match the pending
      pair to the response cell, indications (0x40 to 0x5F) to the AREQ queue if it has room, those of a
      reset (0x41, 0x80) to the reset semaphore as well, and everything else nowhere. */
  lemma {:induction false} DispatchRoutes(l: Link)
    requires l.dispatcher.Receiving? && l.rawQueue != []
    ensures var f, l', rest := l.rawQueue[0], DispatchOne(l), l.(rawQueue := l.rawQueue[1..]);
            if 0x60 <= f.cmdType < 0x80 then
              l' == if f.cmdType == l.pending.cmdType && f.cmdId == l.pending.cmdId
                    then rest.(srspFrame := f, srspSem := true) else rest
            else if 0x40 <= f.cmdType < 0x60 then
              l' == rest.(resetSem := l.resetSem || (f.cmdType == 0x41 && f.cmdId == 0x80),
                          areqQueue := if |l.areqQueue| < l.areqDepth then l.areqQueue + [f] else l.areqQueue,
                          errors := if |l.areqQueue| < l.areqDepth then l.errors else (l.errors + 1) % U32)
            else l' == rest
  {
  }

  // ---------- The consumer while the coordinator starts ----------

  /** Whether a coordinator-started indication is among the frames, and what is left behind it. */
  function AfterCoord(frames: seq<Frame>): (bool, seq<Frame>) {
    if frames == [] then (false, [])
    else if IsCoordInd(frames[0]) then (true, frames[1..])
    else AfterCoord(frames[1..])
  }

  /** The 32-bit difference between the deadline and a reading at `read`. */
  function TimeLeft(deadline: nat, read: nat): nat {
    (deadline - read % U32) % U32
  }

  /** Until when a receive blocks whose time left was computed from a reading at `read`. */
  function LastMoment(deadline: nat, read: nat): nat {
    read + TimeLeft(deadline, read)
  }

  /** The same with the deadline loop around it. `times(n)` is the true time of the n-th reading of the
      tick counter; each turn reads it twice, for the comparison and for the time left. `comes` says
      when each of the frames is there. */
  function Await(frames: seq<Frame>, comes: seq<nat>, deadline: nat, times: nat -> nat, n: nat): (bool, seq<Frame>)
    requires |comes| == |frames|
    decreases |frames|
  {
    if times(n) % U32 >= deadline || frames == [] || comes[0] > LastMoment(deadline, times(n + 1)) then (false, frames)
    else if IsCoordInd(frames[0]) then (true, frames[1..])
    else Await(frames[1..], comes[1..], deadline, times, n + 2)
  }

  /** At a moment before the true deadline, the comparison of the 32-bit words lets the wait go on
      exactly when no wrap of the counter lies in between. At the deadline or after it, and before the next
      wrap, it ends the wait. */
  lemma {:induction false} WaitGoesOnIff(start: nat, timeout: nat, now: nat)
    requires start <= now && timeout < U32
    ensures now < start + timeout ==> (now % U32 < (start + timeout) % U32 <==> now / U32 == (start + timeout) / U32)
    ensures start + timeout <= now && now / U32 == (start + timeout) / U32 ==> now % U32 >= (start + timeout) % U32
  {
  }

  /** The time left is the true one exactly when it is read not later than the deadline. Read later, it is
      almost a full turn of the counter. */
  lemma {:induction false} TimeLeftExactIff(start: nat, timeout: nat, now: nat)
    requires start <= now < start + timeout + U32 && timeout < U32
    ensures ((start + timeout) % U32 - now % U32) % U32 == start + timeout - now <==> now <= start + timeout
    ensures now > start + timeout ==> ((start + timeout) % U32 - now % U32) % U32 == U32 - (now - start - timeout)
  {
    var left := start + timeout - now;
    assert ((start + timeout) % U32 - now % U32) % U32 == left % U32;
    if left < 0 {
      assert (left + U32) % U32 == left + U32;
    }
  }

  /** So a receive blocks until the deadline, or a full turn of the counter longer. */
  lemma {:induction false} LastMomentIs(start: nat, timeout: nat, read: nat)
    requires start <= read < start + timeout + U32 && timeout < U32
    ensures LastMoment((start + timeout) % U32, read)
            == if read <= start + timeout then start + timeout else start + timeout + U32
  {
    TimeLeftExactIff(start, timeout, read);
  }

  /** Some receive of the wait may block beyond `close`. */
  predicate Overruns(frames: seq<Frame>, comes: seq<nat>, deadline: nat, close: nat, times: nat -> nat, n: nat)
    requires |comes| == |frames|
    decreases |frames|
  {
    times(n) % U32 < deadline
    && (LastMoment(deadline, times(n + 1)) > close
        || (frames != [] && comes[0] <= LastMoment(deadline, times(n + 1)) && !IsCoordInd(frames[0])
            && Overruns(frames[1..], comes[1..], deadline, close, times, n + 2)))
  }

  /** In some turn of the wait, `close` passes between the comparison and the second reading. */
  predicate ReadsLate(frames: seq<Frame>, comes: seq<nat>, deadline: nat, close: nat, times: nat -> nat, n: nat)
    requires |comes| == |frames|
    decreases |frames|
  {
    times(n) % U32 < deadline
    && (times(n + 1) > close
        || (frames != [] && comes[0] <= close && !IsCoordInd(frames[0])
            && ReadsLate(frames[1..], comes[1..], deadline, close, times, n + 2)))
  }

  /** The wait overruns its deadline exactly when in some turn the deadline passes between the comparison and
      the computation of the time left. */
  lemma {:induction false} OverrunsIff(frames: seq<Frame>, comes: seq<nat>, start: nat, timeout: nat,
                                       times: nat -> nat, n: nat)
    requires |comes| == |frames| && timeout < U32
    requires forall k: nat :: start <= times(k) < start + timeout + U32
    ensures Overruns(frames, comes, (start + timeout) % U32, start + timeout, times, n)
            <==> ReadsLate(frames, comes, (start + timeout) % U32, start + timeout, times, n)
    decreases |frames|
  {
    LastMomentIs(start, timeout, times(n + 1));
    if frames != [] {
      OverrunsIff(frames[1..], comes[1..], start, timeout, times, n + 2);
    }
  }

  /** A second reading two ticks behind the first, across the deadline: an indication that comes almost 2^32
      ticks later still ends the wait with success. */
  lemma {:induction false} WaitOverrun(f: Frame)
    requires f.cmdType == 0x45 && f.cmdId == 0xC0 && f.payload != [] && f.payload[0] == 9
    ensures var times := (n: nat) => if n == 1 then 999 else 1001;
            Await([f], [U32 + 900], 1000, times, 1).0 && Overruns([f], [U32 + 900], 1000, 1000, times, 1)
  {
  }

  /** A wait that succeeds has taken exactly the frames up to the coordinator-started indication. */
  lemma {:induction false} AwaitTakesUpToCoord(frames: seq<Frame>, comes: seq<nat>, deadline: nat, times: nat -> nat, n: nat)
    requires |comes| == |frames|
    ensures Await(frames, comes, deadline, times, n).0 ==>
              Await(frames, comes, deadline, times, n) == AfterCoord(frames)
    decreases |frames|
  {
    if frames != [] {
      AwaitTakesUpToCoord(frames[1..], comes[1..], deadline, times, n + 2);
    }
  }

  /** How many frames are there by `close`, up to the first that is not. */
  function InTime(comes: seq<nat>, close: nat): (m: nat)
    ensures m <= |comes|
    ensures forall i :: 0 <= i < m ==> comes[i] <= close
    ensures m < |comes| ==> comes[m] > close
  {
    if comes == [] || comes[0] > close then 0 else 1 + InTime(comes[1..], close)
  }

  /** With every comparison passed and every receive blocking until `close`, the wait looks for the indication
      exactly in the frames that come by then. */
  lemma {:induction false} AwaitByClose(frames: seq<Frame>, comes: seq<nat>, deadline: nat, close: nat,
                                        times: nat -> nat, n: nat)
    requires |comes| == |frames|
    requires forall k: nat :: times(k) % U32 < deadline && LastMoment(deadline, times(k)) == close
    ensures var m := InTime(comes, close);
            var (found, rest) := AfterCoord(frames[..m]);
            Await(frames, comes, deadline, times, n) == (found, rest + frames[m..])
    decreases |frames|
  {
    var m := InTime(comes, close);
    if m == 0 {
      assert frames[..0] == [] && [] + frames[0..] == frames;
    } else {
      AwaitByClose(frames[1..], comes[1..], deadline, close, times, n + 2);
      FrontSplit(frames, m);
    }
  }

  /** While all readings lie before the deadline and no wrap lies in between, the wait looks for the
      indication exactly in the frames that come by the deadline. */
  lemma {:induction false} AwaitInTime(frames: seq<Frame>, comes: seq<nat>, start: nat, timeout: nat,
                                       times: nat -> nat, n: nat)
    requires |comes| == |frames| && timeout < U32 && forall k: nat :: start <= times(k) < start + timeout
    requires start / U32 == (start + timeout) / U32
    ensures var m := InTime(comes, start + timeout);
            var (found, rest) := AfterCoord(frames[..m]);
            Await(frames, comes, (start + timeout) % U32, times, n) == (found, rest + frames[m..])
  {
    var deadline := (start + timeout) % U32;
    forall k: nat ensures times(k) % U32 < deadline && LastMoment(deadline, times(k)) == start + timeout {
      ReadInTime(start, timeout, times(k));
    }
    AwaitByClose(frames, comes, deadline, start + timeout, times, n);
  }

  lemma {:induction false} ReadInTime(start: nat, timeout: nat, read: nat)
    requires timeout < U32 && start <= read < start + timeout && start / U32 == (start + timeout) / U32
    ensures read % U32 < (start + timeout) % U32 && LastMoment((start + timeout) % U32, read) == start + timeout
  {
    WaitGoesOnIff(start, timeout, read);
    LastMomentIs(start, timeout, read);
  }

  lemma {:induction false} FrontSplit(frames: seq<Frame>, m: nat)
    requires 0 < m <= |frames|
    ensures frames[..m][0] == frames[0] && frames[..m][1..] == frames[1..][..m - 1]
    ensures frames[1..][m - 1..] == frames[m..] && frames[1..] == frames[1..][..m - 1] + frames[m..]
  {
  }

  /** When the deadline lies behind a wrap that has not come yet, the wait ends at once: it fails and
      takes nothing, however much time is left. */
  lemma {:induction false} AwaitAcrossWrap(frames: seq<Frame>, comes: seq<nat>, start: nat, timeout: nat, times: nat -> nat)
    requires |comes| == |frames| && timeout < U32 && start <= times(1) < start + timeout
    requires times(1) / U32 < (start + timeout) / U32
    ensures Await(frames, comes, (start + timeout) % U32, times, 1) == (false, frames)
  {
    WaitGoesOnIff(start, timeout, times(1));
  }

  // ---------- The module statics ----------

  class Transport {
    // locals of the RX task
    var phase: Phase
    const frame: FrameBuf
    var payloadIdx: nat
    // statics
    var rawQueue: seq<Frame>
    var areqQueue: seq<Frame>
    const areqDepth: nat
    var pendingCmdType: byte
    var pendingCmdId: byte
    var srspFrame: Frame
    var srspSem: bool
    var resetIndSem: bool
    var errorCount: nat

    ghost predicate Valid()
      reads this, frame
    {
      && frame.Valid()
      && payloadIdx <= MAX_PAYLOAD
      && (phase == ReadPayload ==> payloadIdx < frame.payloadLen)
      && (phase == ReadFcs ==> payloadIdx == frame.payloadLen)
    }

    ghost function RxValue(): (rx: Rx)
      requires Valid()
      reads this, frame, frame.payload
      ensures rx.Valid()
    {
      Rx(phase, frame.payloadLen, frame.cmdType, frame.cmdId, frame.payload[..payloadIdx])
    }

    /** The abstract state between two iterations of the dispatch loop. */
    ghost function Value(): (l: Link)
      requires Valid()
      reads this, frame, frame.payload
      ensures l.rx.Valid()
    {
      Link(RxValue(), rawQueue, Receiving, areqQueue, areqDepth,
           Key(pendingCmdType, pendingCmdId), srspFrame, srspSem, resetIndSem, errorCount)
    }

    constructor (areqDepth: nat)
      ensures Valid() && fresh(frame) && fresh(frame.payload)
      ensures phase == HuntSof && rawQueue == [] && areqQueue == [] && this.areqDepth == areqDepth
      ensures !srspSem && !resetIndSem && errorCount == 0
    {
      phase, payloadIdx := HuntSof, 0;
      frame := new FrameBuf();
      rawQueue, areqQueue, this.areqDepth := [], [], areqDepth;
      pendingCmdType, pendingCmdId, srspFrame := 0, 0, Frame(0, 0, 0, []);
      srspSem, resetIndSem, errorCount := false, false, 0;
    }

    /** One iteration of the RX loop with a byte from the UART. */
    method OnByte(b: byte)
      requires Valid()
      modifies this`phase, this`payloadIdx, this`rawQueue, this`errorCount, frame, frame.payload
      ensures Valid()
      ensures Value() == RxByte(old(Value()), b)
    {
      match phase {
        case HuntSof =>
          if b == SOF {
            phase := ReadLen;
          }
        case ReadLen =>
          frame.payloadLen := b;
          phase := ReadCmdType;
        case ReadCmdType =>
          frame.cmdType := b;
          phase := ReadCmdId;
        case ReadCmdId =>
          frame.cmdId := b;
          payloadIdx := 0;
          phase := if frame.payloadLen > 0 then ReadPayload else ReadFcs;
        case ReadPayload =>
          StorePayloadByte(b);
        case ReadFcs =>
          CheckFrame(b);
      }
    }

    method StorePayloadByte(b: byte)
      requires Valid() && phase == ReadPayload
      modifies this`phase, this`payloadIdx, frame.payload
      ensures Valid()
      ensures RxValue() == Step(old(RxValue()), b).0
    {
      if payloadIdx < MAX_PAYLOAD {
        frame.payload[payloadIdx] := b;
        payloadIdx := payloadIdx + 1;
        assert frame.payload[..payloadIdx] == old(frame.payload[..payloadIdx]) + [b];
      }
      if payloadIdx >= frame.payloadLen {
        phase := ReadFcs;
      }
    }

    method CheckFrame(b: byte)
      requires Valid() && phase == ReadFcs
      modifies this`phase, this`rawQueue, this`errorCount
      ensures Valid()
      ensures Value() == RxByte(old(Value()), b)
    {
      var expected := FcsCalculate(frame);
      assert frame.Value() == RxValue().Assembled();
      phase := HuntSof;
      assert RxValue() == old(RxValue()).(phase := HuntSof);
      if b != expected {
        errorCount := (errorCount + 1) % U32;
      } else if |rawQueue| < RAW_QUEUE_DEPTH {
        rawQueue := rawQueue + [Frame(frame.payloadLen, frame.cmdType, frame.cmdId,
                                      frame.payload[..frame.payloadLen])];
      } else {
        errorCount := (errorCount + 1) % U32;
      }
    }

    /** One iteration of the dispatch loop with a frame waiting in the raw queue. */
    method Dispatch()
      requires Valid() && rawQueue != []
      modifies this`rawQueue, this`areqQueue, this`srspFrame, this`srspSem, this`resetIndSem, this`errorCount
      ensures Valid()
      ensures Value() == DispatchOne(old(Value()))
    {
      var f := rawQueue[0];
      rawQueue := rawQueue[1..];
      assert RxValue() == old(RxValue());
      if FrameType(f.cmdType) == SRSP {
        if f.cmdType == pendingCmdType && f.cmdId == pendingCmdId {
          srspFrame := f;
          srspSem := true;
        }
      } else if FrameType(f.cmdType) == AREQ {
        if f.cmdType == SYS_AREQ && f.cmdId == SYS_RESET_IND {
          resetIndSem := true;
        }
        EnqueueAreq(f);
      }
    }

    method EnqueueAreq(f: Frame)
      requires Valid()
      modifies this`areqQueue, this`errorCount
      ensures Valid()
      ensures Value() == PostAreq(old(Value()), f)
    {
      if |areqQueue| < areqDepth {
        areqQueue := areqQueue + [f];
      } else {
        errorCount := (errorCount + 1) % U32;
      }
      assert RxValue() == old(RxValue());
    }

    /** The sender's part before it blocks, with the request mutex held: record the expected
        response, clear a stale token and produce the bytes for the UART. */
    method BeginSreq(req: FrameBuf) returns (status: Status, wire: seq<byte>)
      requires Valid() && req.Valid()
      modifies this`pendingCmdType, this`pendingCmdId, this`srspSem
      ensures Valid()
      ensures status == if req.payloadLen <= MAX_PAYLOAD then Ok else InvalidSize
      ensures status != Ok ==> wire == [] && Value() == old(Value())
      ensures status == Ok ==> wire == Encode(req.Value())
      ensures status == Ok ==>
                Value() == old(Value()).(pending := ExpectedKey(req.Value()), srspSem := false)
    {
      var buf := new byte[MAX_PAYLOAD + OVERHEAD];
      var outLen;
      status, outLen := FrameEncode(req, buf);
      if status != Ok {
        return status, [];
      }
      pendingCmdType := req.cmdType % 32 + SRSP;
      pendingCmdId := req.cmdId;
      srspSem := false;
      wire := buf[..outLen];
    }

    /** The sender's part after it stops blocking, because of a token or because time ran out. */
    method EndSreq() returns (answered: bool, resp: Frame)
      requires Valid()
      modifies this`srspSem, this`errorCount
      ensures Valid()
      ensures answered == old(srspSem)
      ensures answered ==> resp == srspFrame && Value() == old(Value()).(srspSem := false)
      ensures !answered ==> Value() == CountError(old(Value()))
    {
      answered, resp := srspSem, srspFrame;
      if answered {
        srspSem := false;
      } else {
        errorCount := (errorCount + 1) % U32;
      }
    }

    /** Before the reset line is asserted: a token from an earlier indication is dropped. */
    method BeginReset()
      requires Valid()
      modifies this`resetIndSem
      ensures Valid() && Value() == old(Value()).(resetSem := false)
    {
      resetIndSem := false;
    }

    /** After the wait for the indication, because of a token or because time ran out. */
    method EndReset() returns (ok: bool)
      requires Valid()
      modifies this`resetIndSem, this`errorCount
      ensures Valid() && ok == old(resetIndSem)
      ensures Value() == if ok then old(Value()).(resetSem := false) else CountError(old(Value()))
    {
      ok := resetIndSem;
      if ok {
        resetIndSem := false;
      } else {
        errorCount := (errorCount + 1) % U32;
      }
    }

    method ReceiveAreq() returns (received: bool, f: Frame)
      requires Valid()
      modifies this`areqQueue
      ensures Valid()
      ensures received == (old(areqQueue) != [])
      ensures received ==> [f] + areqQueue == old(areqQueue)
      ensures Value() == old(Value()).(areqQueue := areqQueue)
      ensures !received ==> areqQueue == []
    {
      if areqQueue == [] {
        return false, srspFrame;
      }
      f := areqQueue[0];
      areqQueue := areqQueue[1..];
      received := true;
    }

    /** Receives until the coordinator has started, the deadline passes or nothing more comes in time;
        other frames are lost. The queue holds the frames that come during the wait as well; `comes`
        says when. */
    method AwaitCoordinator(timeout: nat, times: nat -> nat, comes: seq<nat>) returns (started: bool)
      requires Valid() && |comes| == |areqQueue|
      modifies this`areqQueue
      ensures Valid()
      ensures (started, areqQueue) == Await(old(areqQueue), comes, (times(0) + timeout) % U32, times, 1)
      ensures Value() == old(Value()).(areqQueue := areqQueue)
    {
      var deadline := (times(0) + timeout) % U32;
      var n, taken := 1, 0;
      assert comes[0..] == comes;
      while times(n) % U32 < deadline
        invariant Valid() && n >= 1 && 0 <= taken <= |comes| && |areqQueue| == |comes| - taken
        invariant Await(areqQueue, comes[taken..], deadline, times, n) == Await(old(areqQueue), comes, deadline, times, 1)
        invariant Value() == old(Value()).(areqQueue := areqQueue)
        decreases |areqQueue|
      {
        var remaining := TimeLeft(deadline, times(n + 1));
        if areqQueue == [] || comes[taken] > times(n + 1) + remaining {
          return false;
        }
        ghost var rest := comes[taken..];
        assert rest[0] == comes[taken] && rest[1..] == comes[taken + 1..];
        var received, f := ReceiveAreq();
        if IsCoordInd(f) {
          return true;
        }
        n, taken := n + 2, taken + 1;
      }
      return false;
    }
  }

  // ---------- The RX loop over a stream ----------

  function RxBytes(l: Link, stream: seq<byte>): Link {
    if stream == [] then l
    else RxByte(RxBytes(l, stream[..|stream| - 1]), stream[|stream| - 1])
  }

  /** The RX loop over everything the UART delivers. */
  method ReceiveStream(t: Transport, stream: seq<byte>)
    requires t.Valid()
    modifies t, t.frame, t.frame.payload
    ensures t.Valid()
    ensures t.Value() == RxBytes(old(t.Value()), stream)
  {
    for i := 0 to |stream|
      invariant t.Valid()
      invariant t.Value() == RxBytes(old(t.Value()), stream[..i])
    {
      assert stream[..i + 1][..i] == stream[..i];
      t.OnByte(stream[i]);
    }
    assert stream[..|stream|] == stream;
  }

  function Kept(n: nat): nat {
    if n <= RAW_QUEUE_DEPTH then n else RAW_QUEUE_DEPTH
  }

  /** `l` with the first of `frames` in the raw queue, the others and `rejected` candidates counted. */
  function Filled(l: Link, rx: Rx, frames: seq<Frame>, rejected: nat): Link {
    l.(rx := rx, rawQueue := frames[..Kept(|frames|)],
       errors := (rejected + |frames| - Kept(|frames|)) % U32)
  }

  lemma {:induction false} FilledStep(l: Link, rx: Rx, frames: seq<Frame>, rejected: nat, b: byte)
    ensures RxByte(Filled(l, rx, frames, rejected), b)
            == Filled(l, Step(rx, b).0, frames + Frames(Step(rx, b).1), rejected + FcsErrors(Step(rx, b).1))
  {
    StepReportsAtMostOne(rx, b);
    var events := Step(rx, b).1;
    var rx1 := Step(rx, b).0;
    if events != [] && events[0].FrameReceived? {
      FilledPost(l, rx1, frames, rejected, events[0].frame);
    } else {
      assert frames + Frames(events) == frames;
      FilledError(l, rx1, frames, rejected);
    }
  }

  lemma {:induction false} FilledPost(l: Link, rx: Rx, frames: seq<Frame>, rejected: nat, f: Frame)
    ensures PostRaw(Filled(l, rx, frames, rejected), f) == Filled(l, rx, frames + [f], rejected)
  {
    var k := Kept(|frames|);
    var all := frames + [f];
    if k < RAW_QUEUE_DEPTH {
      assert frames[..k] + [f] == all[..Kept(|all|)];
    } else {
      assert all[..k] == frames[..k];
    }
  }

  lemma {:induction false} FilledError(l: Link, rx: Rx, frames: seq<Frame>, rejected: nat)
    ensures CountError(Filled(l, rx, frames, rejected)) == Filled(l, rx, frames, rejected + 1)
  {
  }

  lemma {:induction false} RxBytesFill(l: Link, stream: seq<byte>)
    requires l.rawQueue == [] && l.errors == 0
    ensures RxBytes(l, stream)
            == Filled(l, Run(l.rx, stream).0, Frames(Run(l.rx, stream).1), FcsErrors(Run(l.rx, stream).1))
    decreases |stream|
  {
    if stream != [] {
      var init, b := stream[..|stream| - 1], stream[|stream| - 1];
      assert init + [b] == stream;
      RxBytesFill(l, init);
      RunSnoc(l.rx, init, b);
      FilledStep(l, Run(l.rx, init).0, Frames(Run(l.rx, init).1), FcsErrors(Run(l.rx, init).1), b);
    }
  }

  /** Starting from a hunting machine and an empty queue that nothing drains, the queue ends up with
      the first frames of the reference parse, as many as it can hold, and every rejected candidate
      and every frame too many has been counted as an error. */
  lemma {:induction false} RxBytesMatchesSpecParser(l: Link, stream: seq<byte>)
    requires l.rx.Valid() && l.rx.phase == HuntSof && l.rawQueue == [] && l.errors == 0
    ensures RxBytes(l, stream)
            == Filled(l, Run(l.rx, stream).0, Frames(SpecParse(stream)), FcsErrors(SpecParse(stream)))
  {
    RefinesSpecParser(l.rx, stream);
    RxBytesFill(l, stream);
  }

  lemma {:induction false} StepReportsAtMostOne(s: Rx, b: byte)
    ensures |Step(s, b).1| <= 1
    ensures Step(s, b).1 == [] ==> Frames(Step(s, b).1) == [] && FcsErrors(Step(s, b).1) == 0
    ensures Step(s, b).1 != [] ==>
              match Step(s, b).1[0]
              case FcsError => Frames(Step(s, b).1) == [] && FcsErrors(Step(s, b).1) == 1
              case FrameReceived(f) => Frames(Step(s, b).1) == [f] && FcsErrors(Step(s, b).1) == 0
  {
    if Step(s, b).1 != [] {
      assert Step(s, b).1 == [Step(s, b).1[0]] + [];
      FramesCons(Step(s, b).1[0], []);
    }
  }

  lemma {:induction false} RunSnoc(s: Rx, stream: seq<byte>, b: byte)
    ensures Run(s, stream + [b]).0 == Step(Run(s, stream).0, b).0
    ensures Run(s, stream + [b]).1 == Run(s, stream).1 + Step(Run(s, stream).0, b).1
    ensures Frames(Run(s, stream + [b]).1)
            == Frames(Run(s, stream).1) + Frames(Step(Run(s, stream).0, b).1)
    ensures FcsErrors(Run(s, stream + [b]).1)
            == FcsErrors(Run(s, stream).1) + FcsErrors(Step(Run(s, stream).0, b).1)
  {
    RunConcat(s, stream, [b]);
    var s1 := Run(s, stream).0;
    assert [b][1..] == [];
    assert Run(s1, [b]).0 == Step(s1, b).0;
    assert Run(s1, [b]).1 == Step(s1, b).1;
    FramesConcat(Run(s, stream).1, Step(s1, b).1);
    FcsErrorsConcat(Run(s, stream).1, Step(s1, b).1);
  }
}
