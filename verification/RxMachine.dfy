/** The receive side of the link: bytes arrive one at a time and are assembled into frames.

    `Step` is the byte-at-a-time machine of the RX task on values, `SpecParse` the reference parser
    that looks at whole candidates and asks the frame decoder about them. */
module RxMachine {
  import opened Bits
  import opened MtFrame

  datatype Phase = HuntSof | ReadLen | ReadCmdType | ReadCmdId | ReadPayload | ReadFcs

  /** The machine between two bytes; `payload` is the stored part of the payload, that is
      the bytes of the buffer before the write index. */
  datatype Rx = Rx(phase: Phase, len: byte, cmdType: byte, cmdId: byte, payload: seq<byte>) {
    predicate Valid() {
      && |payload| <= MAX_PAYLOAD
      && (phase == ReadPayload ==> |payload| < len)
      && (phase == ReadFcs ==> |payload| == len)
    }

    /** A stored length byte that the 250-byte buffer can never satisfy. */
    predicate Doomed() {
      phase in {ReadCmdType, ReadCmdId, ReadPayload} && len > MAX_PAYLOAD
    }

    /** The frame in the buffer once the payload is complete. */
    function Assembled(): Frame {
      Frame(len, cmdType, cmdId, payload)
    }
  }

  datatype RxEvent = FrameReceived(frame: Frame) | FcsError

  function Step(s: Rx, b: byte): (Rx, seq<RxEvent>) {
    match s.phase
    case HuntSof => (if b == SOF then s.(phase := ReadLen) else s, [])
    case ReadLen => (s.(len := b, phase := ReadCmdType), [])
    case ReadCmdType => (s.(cmdType := b, phase := ReadCmdId), [])
    case ReadCmdId =>
      (s.(cmdId := b, payload := [], phase := if s.len > 0 then ReadPayload else ReadFcs), [])
    case ReadPayload =>
      var p := if |s.payload| < MAX_PAYLOAD then s.payload + [b] else s.payload;
      (s.(payload := p, phase := if |p| >= s.len then ReadFcs else ReadPayload), [])
    case ReadFcs =>
      (s.(phase := HuntSof), [if b != Fcs(s.Assembled()) then FcsError else FrameReceived(s.Assembled())])
  }

  /** The machine over a whole stream: final state and everything it reported, in order. */
  function Run(s: Rx, stream: seq<byte>): (Rx, seq<RxEvent>)
    decreases |stream|
  {
    if stream == [] then (s, [])
    else
      var (s1, e1) := Step(s, stream[0]);
      var (s2, e2) := Run(s1, stream[1..]);
      (s2, e1 + e2)
  }

  /** The reference parser. A candidate starts at an SOF byte and spans LEN + 5 bytes; the decoder
      decides about it and parsing goes on behind it. Nothing follows a candidate that is cut off or
      whose LEN exceeds 250. */
  function SpecParse(stream: seq<byte>): seq<RxEvent>
    decreases |stream|
  {
    if stream == [] then []
    else if stream[0] != SOF then SpecParse(stream[1..])
    else if |stream| < 2 || stream[1] > MAX_PAYLOAD || |stream| < stream[1] + OVERHEAD then []
    else
      var n := stream[1] + OVERHEAD;
      [Verdict(stream[..n])] + SpecParse(stream[n..])
  }

  /** The decoder's opinion of one complete candidate. */
  function Verdict(candidate: seq<byte>): RxEvent {
    match Decode(candidate)
    case Decoded(f) => FrameReceived(f)
    case Rejected(_) => FcsError
  }

  function Frames(events: seq<RxEvent>): seq<Frame> {
    if events == [] then []
    else (if events[0].FrameReceived? then [events[0].frame] else []) + Frames(events[1..])
  }

  lemma {:induction false} FramesCons(e: RxEvent, events: seq<RxEvent>)
    ensures Frames([e] + events) == (if e.FrameReceived? then [e.frame] else []) + Frames(events)
    ensures FcsErrors([e] + events) == (if e.FcsError? then 1 else 0) + FcsErrors(events)
  {
    assert ([e] + events)[1..] == events;
  }

  function FcsErrors(events: seq<RxEvent>): nat {
    if events == [] then 0
    else (if events[0].FcsError? then 1 else 0) + FcsErrors(events[1..])
  }

  lemma {:induction false} FramesConcat(a: seq<RxEvent>, b: seq<RxEvent>)
    ensures Frames(a + b) == Frames(a) + Frames(b)
    decreases |a|
  {
    if a == [] {
      assert a + b == b;
    } else {
      assert (a + b)[0] == a[0] && (a + b)[1..] == a[1..] + b;
      FramesConcat(a[1..], b);
    }
  }

  lemma {:induction false} FcsErrorsConcat(a: seq<RxEvent>, b: seq<RxEvent>)
    ensures FcsErrors(a + b) == FcsErrors(a) + FcsErrors(b)
    decreases |a|
  {
    if a == [] {
      assert a + b == b;
    } else {
      assert (a + b)[0] == a[0] && (a + b)[1..] == a[1..] + b;
      FcsErrorsConcat(a[1..], b);
    }
  }

  lemma {:induction false} RunConcat(s: Rx, a: seq<byte>, b: seq<byte>)
    ensures Run(s, a + b).0 == Run(Run(s, a).0, b).0
    ensures Run(s, a + b).1 == Run(s, a).1 + Run(Run(s, a).0, b).1
    decreases |a|
  {
    if a == [] {
      assert a + b == b;
    } else {
      assert (a + b)[0] == a[0] && (a + b)[1..] == a[1..] + b;
      RunConcat(Step(s, a[0]).0, a[1..], b);
    }
  }

  lemma {:induction false} RunValid(s: Rx, stream: seq<byte>)
    requires s.Valid()
    ensures Run(s, stream).0.Valid()
    ensures forall e :: e in Run(s, stream).1 && e.FrameReceived? ==> e.frame.WellFormed()
    decreases |stream|
  {
    if stream != [] {
      RunValid(Step(s, stream[0]).0, stream[1..]);
    }
  }

  // ---------- Inside a candidate ----------

  /** Bytes up to and including the check byte, for a machine past its length byte. */
  function Distance(s: Rx): nat
    requires s.Valid()
  {
    match s.phase
    case HuntSof => 0
    case ReadLen => MAX_PAYLOAD + 4
    case ReadCmdType => s.len + 3
    case ReadCmdId => s.len + 2
    case ReadPayload => s.len - |s.payload| + 1
    case ReadFcs => 1
  }

  /** The bytes of the candidate seen so far. */
  function Seen(s: Rx): seq<byte> {
    match s.phase
    case HuntSof => []
    case ReadLen => [SOF]
    case ReadCmdType => [SOF, s.len]
    case ReadCmdId => [SOF, s.len, s.cmdType]
    case _ => [SOF, s.len, s.cmdType, s.cmdId] + s.payload
  }

  predicate InCandidate(s: Rx) {
    s.Valid() && s.phase !in {HuntSof, ReadLen} && s.len <= MAX_PAYLOAD
  }

  /** A byte before the check byte is only recorded; the check byte ends the candidate with the
      decoder's verdict on all its bytes. */
  lemma {:induction false} StepInCandidate(s: Rx, b: byte)
    requires InCandidate(s)
    ensures s.phase != ReadFcs ==>
              InCandidate(Step(s, b).0) && Step(s, b).1 == []
              && Step(s, b).0.len == s.len && Distance(Step(s, b).0) == Distance(s) - 1
              && Seen(Step(s, b).0) == Seen(s) + [b]
    ensures s.phase == ReadFcs ==> Step(s, b) == (s.(phase := HuntSof), [Verdict(Seen(s) + [b])])
  {
    if s.phase == ReadFcs {
      var c := Seen(s) + [b];
      assert c[4..4 + s.len] == s.payload;
    }
  }

  lemma {:induction false} RunInCandidate(s: Rx, stream: seq<byte>)
    requires InCandidate(s) && |stream| <= Distance(s)
    ensures |stream| < Distance(s) ==>
              InCandidate(Run(s, stream).0) && Run(s, stream).1 == []
              && Distance(Run(s, stream).0) == Distance(s) - |stream|
    ensures |stream| == Distance(s) ==>
              Run(s, stream).0.phase == HuntSof && Run(s, stream).1 == [Verdict(Seen(s) + stream)]
    decreases |stream|
  {
    if stream != [] {
      StepInCandidate(s, stream[0]);
      if s.phase != ReadFcs {
        assert Seen(s) + [stream[0]] + stream[1..] == Seen(s) + stream;
        RunInCandidate(Step(s, stream[0]).0, stream[1..]);
      } else {
        assert Seen(s) + [stream[0]] == Seen(s) + stream;
      }
    }
  }

  lemma {:induction false} RunDoomed(s: Rx, stream: seq<byte>)
    requires s.Valid() && s.Doomed()
    ensures Run(s, stream).0.Valid() && Run(s, stream).0.Doomed() && Run(s, stream).1 == []
    decreases |stream|
  {
    if stream != [] {
      RunDoomed(Step(s, stream[0]).0, stream[1..]);
    }
  }

  /** One complete candidate takes a hunting machine back to hunting and yields one verdict. */
  lemma {:induction false} RunCandidate(s: Rx, c: seq<byte>)
    requires s.Valid() && s.phase == HuntSof
    requires |c| >= 2 && c[0] == SOF && c[1] <= MAX_PAYLOAD && |c| == c[1] + OVERHEAD
    ensures Run(s, c).0.phase == HuntSof && Run(s, c).1 == [Verdict(c)]
  {
    AfterHeader(s, c);
    var s2 := Run(s, c[..2]).0;
    assert c[..2] + c[2..] == c;
    RunConcat(s, c[..2], c[2..]);
    RunInCandidate(s2, c[2..]);
    assert Seen(s2) + c[2..] == c;
  }

  lemma {:induction false} AfterHeader(s: Rx, c: seq<byte>)
    requires s.Valid() && s.phase == HuntSof
    requires |c| >= 2 && c[0] == SOF
    ensures Run(s, c[..2]).0 == s.(phase := ReadCmdType, len := c[1])
    ensures Run(s, c[..2]).1 == []
  {
    var header := c[..2];
    assert header[1..] == [c[1]] && header[1..][1..] == [];
    assert Run(s.(phase := ReadLen), header[1..]).0 == s.(phase := ReadCmdType, len := c[1]);
  }

  // ---------- Refinement of the reference parser ----------

  /** For every byte stream, the machine reports exactly what the reference parser reports. */
  lemma {:induction false} RefinesSpecParser(s: Rx, stream: seq<byte>)
    requires s.Valid() && s.phase == HuntSof
    ensures Run(s, stream).1 == SpecParse(stream)
    decreases |stream|
  {
    if stream == [] {
    } else if stream[0] != SOF {
      RefinesSpecParser(s, stream[1..]);
    } else if |stream| < 2 {
      assert stream[1..] == [];
    } else if stream[1] > MAX_PAYLOAD || |stream| < stream[1] + OVERHEAD {
      AfterHeader(s, stream);
      assert stream[..2] + stream[2..] == stream;
      RunConcat(s, stream[..2], stream[2..]);
      if stream[1] > MAX_PAYLOAD {
        RunDoomed(Run(s, stream[..2]).0, stream[2..]);
      } else {
        RunInCandidate(Run(s, stream[..2]).0, stream[2..]);
      }
    } else {
      var n := stream[1] + OVERHEAD;
      RunCandidate(s, stream[..n]);
      assert stream[..n] + stream[n..] == stream;
      RunConcat(s, stream[..n], stream[n..]);
      RunValid(s, stream[..n]);
      RefinesSpecParser(Run(s, stream[..n]).0, stream[n..]);
    }
  }

  /** An accepted frame and where in the stream its candidate starts. */
  datatype Hit = Hit(at: nat, frame: Frame)

  function Moved(hits: seq<Hit>, n: nat): (r: seq<Hit>)
    ensures |r| == |hits|
    ensures forall i :: 0 <= i < |hits| ==> r[i] == Hit(hits[i].at + n, hits[i].frame)
  {
    seq(|hits|, i requires 0 <= i < |hits| => Hit(hits[i].at + n, hits[i].frame))
  }

  predicate ImageAt(stream: seq<byte>, hit: Hit) {
    && hit.at + hit.frame.Size() <= |stream|
    && stream[hit.at..hit.at + hit.frame.Size()] == Encode(hit.frame)
  }

  predicate Before(a: Hit, b: Hit) {
    a.at + a.frame.Size() <= b.at
  }

  /** Each hit is a wire image in the stream, and each ends before the next one starts. */
  ghost predicate DisjointImages(stream: seq<byte>, hits: seq<Hit>) {
    && (forall i :: 0 <= i < |hits| ==> ImageAt(stream, hits[i]))
    && (forall i, j :: 0 <= i < j < |hits| ==> Before(hits[i], hits[j]))
  }

  lemma {:induction false} MovedImages(stream: seq<byte>, n: nat, hits: seq<Hit>)
    requires n <= |stream| && DisjointImages(stream[n..], hits)
    ensures DisjointImages(stream, Moved(hits, n))
  {
    forall i | 0 <= i < |hits| ensures ImageAt(stream, Moved(hits, n)[i]) {
      var at, len := hits[i].at, hits[i].frame.Size();
      assert ImageAt(stream[n..], hits[i]);
      assert stream[n..][at..at + len] == stream[at + n..at + n + len];
    }
    forall i, j | 0 <= i < j < |hits| ensures Before(Moved(hits, n)[i], Moved(hits, n)[j]) {
      assert Before(hits[i], hits[j]);
    }
  }

  lemma {:induction false} PrependHit(stream: seq<byte>, f: Frame, hits: seq<Hit>)
    requires ImageAt(stream, Hit(0, f)) && DisjointImages(stream, hits)
    requires forall i :: 0 <= i < |hits| ==> hits[i].at >= f.Size()
    ensures DisjointImages(stream, [Hit(0, f)] + hits)
  {
    var all := [Hit(0, f)] + hits;
    forall i, j | 0 <= i < j < |all| ensures Before(all[i], all[j]) {
      assert all[j] == hits[j - 1];
      if i > 0 {
        assert all[i] == hits[i - 1];
      }
    }
  }

  /** The first candidate is an image when it is accepted. */
  lemma {:induction false} CandidateImage(stream: seq<byte>, n: nat)
    requires 2 <= n <= |stream| && n == stream[1] + OVERHEAD && stream[1] <= MAX_PAYLOAD
    requires Decode(stream[..n]).Decoded?
    ensures ImageAt(stream, Hit(0, Decode(stream[..n]).frame))
    ensures Decode(stream[..n]).frame.Size() == n
  {
    DecodedIsWellFormed(stream[..n]);
    assert stream[..n][..n] == stream[0..n];
  }

  function HitFrames(hits: seq<Hit>): seq<Frame> {
    if hits == [] then [] else [hits[0].frame] + HitFrames(hits[1..])
  }

  lemma {:induction false} HitFramesCons(h: Hit, hits: seq<Hit>)
    ensures HitFrames([h] + hits) == [h.frame] + HitFrames(hits)
  {
    assert ([h] + hits)[1..] == hits;
  }

  lemma {:induction false} HitFramesMoved(hits: seq<Hit>, n: nat)
    ensures HitFrames(Moved(hits, n)) == HitFrames(hits)
  {
    if hits != [] {
      assert Moved(hits, n)[1..] == Moved(hits[1..], n);
      HitFramesMoved(hits[1..], n);
    }
  }

  /** Puts the verdict on the first candidate in front of the hits behind it. */
  lemma {:induction false} ExtendHits(stream: seq<byte>, n: nat, rest: seq<Hit>) returns (hits: seq<Hit>)
    requires 2 <= n <= |stream| && n == stream[1] + OVERHEAD && stream[1] <= MAX_PAYLOAD
    requires DisjointImages(stream[n..], rest)
    ensures DisjointImages(stream, hits)
    ensures HitFrames(hits)
            == (match Verdict(stream[..n]) case FrameReceived(f) => [f] case FcsError => []) + HitFrames(rest)
  {
    MovedImages(stream, n, rest);
    HitFramesMoved(rest, n);
    hits := Moved(rest, n);
    if Decode(stream[..n]).Decoded? {
      var f := Decode(stream[..n]).frame;
      CandidateImage(stream, n);
      PrependHit(stream, f, hits);
      HitFramesCons(Hit(0, f), hits);
      hits := [Hit(0, f)] + hits;
    }
  }

  /** Every frame of the reference parse occurs in the stream as its wire image; the images do not
      overlap and appear in the order of the frames. */
  lemma {:induction false} LocateFrames(stream: seq<byte>) returns (hits: seq<Hit>)
    ensures HitFrames(hits) == Frames(SpecParse(stream))
    ensures DisjointImages(stream, hits)
    decreases |stream|
  {
    if stream == [] {
      return [];
    }
    if stream[0] != SOF {
      var rest := LocateFrames(stream[1..]);
      MovedImages(stream, 1, rest);
      HitFramesMoved(rest, 1);
      return Moved(rest, 1);
    }
    if |stream| < 2 || stream[1] > MAX_PAYLOAD || |stream| < stream[1] + OVERHEAD {
      return [];
    }
    var n := stream[1] + OVERHEAD;
    var rest := LocateFrames(stream[n..]);
    hits := ExtendHits(stream, n, rest);
    FramesCons(Verdict(stream[..n]), SpecParse(stream[n..]));
  }

  /** The same for what the machine reports on any stream. */
  lemma {:induction false} FramesAreSubstrings(s: Rx, stream: seq<byte>)
    requires s.Valid() && s.phase == HuntSof
    ensures exists hits :: HitFrames(hits) == Frames(Run(s, stream).1) && DisjointImages(stream, hits)
  {
    RefinesSpecParser(s, stream);
    var hits := LocateFrames(stream);
  }

  // ---------- Stream round trip ----------

  predicate NoiseFree(noise: seq<byte>) {
    SOF !in noise
  }

  /** The wire images of `frames`, with `noise[i]` in front of the i-th and the last one at the end. */
  function Interleave(frames: seq<Frame>, noise: seq<seq<byte>>): seq<byte>
    requires |noise| == |frames| + 1
  {
    if frames == [] then noise[0]
    else noise[0] + Encode(frames[0]) + Interleave(frames[1..], noise[1..])
  }

  function Received(frames: seq<Frame>): seq<RxEvent> {
    if frames == [] then [] else [FrameReceived(frames[0])] + Received(frames[1..])
  }

  lemma {:induction false} RunNoise(s: Rx, noise: seq<byte>)
    requires s.phase == HuntSof && NoiseFree(noise)
    ensures Run(s, noise).0 == s && Run(s, noise).1 == []
    decreases |noise|
  {
    if noise != [] {
      assert noise[0] in noise && Step(s, noise[0]) == (s, []);
      forall b | b in noise[1..] ensures b in noise {}
      RunNoise(s, noise[1..]);
    }
  }

  lemma {:induction false} RunEncoded(s: Rx, f: Frame)
    requires s.Valid() && s.phase == HuntSof && f.WellFormed()
    ensures Run(s, Encode(f)).0.phase == HuntSof && Run(s, Encode(f)).1 == [FrameReceived(f)]
  {
    DecodeIffEncoded(Encode(f), f);
    RunCandidate(s, Encode(f));
  }

  /** Whatever frames are sent, with whatever SOF-free noise around them, exactly those frames
      come out, and the machine ends hunting. */
  lemma {:induction false} StreamRoundTrip(s: Rx, frames: seq<Frame>, noise: seq<seq<byte>>)
    requires s.Valid() && s.phase == HuntSof && |noise| == |frames| + 1
    requires forall f :: f in frames ==> f.WellFormed()
    requires forall i :: 0 <= i < |noise| ==> NoiseFree(noise[i])
    ensures Run(s, Interleave(frames, noise)).0.phase == HuntSof
    ensures Run(s, Interleave(frames, noise)).1 == Received(frames)
    decreases |frames|
  {
    RunNoise(s, noise[0]);
    if frames != [] {
      var image, rest := Encode(frames[0]), Interleave(frames[1..], noise[1..]);
      RunEncoded(s, frames[0]);
      RunConcat(s, noise[0], image);
      RunConcat(s, noise[0] + image, rest);
      RunValid(s, noise[0] + image);
      StreamRoundTrip(Run(s, noise[0] + image).0, frames[1..], noise[1..]);
    }
  }

  // ---------- Self-stabilisation ----------

  /** From every state that is not doomed, `Distance` bytes that are all at most 250 bring the
      machine back to hunting, where such bytes leave it. */
  lemma {:induction false} Resynchronises(s: Rx, stream: seq<byte>)
    requires s.Valid() && !s.Doomed()
    requires forall b :: b in stream ==> b <= MAX_PAYLOAD
    requires |stream| >= Distance(s)
    ensures Run(s, stream).0.phase == HuntSof
    decreases |stream|
  {
    if s.phase == HuntSof {
      RunNoise(s, stream);
    } else {
      assert stream[0] in stream;
      var s1 := Step(s, stream[0]).0;
      if s.phase != ReadLen {
        StepInCandidate(s, stream[0]);
      }
      forall b | b in stream[1..] ensures b in stream {}
      Resynchronises(s1, stream[1..]);
    }
  }

  /** 254 bytes that are all at most 250 always suffice, and no smaller number does. */
  lemma {:induction false} ResyncBound(s: Rx)
    requires s.Valid() && !s.Doomed()
    ensures Distance(s) <= 254
    ensures s.phase == ReadLen ==>
              exists stream: seq<byte> :: |stream| == 253 && (forall b :: b in stream ==> b <= MAX_PAYLOAD)
                                          && Run(s, stream).0.phase != HuntSof
  {
    if s.phase == ReadLen {
      var filler: seq<byte> := seq(252, _ => 0);
      var stream := [250] + filler;
      assert stream[1..] == filler;
      var s1 := Step(s, 250).0;
      assert Run(s, stream) == (Run(s1, filler).0, [] + Run(s1, filler).1);
      RunInCandidate(s1, filler);
    }
  }

  /** The machine can find back to hunting exactly when it is not stuck on a length byte above 250. */
  lemma {:induction false} CanResyncIffNotDoomed(s: Rx)
    requires s.Valid()
    ensures (exists stream :: Run(s, stream).0.phase == HuntSof) <==> !s.Doomed()
  {
    if s.Doomed() {
      forall stream ensures Run(s, stream).0.phase != HuntSof {
        RunDoomed(s, stream);
      }
    } else {
      var stream: seq<byte> := seq(254, _ => 0);
      ResyncBound(s);
      Resynchronises(s, stream);
    }
  }

  /** After any garbage, 254 bytes of at most 250 followed by frames and SOF-free noise deliver exactly
      those frames behind whatever the garbage produced, unless the garbage left a doomed machine. */
  lemma {:induction false} ResyncThenRoundTrip(garbage: seq<byte>, quiet: seq<byte>, s: Rx,
                            frames: seq<Frame>, noise: seq<seq<byte>>)
    requires s.Valid() && !Run(s, garbage).0.Doomed() && |noise| == |frames| + 1
    requires |quiet| >= 254 && forall b :: b in quiet ==> b <= MAX_PAYLOAD
    requires forall f :: f in frames ==> f.WellFormed()
    requires forall i :: 0 <= i < |noise| ==> NoiseFree(noise[i])
    ensures Run(s, garbage + quiet + Interleave(frames, noise)).1
            == Run(s, garbage + quiet).1 + Received(frames)
  {
    RunValid(s, garbage);
    ResyncBound(Run(s, garbage).0);
    Resynchronises(Run(s, garbage).0, quiet);
    RunConcat(s, garbage, quiet);
    RunValid(s, garbage + quiet);
    RunConcat(s, garbage + quiet, Interleave(frames, noise));
    StreamRoundTrip(Run(s, garbage + quiet).0, frames, noise);
  }

  /** A frame with one damaged byte behind the length costs one error and nothing else. */
  lemma {:induction false} CorruptedFrameIsDropped(s: Rx, f: Frame, i: nat, b: byte)
    requires s.Valid() && s.phase == HuntSof && f.WellFormed()
    requires 2 <= i < |Encode(f)| && b != Encode(f)[i]
    ensures Run(s, Encode(f)[i := b]).0.phase == HuntSof
    ensures Run(s, Encode(f)[i := b]).1 == [FcsError]
  {
    SingleByteCorruptionDetected(f, i, b);
    RunCandidate(s, Encode(f)[i := b]);
  }
}
