/** The MT frame codec of the ZNP link: check byte, encoder and decoder.

    A frame on the wire is SOF, LEN, CMD_TYPE, CMD_ID, LEN payload bytes and a check byte
    that is the XOR of everything between SOF and itself. */
module MtFrame {
  import opened Bits

  const SOF: byte := 0xFE
  const MAX_PAYLOAD: nat := 250
  /** SOF, LEN, CMD_TYPE, CMD_ID and FCS. */
  const OVERHEAD: nat := 5

  /** A frame as a value: `payload` holds the first `len` bytes of the payload buffer. */
  datatype Frame = Frame(len: byte, cmdType: byte, cmdId: byte, payload: seq<byte>) {
    predicate WellFormed() {
      |payload| == len <= MAX_PAYLOAD
    }

    /** Bytes on the wire. */
    function Size(): nat {
      |payload| + OVERHEAD
    }
  }

  datatype Status = Ok | InvalidArg | InvalidSize | InvalidCrc

  datatype DecodeResult = Decoded(frame: Frame) | Rejected(status: Status)

  /** The XOR of all bytes of `s`. */
  function XorAll(s: seq<byte>): byte {
    if s == [] then 0 else Xor(XorAll(s[..|s| - 1]), s[|s| - 1])
  }

  function Fcs(f: Frame): byte {
    XorAll([f.len, f.cmdType, f.cmdId] + f.payload)
  }

  function Encode(f: Frame): (image: seq<byte>)
    ensures |image| == f.Size() && image[0] == 0xFE
  {
    [SOF, f.len, f.cmdType, f.cmdId] + f.payload + [Fcs(f)]
  }

  function Decode(buf: seq<byte>): DecodeResult {
    if |buf| < OVERHEAD || buf[0] != SOF then
      Rejected(InvalidArg)
    else if |buf| < buf[1] + OVERHEAD then
      Rejected(InvalidSize)
    else
      var n := buf[1];
      var f := Frame(buf[1], buf[2], buf[3], buf[4..4 + n]);
      if Fcs(f) != buf[4 + n] then Rejected(InvalidCrc) else Decoded(f)
  }

  // ---------- The C struct and the three functions on it ----------

  /** The frame record that the encoder reads and the decoder and the receiver fill in place. */
  class FrameBuf {
    var payloadLen: byte
    var cmdType: byte
    var cmdId: byte
    const payload: array<byte>

    constructor ()
      ensures fresh(this) && fresh(payload) && payload.Length == MAX_PAYLOAD
    {
      payload := new byte[MAX_PAYLOAD];
    }

    ghost predicate Valid()
      reads this
    {
      payload.Length == MAX_PAYLOAD
    }

    /** The frame held, meaningful while the length byte does not exceed the buffer. */
    ghost function Value(): (f: Frame)
      requires Valid() && payloadLen <= MAX_PAYLOAD
      reads this, payload
      ensures f.WellFormed()
    {
      Frame(payloadLen, cmdType, cmdId, payload[..payloadLen])
    }
  }

  lemma {:induction false} XorAllSnoc(s: seq<byte>, b: byte)
    ensures XorAll(s + [b]) == Xor(XorAll(s), b)
  {
    assert (s + [b])[..|s|] == s;
  }

  lemma {:induction false} HeaderXor(a: byte, b: byte, c: byte)
    ensures XorAll([a, b, c]) == Xor(Xor(a, b), c)
  {
    XorNatZero(a);
    XorAllSnoc([], a);
    XorAllSnoc([a], b);
    XorAllSnoc([a, b], c);
    assert [] + [a] == [a] && [a] + [b] == [a, b] && [a, b] + [c] == [a, b, c];
  }

  method FcsCalculate(frame: FrameBuf) returns (fcs: byte)
    requires frame.Valid() && frame.payloadLen <= MAX_PAYLOAD
    ensures fcs == Fcs(frame.Value())
  {
    fcs := Xor(Xor(frame.payloadLen, frame.cmdType), frame.cmdId);
    ghost var header := [frame.payloadLen, frame.cmdType, frame.cmdId];
    HeaderXor(frame.payloadLen, frame.cmdType, frame.cmdId);
    assert header + frame.payload[..0] == header;
    for i := 0 to frame.payloadLen
      invariant fcs == XorAll(header + frame.payload[..i])
    {
      fcs := Xor(fcs, frame.payload[i]);
      XorAllSnoc(header + frame.payload[..i], frame.payload[i]);
      assert header + frame.payload[..i] + [frame.payload[i]] == header + frame.payload[..i + 1];
    }
  }

  /** Writes the wire image of `frame` to the front of `buf`, or nothing when it does not fit. */
  method FrameEncode(frame: FrameBuf, buf: array<byte>) returns (status: Status, outLen: nat)
    requires frame.Valid() && buf != frame.payload
    requires buf.Length >= frame.payloadLen + OVERHEAD ==> frame.payloadLen <= MAX_PAYLOAD
    modifies buf
    ensures status == if buf.Length < frame.payloadLen + OVERHEAD then InvalidSize else Ok
    ensures status == InvalidSize ==> buf[..] == old(buf[..])
    ensures status == Ok ==> outLen == frame.payloadLen + OVERHEAD
    ensures status == Ok ==> buf[..] == Encode(frame.Value()) + old(buf[..])[outLen..]
  {
    var n := frame.payloadLen;
    outLen := n + OVERHEAD;
    if buf.Length < outLen {
      return InvalidSize, 0;
    }
    buf[0], buf[1], buf[2], buf[3] := SOF, frame.payloadLen, frame.cmdType, frame.cmdId;
    forall i | 0 <= i < n {
      buf[4 + i] := frame.payload[i];
    }
    var fcs := FcsCalculate(frame);
    buf[4 + n] := fcs;
    status := Ok;
  }

  /** Reads one frame from the front of `buf` into `frame`. The frame is filled in before the check
      byte is compared, so it is overwritten on a CRC failure as well. A length byte above 250 would
      run past the payload buffer of the destination, so the source needs its callers to exclude it. */
  method FrameDecode(buf: array<byte>, len: nat, frame: FrameBuf) returns (status: Status)
    requires len <= buf.Length && frame.Valid() && buf != frame.payload
    requires OVERHEAD <= len && buf[0] == SOF && buf[1] + OVERHEAD <= len ==>
               buf[1] <= MAX_PAYLOAD
    modifies frame, frame.payload
    ensures status == match Decode(buf[..len]) { case Decoded(_) => Ok case Rejected(s) => s }
    ensures Decode(buf[..len]).Decoded? ==>
              frame.payloadLen <= MAX_PAYLOAD && Decode(buf[..len]) == Decoded(frame.Value())
    ensures status == InvalidCrc ==>
              frame.payloadLen <= MAX_PAYLOAD
              && [SOF] + [frame.payloadLen, frame.cmdType, frame.cmdId] + frame.Value().payload <= buf[..len]
    ensures status in {InvalidArg, InvalidSize} ==> unchanged(frame) && unchanged(frame.payload)
  {
    if len < OVERHEAD || buf[0] != SOF {
      return InvalidArg;
    }
    var n := buf[1];
    if len < n + OVERHEAD {
      return InvalidSize;
    }
    frame.payloadLen, frame.cmdType, frame.cmdId := buf[1], buf[2], buf[3];
    forall i | 0 <= i < n {
      frame.payload[i] := buf[4 + i];
    }
    ghost var wire := buf[..len];
    assert frame.Value() == Frame(wire[1], wire[2], wire[3], wire[4..4 + n]);
    var expected := FcsCalculate(frame);
    if expected != buf[4 + n] {
      return InvalidCrc;
    }
    return Ok;
  }

  // ---------- Round trips and error detection ----------

  /** The two functions are inverse to each other: a buffer decodes to `f` exactly when it starts
      with the wire image of `f`. Bytes after the image do not matter. */
  lemma {:induction false} DecodeIffEncoded(buf: seq<byte>, f: Frame)
    requires f.WellFormed()
    ensures Decode(buf) == Decoded(f) <==> Encode(f) <= buf
  {
    var n := |f.payload|;
    if Encode(f) <= buf {
      var image := Encode(f);
      assert forall i :: 0 <= i < |image| ==> image[i] == buf[i];
      assert buf[4..4 + n] == f.payload;
      assert buf[4 + n] == image[4 + n];
    }
    if Decode(buf) == Decoded(f) {
      assert Encode(f) == buf[..n + OVERHEAD];
    }
  }

  /** What the decoder accepts is itself well formed when its length byte respects the limit. */
  lemma {:induction false} DecodedIsWellFormed(buf: seq<byte>)
    requires Decode(buf).Decoded? && buf[1] <= MAX_PAYLOAD
    ensures Decode(buf).frame.WellFormed()
    ensures Encode(Decode(buf).frame) == buf[..buf[1] + OVERHEAD]
  {
    DecodeIffEncoded(buf, Decode(buf).frame);
  }

  /** An XOR over a sequence notices every change of a single element. */
  lemma {:induction false} XorAllUpdate(s: seq<byte>, i: nat, b: byte)
    requires i < |s| && b != s[i]
    ensures XorAll(s[i := b]) != XorAll(s)
  {
    var t := s[i := b];
    var init := s[..|s| - 1];
    if i == |s| - 1 {
      assert t[..|t| - 1] == init;
      XorCancel(XorAll(init), b, s[i]);
    } else {
      assert t[..|t| - 1] == init[i := b];
      XorAllUpdate(init, i, b);
      XorCancel(s[|s| - 1], XorAll(t[..|t| - 1]), XorAll(init));
    }
  }

  /** A complete candidate is accepted exactly when all bytes after SOF cancel out. */
  lemma {:induction false} AcceptedIffCancels(buf: seq<byte>)
    requires |buf| >= OVERHEAD && buf[0] == SOF && |buf| == buf[1] + OVERHEAD
    ensures Decode(buf).Decoded? <==> XorAll(buf[1..]) == 0
    ensures !Decode(buf).Decoded? ==> Decode(buf) == Rejected(InvalidCrc)
  {
    var n := buf[1];
    var body := buf[1..];
    assert body[..|body| - 1] == [buf[1], buf[2], buf[3]] + buf[4..4 + n];
    XorCancel(XorAll(body[..|body| - 1]), buf[4 + n], 0);
  }

  /** Changing one byte of the command, the payload or the check byte of any frame is detected. */
  lemma {:induction false} SingleByteCorruptionDetected(f: Frame, i: nat, b: byte)
    requires f.WellFormed() && 2 <= i < |Encode(f)| && b != Encode(f)[i]
    ensures Decode(Encode(f)[i := b]) == Rejected(InvalidCrc)
  {
    var image := Encode(f);
    DecodeIffEncoded(image, f);
    AcceptedIffCancels(image);
    XorAllUpdate(image[1..], i - 1, b);
    assert image[i := b][1..] == image[1..][i - 1 := b];
    AcceptedIffCancels(image[i := b]);
  }
}
