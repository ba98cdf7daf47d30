/** Attribute reports: the record list of a ZCL report body and its translation into typed values. */
module AttrReports {
  import opened Bits
  import opened Subsequences

  const CLUSTER_ONOFF: Word16 := 0x0006
  const CLUSTER_LEVEL: Word16 := 0x0008
  const CLUSTER_ANALOG_INPUT: Word16 := 0x000C
  const CLUSTER_BINARY_INPUT: Word16 := 0x000F
  const CLUSTER_BINARY_OUTPUT: Word16 := 0x0010
  const CLUSTER_COLOR: Word16 := 0x0300
  const CLUSTER_ILLUMINANCE: Word16 := 0x0400
  const CLUSTER_TEMPERATURE: Word16 := 0x0402
  const CLUSTER_PRESSURE: Word16 := 0x0403
  const CLUSTER_HUMIDITY: Word16 := 0x0405
  const CLUSTER_OCCUPANCY: Word16 := 0x0406
  const CLUSTER_IAS_ZONE: Word16 := 0x0500
  const CLUSTER_METERING: Word16 := 0x0702
  const CLUSTER_ELECTRICAL: Word16 := 0x0B04

  // ---------- Record list ----------

  datatype AttrRecord = AttrRecord(attrId: Word16, dtype: byte, value: seq<byte>) {
    /** A known type and a value of exactly its size. */
    predicate WellTyped() {
      TypeSize(dtype) > 0 && |value| == TypeSize(dtype)
    }
  }

  predicate AllWellTyped(records: seq<AttrRecord>) {
    forall i :: 0 <= i < |records| ==> records[i].WellTyped()
  }

  /** Bytes of a value of a type, or 0 for a type that is not known. */
  function TypeSize(dtype: byte): (size: nat)
    ensures size <= 6
  {
    if dtype in {0x10, 0x18, 0x20, 0x28} then 1
    else if dtype in {0x19, 0x21, 0x29} then 2
    else if dtype in {0x22, 0x2A} then 3
    else if dtype in {0x23, 0x2B, 0x39} then 4
    else if dtype in {0x25, 0x2D} then 6
    else 0
  }

  function U16(lo: byte, hi: byte): Word16 {
    lo + 256 * hi
  }

  /** One record on the wire: attribute id, type and value, little-endian. */
  function Image(r: AttrRecord): seq<byte> {
    [r.attrId % 256, r.attrId / 256, r.dtype] + r.value
  }

  function Serialise(records: seq<AttrRecord>): seq<byte> {
    if records == [] then [] else Image(records[0]) + Serialise(records[1..])
  }

  /** The report loop: it stops at the first record that is cut off or of an unknown type. */
  function ParseBody(body: seq<byte>): seq<AttrRecord>
    decreases |body|
  {
    if |body| < 4 then []
    else
      var size := TypeSize(body[2]);
      if size == 0 || |body| < 3 + size then []
      else [AttrRecord(U16(body[0], body[1]), body[2], body[3..3 + size])] + ParseBody(body[3 + size..])
  }

  predicate StartsWithRecord(body: seq<byte>) {
    |body| >= 3 && TypeSize(body[2]) > 0 && |body| >= 3 + TypeSize(body[2])
  }

  lemma {:induction false} ParseImage(r: AttrRecord, rest: seq<byte>)
    requires r.WellTyped()
    ensures ParseBody(Image(r) + rest) == [r] + ParseBody(rest)
  {
    var body := Image(r) + rest;
    assert body[3..3 + |r.value|] == r.value;
    assert body[3 + |r.value|..] == rest;
  }

  lemma {:induction false} ParseSerialise(records: seq<AttrRecord>, rest: seq<byte>)
    requires AllWellTyped(records)
    ensures ParseBody(Serialise(records) + rest) == records + ParseBody(rest)
    decreases |records|
  {
    if records == [] {
      assert Serialise(records) + rest == rest;
      assert records + ParseBody(rest) == ParseBody(rest);
    } else {
      var tail := Serialise(records[1..]);
      Assoc(Image(records[0]), tail, rest);
      ParseImage(records[0], tail + rest);
      ParseSerialise(records[1..], rest);
      Assoc([records[0]], records[1..], ParseBody(rest));
      assert [records[0]] + records[1..] == records;
    }
  }

  /** What the loop finds is well typed and is the front of the body; what it leaves is no record. */
  lemma {:induction false} ParsedPrefix(body: seq<byte>) returns (rest: seq<byte>)
    ensures body == Serialise(ParseBody(body)) + rest
    ensures AllWellTyped(ParseBody(body))
    ensures !StartsWithRecord(rest)
    decreases |body|
  {
    if !StartsWithRecord(body) {
      rest := body;
      assert [] + body == body;
    } else {
      var size := TypeSize(body[2]);
      var r := AttrRecord(U16(body[0], body[1]), body[2], body[3..3 + size]);
      rest := ParsedPrefix(body[3 + size..]);
      var records := ParseBody(body);
      assert records == [r] + ParseBody(body[3 + size..]);
      assert records[1..] == ParseBody(body[3 + size..]);
      assert body == Image(r) + body[3 + size..];
      assert body == Image(r) + Serialise(records[1..]) + rest;
    }
  }

  /** The loop finds exactly the maximal well-formed prefix, for every body. */
  lemma {:induction false} ParsesMaximalPrefix(body: seq<byte>, records: seq<AttrRecord>)
    ensures ParseBody(body) == records
            <==> exists rest :: body == Serialise(records) + rest && !StartsWithRecord(rest)
                                && AllWellTyped(records)
  {
    if ParseBody(body) == records {
      var rest := ParsedPrefix(body);
    }
    if exists rest :: body == Serialise(records) + rest && !StartsWithRecord(rest)
                      && AllWellTyped(records) {
      var rest :| body == Serialise(records) + rest && !StartsWithRecord(rest)
                  && AllWellTyped(records);
      ParseSerialise(records, rest);
      assert ParseBody(rest) == [];
      assert records + [] == records;
    }
  }

  // ---------- Typed values ----------

  /** The value of an event; what the record does not set stays 0, as in the zeroed C union. */
  datatype CapValue =
    | OnOff(on: bool)
    | Level(level: byte)
    | ColorXy(x: nat, y: nat)
    | Temperature(hundredths: int)
    | Humidity(humidity: nat)
    | Illuminance(lux: nat)
    | Pressure(hpa: int)
    | Occupancy(occupied: bool)
    | IasZone(zoneState: nat, zoneType: nat, zoneStatus: nat)
    | Metering(delivered: nat, received: nat, demand: int)
    | Electrical(voltage: nat, current: nat, power: int, factor: int)
    | AnalogInput(bits: nat)
    | BinaryInput(input: bool)
    | BinaryOutput(output: bool)
    | Raw(attrId: Word16, dtype: byte, raw: seq<byte>)

  function Le(v: seq<byte>, n: nat): nat
    requires n <= |v|
  {
    LittleEndian(v[..n])
  }

  /** Up to eight raw bytes in a zeroed buffer of eight. */
  function RawBytes(v: seq<byte>): (r: seq<byte>)
    ensures |r| == 8
  {
    if |v| >= 8 then v[..8] else v + seq(8 - |v|, _ => 0)
  }

  function Typed(cluster: Word16, attrId: Word16, dtype: byte, v: seq<byte>): CapValue
    requires |v| >= 1
  {
    if cluster == CLUSTER_ONOFF then OnOff(v[0] != 0)
    else if cluster == CLUSTER_LEVEL then Level(v[0])
    else if cluster == CLUSTER_COLOR then
      if attrId == 0x0003 && |v| >= 2 then ColorXy(Le(v, 2), 0)
      else if attrId == 0x0004 && |v| >= 2 then ColorXy(0, Le(v, 2))
      else ColorXy(0, 0)
    else if cluster == CLUSTER_TEMPERATURE then
      Temperature(if |v| >= 2 then Signed(Le(v, 2), 16) else 0)
    else if cluster == CLUSTER_HUMIDITY then Humidity(if |v| >= 2 then Le(v, 2) else 0)
    else if cluster == CLUSTER_ILLUMINANCE then Illuminance(if |v| >= 2 then Le(v, 2) else 0)
    else if cluster == CLUSTER_PRESSURE then
      Pressure(if attrId == 0 && |v| >= 2 then Signed(Le(v, 2), 16) else 0)
    else if cluster == CLUSTER_OCCUPANCY then Occupancy(attrId == 0 && v[0] % 2 == 1)
    else if cluster == CLUSTER_IAS_ZONE then
      if attrId == 0x0000 then IasZone(v[0], 0, 0)
      else if attrId == 0x0001 && |v| >= 2 then IasZone(0, Le(v, 2), 0)
      else if attrId == 0x0002 && |v| >= 2 then IasZone(0, 0, Le(v, 2))
      else IasZone(0, 0, 0)
    else if cluster == CLUSTER_METERING then
      if attrId == 0x0000 && |v| >= 6 then Metering(Le(v, 6), 0, 0)
      else if attrId == 0x0001 && |v| >= 6 then Metering(0, Le(v, 6), 0)
      else if attrId == 0x0400 && |v| >= 3 then Metering(0, 0, Signed(Le(v, 3), 24))
      else Metering(0, 0, 0)
    else if cluster == CLUSTER_ELECTRICAL then
      if |v| < 2 then Electrical(0, 0, 0, 0)
      else if attrId == 0x0505 then Electrical(Le(v, 2), 0, 0, 0)
      else if attrId == 0x0508 then Electrical(0, Le(v, 2), 0, 0)
      else if attrId == 0x050B then Electrical(0, 0, Signed(Le(v, 2), 16), 0)
      else if attrId == 0x0510 then Electrical(0, 0, 0, Signed(v[0], 8))
      else Electrical(0, 0, 0, 0)
    else if cluster == CLUSTER_ANALOG_INPUT then
      AnalogInput(if attrId == 0x0055 && |v| >= 4 then Le(v, 4) else 0)
    else if cluster == CLUSTER_BINARY_INPUT then BinaryInput(attrId == 0x0055 && v[0] != 0)
    else if cluster == CLUSTER_BINARY_OUTPUT then BinaryOutput(attrId == 0x0055 && v[0] != 0)
    else Raw(attrId, dtype, RawBytes(v))
  }

  /** The byte-assembly loop of the metering summations. */
  method AssembleWord(v: seq<byte>, n: nat) returns (s: nat)
    requires n <= |v|
    ensures s == Le(v, n)
  {
    s := 0;
    for i := 0 to n
      invariant s == LittleEndian(v[..i])
    {
      LittleEndianSnoc(v[..i], v[i]);
      assert v[..i + 1] == v[..i] + [v[i]];
      s := s + v[i] * Pow2(8 * i);
    }
  }

  /** Metering summations are exact for every 48-bit value. */
  lemma {:induction false} SummationExact(n: nat, attrId: Word16, dtype: byte)
    requires n < Pow2(48) && attrId in {0, 1}
    ensures Typed(CLUSTER_METERING, attrId, dtype, ToLittleEndian(n, 6))
            == if attrId == 0 then Metering(n, 0, 0) else Metering(0, n, 0)
  {
    LittleEndianOf(n, 6);
    assert ToLittleEndian(n, 6)[..6] == ToLittleEndian(n, 6);
  }

  lemma {:induction false} DemandBounds()
    ensures Pow2(23) == 0x80_0000 && Pow2(24) == 0x100_0000
  {
    Pow2Byte(0);
    Pow2Byte(8);
    assert Pow2(20) == 16 * Pow2(16);
    assert Pow2(22) == 4 * Pow2(20);
  }

  /** The instantaneous demand is exact for every 24-bit two's complement value. */
  lemma {:induction false} DemandExact(n: int, dtype: byte)
    requires -0x80_0000 <= n < 0x80_0000
    ensures Typed(CLUSTER_METERING, 0x0400, dtype, ToLittleEndian(n % 0x100_0000, 3)) == Metering(0, 0, n)
  {
    DemandBounds();
    LittleEndianOf(n % 0x100_0000, 3);
    assert ToLittleEndian(n % 0x100_0000, 3)[..3] == ToLittleEndian(n % 0x100_0000, 3);
  }

  lemma {:induction false} WordBounds()
    ensures Pow2(15) == 0x8000 && Pow2(16) == 0x1_0000
  {
    Pow2Byte(0);
    Pow2Byte(8);
    assert Pow2(16) == 2 * Pow2(15);
  }

  lemma {:induction false} WordRead(n: Word16)
    ensures Le(ToLittleEndian(n, 2), 2) == n
  {
    WordBounds();
    LittleEndianOf(n, 2);
    assert ToLittleEndian(n, 2)[..2] == ToLittleEndian(n, 2);
  }

  /** Unsigned 16-bit attributes are exact, each in its own place. */
  lemma {:induction false} WordsExact(n: Word16, attrId: Word16, dtype: byte, v: seq<byte>)
    requires v == ToLittleEndian(n, 2)
    ensures Typed(CLUSTER_HUMIDITY, attrId, dtype, v) == Humidity(n)
    ensures Typed(CLUSTER_ILLUMINANCE, attrId, dtype, v) == Illuminance(n)
    ensures Typed(CLUSTER_COLOR, 0x0003, dtype, v) == ColorXy(n, 0)
    ensures Typed(CLUSTER_COLOR, 0x0004, dtype, v) == ColorXy(0, n)
    ensures Typed(CLUSTER_IAS_ZONE, 0x0001, dtype, v) == IasZone(0, n, 0)
    ensures Typed(CLUSTER_IAS_ZONE, 0x0002, dtype, v) == IasZone(0, 0, n)
    ensures Typed(CLUSTER_ELECTRICAL, 0x0505, dtype, v) == Electrical(n, 0, 0, 0)
    ensures Typed(CLUSTER_ELECTRICAL, 0x0508, dtype, v) == Electrical(0, n, 0, 0)
  {
    WordRead(n);
  }

  lemma {:induction false} SignedWord(n: int)
    requires -0x8000 <= n < 0x8000
    ensures Signed(n % 0x1_0000, 16) == n
  {
    WordBounds();
  }

  /** Signed 16-bit attributes are exact for every two's complement value. */
  lemma {:induction false} SignedWordsExact(n: int, attrId: Word16, dtype: byte, v: seq<byte>)
    requires -0x8000 <= n < 0x8000 && v == ToLittleEndian(n % 0x1_0000, 2)
    ensures Typed(CLUSTER_TEMPERATURE, attrId, dtype, v) == Temperature(n)
    ensures Typed(CLUSTER_PRESSURE, 0x0000, dtype, v) == Pressure(n)
    ensures Typed(CLUSTER_ELECTRICAL, 0x050B, dtype, v) == Electrical(0, 0, n, 0)
  {
    WordRead(n % 0x1_0000);
    SignedWord(n);
  }

  /** All 32 bits of a float are passed on. */
  lemma {:induction false} FloatBitsExact(n: nat, dtype: byte)
    requires n < Pow2(32)
    ensures Typed(CLUSTER_ANALOG_INPUT, 0x0055, dtype, ToLittleEndian(n, 4)) == AnalogInput(n)
  {
    LittleEndianOf(n, 4);
    assert ToLittleEndian(n, 4)[..4] == ToLittleEndian(n, 4);
  }

  /** The power factor that is reported is the one that was sent exactly when the value is longer than its
      one-byte type, or 0. */
  lemma {:induction false} PowerFactorTranslatedIff(dtype: byte, v: seq<byte>)
    requires |v| >= 1
    ensures Typed(CLUSTER_ELECTRICAL, 0x0510, dtype, v).factor == Signed(v[0], 8) <==> |v| >= 2 || v[0] == 0
  {
    Pow2Byte(0);
    assert Pow2(8) == 2 * Pow2(7);
  }

  // ---------- Events ----------

  datatype CapEvent = CapEvent(ieee: nat, capId: nat, value: CapValue)

  function CapId(ep: byte, cluster: Word16): nat {
    ep * 0x1_0000 + cluster
  }

  function EventOf(ieee: nat, ep: byte, cluster: Word16, r: AttrRecord): CapEvent
    requires |r.value| >= 1
  {
    CapEvent(ieee, CapId(ep, cluster), Typed(cluster, r.attrId, r.dtype, r.value))
  }

  /** One typed event for each record, in order. */
  function EventsOf(ieee: nat, ep: byte, cluster: Word16, records: seq<AttrRecord>): (events: seq<CapEvent>)
    requires AllWellTyped(records)
    ensures |events| == |records|
    ensures forall i :: 0 <= i < |records| ==> events[i] == EventOf(ieee, ep, cluster, records[i])
  {
    seq(|records|, i requires 0 <= i < |records| => EventOf(ieee, ep, cluster, records[i]))
  }

  lemma {:induction false} ParsedWellTyped(body: seq<byte>)
    ensures AllWellTyped(ParseBody(body))
    decreases |body|
  {
    if StartsWithRecord(body) {
      ParsedWellTyped(body[3 + TypeSize(body[2])..]);
    }
  }

  lemma {:induction false} EventsSnoc(ieee: nat, ep: byte, cluster: Word16, records: seq<AttrRecord>, r: AttrRecord)
    requires AllWellTyped(records) && r.WellTyped()
    ensures AllWellTyped(records + [r])
    ensures EventsOf(ieee, ep, cluster, records + [r])
            == EventsOf(ieee, ep, cluster, records) + [EventOf(ieee, ep, cluster, r)]
  {
  }

  lemma {:induction false} NoRecord(rest: seq<byte>)
    requires !StartsWithRecord(rest)
    ensures ParseBody(rest) == []
  {
  }

  /** The loop over a report body, with an advancing position and a count of the bytes left. */
  method DispatchReports(ieee: nat, ep: byte, cluster: Word16, body: seq<byte>) returns (events: seq<CapEvent>)
    ensures AllWellTyped(ParseBody(body))
            && events == EventsOf(ieee, ep, cluster, ParseBody(body))
  {
    ParsedWellTyped(body);
    events := [];
    var rp := 0;
    var remaining := |body|;
    ghost var done: seq<AttrRecord> := [];
    while remaining >= 4
      invariant 0 <= rp && 0 <= remaining && rp + remaining == |body|
      invariant ParseBody(body) == done + ParseBody(body[rp..])
      invariant AllWellTyped(done)
      invariant events == EventsOf(ieee, ep, cluster, done)
    {
      var attrId := U16(body[rp], body[rp + 1]);
      var dtype := body[rp + 2];
      var size := TypeSize(dtype);
      if size == 0 || remaining < 3 + size {
        break;
      }
      var r := AttrRecord(attrId, dtype, body[rp + 3..rp + 3 + size]);
      RecordAt(body, rp, done, r);
      EventsSnoc(ieee, ep, cluster, done, r);
      events := events + [EventOf(ieee, ep, cluster, r)];
      done := done + [r];
      rp := rp + 3 + size;
      remaining := remaining - (3 + size);
    }
    NoRecord(body[rp..]);
    assert done + [] == done;
  }

  /** The record at a position, behind those parsed before. */
  lemma {:induction false} RecordAt(body: seq<byte>, rp: nat, done: seq<AttrRecord>, r: AttrRecord)
    requires rp + 3 <= |body| && TypeSize(body[rp + 2]) > 0 && rp + 3 + TypeSize(body[rp + 2]) <= |body|
    requires ParseBody(body) == done + ParseBody(body[rp..])
    requires r == AttrRecord(U16(body[rp], body[rp + 1]), body[rp + 2], body[rp + 3..rp + 3 + TypeSize(body[rp + 2])])
    ensures r.WellTyped()
    ensures ParseBody(body) == done + [r] + ParseBody(body[rp + 3 + TypeSize(body[rp + 2])..])
  {
    SameSlices(body, rp, TypeSize(body[rp + 2]));
    NextRecord(body, body[rp..], done);
  }

  lemma {:induction false} SameSlices(body: seq<byte>, rp: nat, size: nat)
    requires rp + 3 + size <= |body|
    ensures body[rp + 3..rp + 3 + size] == body[rp..][3..3 + size]
    ensures body[rp + 3 + size..] == body[rp..][3 + size..]
    ensures body[rp..][0] == body[rp] && body[rp..][1] == body[rp + 1] && body[rp..][2] == body[rp + 2]
  {
  }

  function FirstRecord(body: seq<byte>): AttrRecord
    requires StartsWithRecord(body)
  {
    AttrRecord(U16(body[0], body[1]), body[2], body[3..3 + TypeSize(body[2])])
  }

  lemma {:induction false} NextRecord(body: seq<byte>, rest: seq<byte>, done: seq<AttrRecord>)
    requires StartsWithRecord(rest) && ParseBody(body) == done + ParseBody(rest)
    ensures ParseBody(body) == done + [FirstRecord(rest)] + ParseBody(rest[3 + TypeSize(rest[2])..])
    ensures FirstRecord(rest).WellTyped()
  {
    Assoc(done, [FirstRecord(rest)], ParseBody(rest[3 + TypeSize(rest[2])..]));
  }
}
