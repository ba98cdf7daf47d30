/** From the bytes of a message to the events it causes, by the numbers of the ZCL specification (Zigbee document
    07-5123, sections 2.5.11 and 2.6.2). */
module ReportBytes {
  import opened Bits
  import opened AttrReports
  import opened DeviceRegistry

  // ---------- Types ----------

  /** The size of a value by the number of its type: bitmaps from 0x18, unsigned numbers from 0x20 and signed ones
      from 0x28 on have 1, 2, 3, .. bytes. Five-byte types and all others are not known. */
  function SizeByNumber(dtype: byte): nat {
    if dtype == 0x10 then 1
    else if 0x18 <= dtype <= 0x19 then dtype - 0x17
    else if 0x20 <= dtype <= 0x25 && dtype != 0x24 then dtype - 0x1F
    else if 0x28 <= dtype <= 0x2D && dtype != 0x2C then dtype - 0x27
    else if dtype == 0x39 then 4
    else 0
  }

  /** The table of the parser is the numbering, for the fourteen known types and for all others. */
  lemma {:induction false} TypeSizeByNumber(dtype: byte)
    ensures TypeSize(dtype) == SizeByNumber(dtype)
    ensures TypeSize(dtype) > 0
            <==> dtype in {0x10, 0x18, 0x19, 0x20, 0x21, 0x22, 0x23, 0x25, 0x28, 0x29, 0x2A, 0x2B, 0x2D, 0x39}
  {
  }

  /** The first record of a body, and what is behind it. */
  lemma {:induction false} RecordFromBytes(a0: byte, a1: byte, dtype: byte, value: seq<byte>, rest: seq<byte>)
    requires value != [] && |value| == SizeByNumber(dtype)
    ensures ParseBody([a0, a1, dtype] + value + rest)
            == [AttrRecord(Word(a0, a1), dtype, value)] + ParseBody(rest)
  {
    var r := AttrRecord(Word(a0, a1), dtype, value);
    TypeSizeByNumber(dtype);
    assert Image(r) == [a0, a1, dtype] + value;
    ParseImage(r, rest);
  }

  /** A record of an unknown type, or one that is cut off, ends the list with all that is behind it. */
  lemma {:induction false} UnknownTypeEnds(body: seq<byte>)
    requires |body| >= 3 ==> SizeByNumber(body[2]) == 0 || |body| < 3 + SizeByNumber(body[2])
    ensures ParseBody(body) == []
  {
    if |body| >= 3 {
      TypeSizeByNumber(body[2]);
    }
  }

  // ---------- Messages ----------

  function Word(lo: nat, hi: nat): Word16
    requires lo < 256 && hi < 256
  {
    lo + 256 * hi
  }

  /** A capability: the endpoint above 16 bits of cluster. */
  function Capability(ep: nat, cluster: nat): nat {
    ep * 0x1_0000 + cluster
  }

  function SenderSlot(r: Reg, head: seq<byte>): nat
    requires |head| == 16
  {
    FindNwk(r.slots, Word(head[4], head[5]))
  }

  predicate FromKnown(r: Reg, head: seq<byte>)
    requires |head| == 16
  {
    SenderSlot(r, head) < |r.slots|
  }

  /** The cluster that a header names. */
  function ClusterOf(head: seq<byte>): Word16
    requires |head| == 16
  {
    Word(head[2], head[3])
  }

  /** An AF message: the header, the length of the ZCL part, the ZCL part. */
  function Message(head: seq<byte>, zcl: seq<byte>): seq<byte>
    requires |zcl| <= 233
  {
    head + [|zcl|] + zcl
  }

  /** A ZCL report command. */
  function ReportZcl(fc: byte, sn: byte, body: seq<byte>): seq<byte> {
    [fc, sn, 0x0A] + body
  }

  /** An event from the sender of a message, for its endpoint and cluster. */
  function ReportOf(r: Reg, head: seq<byte>, value: CapValue): RegEvent
    requires |head| == 16 && FromKnown(r, head)
  {
    Report(CapEvent(r.slots[SenderSlot(r, head)].ieee, Capability(head[6], ClusterOf(head)), value))
  }

  lemma {:induction false} ZclReport(ieee: nat, ep: byte, cluster: Word16, fc: byte, sn: byte, body: seq<byte>,
                                     records: seq<AttrRecord>)
    requires ParseBody(body) == records && AllWellTyped(records)
    ensures ZclEvents(ieee, ep, cluster, ReportZcl(fc, sn, body)) == EventsOf(ieee, ep, cluster, records)
  {
    assert ReportZcl(fc, sn, body)[3..] == body;
  }

  lemma {:induction false} MessageEvents(r: Reg, head: seq<byte>, fc: byte, sn: byte, body: seq<byte>, records: seq<AttrRecord>)
    requires |head| == 16 && FromKnown(r, head) && |body| <= 230 && ParseBody(body) == records && AllWellTyped(records)
    ensures AfDefined(Message(head, ReportZcl(fc, sn, body)))
    ensures AfIncoming(r, Message(head, ReportZcl(fc, sn, body))).events
            == r.events + Reports(EventsOf(r.slots[SenderSlot(r, head)].ieee, head[6], ClusterOf(head), records))
  {
    AfEvents(r, head, ReportZcl(fc, sn, body));
    ZclReport(r.slots[SenderSlot(r, head)].ieee, head[6], ClusterOf(head), fc, sn, body, records);
  }

  /** The bytes of a record. */
  function RecordBytes(a0: byte, a1: byte, dtype: byte, value: seq<byte>): seq<byte> {
    [a0, a1, dtype] + value
  }

  lemma {:induction false} ParseOne(a0: byte, a1: byte, dtype: byte, value: seq<byte>)
    requires value != [] && |value| == SizeByNumber(dtype)
    ensures ParseBody(RecordBytes(a0, a1, dtype, value)) == [AttrRecord(Word(a0, a1), dtype, value)]
    ensures AttrRecord(Word(a0, a1), dtype, value).WellTyped() && |value| <= 6
  {
    assert RecordBytes(a0, a1, dtype, value) + [] == RecordBytes(a0, a1, dtype, value);
    RecordFromBytes(a0, a1, dtype, value, []);
    UnknownTypeEnds([]);
    TypeSizeByNumber(dtype);
  }

  lemma {:induction false} EventsOfOne(r: Reg, head: seq<byte>, one: AttrRecord)
    requires |head| == 16 && FromKnown(r, head) && one.WellTyped()
    ensures Reports(EventsOf(r.slots[SenderSlot(r, head)].ieee, head[6], ClusterOf(head), [one]))
            == [ReportOf(r, head, Typed(ClusterOf(head), one.attrId, one.dtype, one.value))]
  {
  }

  lemma {:induction false} EventsOfTwo(r: Reg, head: seq<byte>, one: AttrRecord, two: AttrRecord)
    requires |head| == 16 && FromKnown(r, head) && one.WellTyped() && two.WellTyped()
    ensures Reports(EventsOf(r.slots[SenderSlot(r, head)].ieee, head[6], ClusterOf(head), [one, two]))
            == [ReportOf(r, head, Typed(ClusterOf(head), one.attrId, one.dtype, one.value)),
                ReportOf(r, head, Typed(ClusterOf(head), two.attrId, two.dtype, two.value))]
  {
  }

  /** A message with one record of a known type from a known device causes exactly one event, with the value of its
      bytes. */
  lemma {:induction false} OneRecord(r: Reg, head: seq<byte>, fc: byte, sn: byte, a0: byte, a1: byte, dtype: byte,
                                     value: seq<byte>)
    requires |head| == 16 && FromKnown(r, head) && value != [] && |value| == SizeByNumber(dtype)
    ensures |RecordBytes(a0, a1, dtype, value)| <= 9
    ensures AfDefined(Message(head, ReportZcl(fc, sn, RecordBytes(a0, a1, dtype, value))))
    ensures AfIncoming(r, Message(head, ReportZcl(fc, sn, RecordBytes(a0, a1, dtype, value)))).events
            == r.events + [ReportOf(r, head, Typed(ClusterOf(head), Word(a0, a1), dtype, value))]
  {
    var one := AttrRecord(Word(a0, a1), dtype, value);
    ParseOne(a0, a1, dtype, value);
    MessageEvents(r, head, fc, sn, RecordBytes(a0, a1, dtype, value), [one]);
    EventsOfOne(r, head, one);
  }

  lemma {:induction false} ParseTwo(a0: byte, a1: byte, dtype: byte, value: seq<byte>,
                                    b0: byte, b1: byte, dtype2: byte, value2: seq<byte>)
    requires value != [] && |value| == SizeByNumber(dtype) && value2 != [] && |value2| == SizeByNumber(dtype2)
    ensures ParseBody(RecordBytes(a0, a1, dtype, value) + RecordBytes(b0, b1, dtype2, value2))
            == [AttrRecord(Word(a0, a1), dtype, value), AttrRecord(Word(b0, b1), dtype2, value2)]
  {
    ParseOne(b0, b1, dtype2, value2);
    RecordFromBytes(a0, a1, dtype, value, RecordBytes(b0, b1, dtype2, value2));
  }

  /** Two records of known types cause exactly two events, in order, each with the value of its own bytes. */
  lemma {:induction false} TwoRecords(r: Reg, head: seq<byte>, fc: byte, sn: byte, a0: byte, a1: byte, dtype: byte,
                                      value: seq<byte>, b0: byte, b1: byte, dtype2: byte, value2: seq<byte>)
    requires |head| == 16 && FromKnown(r, head)
    requires value != [] && |value| == SizeByNumber(dtype) && value2 != [] && |value2| == SizeByNumber(dtype2)
    ensures |RecordBytes(a0, a1, dtype, value) + RecordBytes(b0, b1, dtype2, value2)| <= 18
    ensures var body := RecordBytes(a0, a1, dtype, value) + RecordBytes(b0, b1, dtype2, value2);
            && AfDefined(Message(head, ReportZcl(fc, sn, body)))
            && AfIncoming(r, Message(head, ReportZcl(fc, sn, body))).events
               == r.events + [ReportOf(r, head, Typed(ClusterOf(head), Word(a0, a1), dtype, value)),
                              ReportOf(r, head, Typed(ClusterOf(head), Word(b0, b1), dtype2, value2))]
  {
    var body := RecordBytes(a0, a1, dtype, value) + RecordBytes(b0, b1, dtype2, value2);
    var one, two := AttrRecord(Word(a0, a1), dtype, value), AttrRecord(Word(b0, b1), dtype2, value2);
    ParseOne(a0, a1, dtype, value);
    ParseOne(b0, b1, dtype2, value2);
    ParseTwo(a0, a1, dtype, value, b0, b1, dtype2, value2);
    MessageEvents(r, head, fc, sn, body, [one, two]);
    EventsOfTwo(r, head, one, two);
  }

  // ---------- Values, by the numbers of clusters and attributes ----------

  lemma {:induction false} LeOne(b: byte)
    ensures LittleEndian([b]) == b
  {
    assert [b][1..] == [];
  }

  lemma {:induction false} LeCons(b: byte, rest: seq<byte>)
    ensures LittleEndian([b] + rest) == b + 256 * LittleEndian(rest)
  {
    assert ([b] + rest)[1..] == rest;
  }

  lemma {:induction false} LeTwo(lo: byte, hi: byte)
    ensures LittleEndian([lo, hi]) == Word(lo, hi)
  {
    assert [lo, hi] == [lo] + [hi];
    LeCons(lo, [hi]);
    LeOne(hi);
  }

  lemma {:induction false} LeThree(b0: byte, b1: byte, b2: byte)
    ensures LittleEndian([b0, b1, b2]) == b0 + 0x100 * b1 + 0x1_0000 * b2
  {
    assert [b0, b1, b2] == [b0] + [b1, b2];
    LeCons(b0, [b1, b2]);
    LeTwo(b1, b2);
  }

  lemma {:induction false} LeFour(b0: byte, b1: byte, b2: byte, b3: byte)
    ensures LittleEndian([b0, b1, b2, b3]) == b0 + 0x100 * b1 + 0x1_0000 * b2 + 0x100_0000 * b3
  {
    assert [b0, b1, b2, b3] == [b0] + [b1, b2, b3];
    LeCons(b0, [b1, b2, b3]);
    LeThree(b1, b2, b3);
  }

  lemma {:induction false} LeSix(b0: byte, b1: byte, b2: byte, b3: byte, b4: byte, b5: byte)
    ensures LittleEndian([b0, b1, b2, b3, b4, b5])
            == b0 + 0x100 * b1 + 0x1_0000 * b2 + 0x100_0000 * b3 + 0x1_0000_0000 * b4 + 0x100_0000_0000 * b5
  {
    assert [b0, b1, b2, b3, b4, b5] == [b0] + ([b1] + [b2, b3, b4, b5]);
    LeCons(b0, [b1] + [b2, b3, b4, b5]);
    LeCons(b1, [b2, b3, b4, b5]);
    LeFour(b2, b3, b4, b5);
  }

  /** Two's complement of 16 and 24 bits. */
  lemma {:induction false} SignedByTop(lo: nat, top: byte)
    ensures lo < 0x100 ==> Signed(lo + 0x100 * top, 16) == if top < 128 then lo + 0x100 * top else lo + 0x100 * top - 0x1_0000
    ensures lo < 0x1_0000 ==>
              Signed(lo + 0x1_0000 * top, 24) == if top < 128 then lo + 0x1_0000 * top else lo + 0x1_0000 * top - 0x100_0000
  {
    WordBounds();
    DemandBounds();
  }

  /** One byte: on/off, level, occupancy, zone state, binary input and output. */
  lemma {:induction false} ByteValues(attr: Word16, dtype: byte, b: byte)
    ensures Typed(0x0006, attr, dtype, [b]) == OnOff(b != 0)
    ensures Typed(0x0008, attr, dtype, [b]) == Level(b)
    ensures Typed(0x0406, 0x0000, dtype, [b]) == Occupancy(b % 2 == 1)
    ensures Typed(0x0500, 0x0000, dtype, [b]) == IasZone(b, 0, 0)
    ensures Typed(0x000F, 0x0055, dtype, [b]) == BinaryInput(b != 0)
    ensures Typed(0x0010, 0x0055, dtype, [b]) == BinaryOutput(b != 0)
  {
  }

  lemma {:induction false} LeFront(v: seq<byte>)
    ensures Le(v, |v|) == LittleEndian(v)
  {
    assert v[..|v|] == v;
  }

  /** Two bytes: colour, environment, zone type and status, electrical values. */
  lemma {:induction false} WordValues(attr: Word16, dtype: byte, lo: byte, hi: byte, v: seq<byte>, n: nat)
    requires v == [lo, hi] && n == Word(lo, hi)
    ensures Typed(0x0405, attr, dtype, v) == Humidity(n)
    ensures Typed(0x0400, attr, dtype, v) == Illuminance(n)
    ensures Typed(0x0300, 0x0003, dtype, v) == ColorXy(n, 0)
    ensures Typed(0x0300, 0x0004, dtype, v) == ColorXy(0, n)
    ensures Typed(0x0500, 0x0001, dtype, v) == IasZone(0, n, 0)
    ensures Typed(0x0500, 0x0002, dtype, v) == IasZone(0, 0, n)
    ensures Typed(0x0B04, 0x0505, dtype, v) == Electrical(n, 0, 0, 0)
    ensures Typed(0x0B04, 0x0508, dtype, v) == Electrical(0, n, 0, 0)
  {
    LeTwo(lo, hi);
    LeFront(v);
  }

  lemma {:induction false} SignedWordValues(attr: Word16, dtype: byte, lo: byte, hi: byte, v: seq<byte>, n: int)
    requires v == [lo, hi] && n == if hi < 128 then Word(lo, hi) else Word(lo, hi) - 0x1_0000
    ensures Typed(0x0402, attr, dtype, v) == Temperature(n)
    ensures Typed(0x0403, 0x0000, dtype, v) == Pressure(n)
    ensures Typed(0x0B04, 0x050B, dtype, v) == Electrical(0, 0, n, 0)
  {
    LeTwo(lo, hi);
    LeFront(v);
    SignedByTop(lo, hi);
  }

  /** Three bytes: the demand. */
  lemma {:induction false} DemandValue(dtype: byte, b0: byte, b1: byte, b2: byte, v: seq<byte>, n: nat)
    requires v == [b0, b1, b2] && n == Word(b0, b1) + 0x1_0000 * b2
    ensures Typed(0x0702, 0x0400, dtype, v) == Metering(0, 0, if b2 < 128 then n else n - 0x100_0000)
  {
    LeThree(b0, b1, b2);
    LeFront(v);
    SignedByTop(Word(b0, b1), b2);
  }

  /** Four bytes: a float as it came. */
  lemma {:induction false} FloatValue(dtype: byte, b0: byte, b1: byte, b2: byte, b3: byte, v: seq<byte>)
    requires v == [b0, b1, b2, b3]
    ensures Typed(0x000C, 0x0055, dtype, v) == AnalogInput(b0 + 0x100 * b1 + 0x1_0000 * b2 + 0x100_0000 * b3)
  {
    LeFour(b0, b1, b2, b3);
    LeFront(v);
  }

  /** Six bytes: the summations. */
  lemma {:induction false} SummationValues(dtype: byte, b0: byte, b1: byte, b2: byte, b3: byte, b4: byte, b5: byte,
                                           v: seq<byte>, n: nat)
    requires v == [b0, b1, b2, b3, b4, b5]
    requires n == b0 + 0x100 * b1 + 0x1_0000 * b2 + 0x100_0000 * b3 + 0x1_0000_0000 * b4 + 0x100_0000_0000 * b5
    ensures Typed(0x0702, 0x0000, dtype, v) == Metering(n, 0, 0)
    ensures Typed(0x0702, 0x0001, dtype, v) == Metering(0, n, 0)
  {
    LeSix(b0, b1, b2, b3, b4, b5);
    LeFront(v);
  }

  /** Any other cluster: attribute, type and the first bytes as they came, in a zeroed field of eight. */
  lemma {:induction false} RawValues(cluster: Word16, attr: Word16, dtype: byte, v: seq<byte>)
    requires 1 <= |v| <= 8
    requires cluster !in {0x0006, 0x0008, 0x000C, 0x000F, 0x0010, 0x0300, 0x0400, 0x0402, 0x0403, 0x0405, 0x0406,
                          0x0500, 0x0702, 0x0B04}
    ensures Typed(cluster, attr, dtype, v).Raw?
    ensures var raw := Typed(cluster, attr, dtype, v);
            && raw.attrId == attr && raw.dtype == dtype && |raw.raw| == 8 && raw.raw[..|v|] == v
            && forall i :: |v| <= i < 8 ==> raw.raw[i] == 0
  {
  }

  /** A value that is too short for its attribute, and an attribute that is not translated, are reported as zeros. */
  lemma {:induction false} NotTranslated(attr: Word16, dtype: byte, v: seq<byte>)
    requires |v| >= 1
    ensures |v| < 2 ==>
              && Typed(0x0402, attr, dtype, v) == Temperature(0) && Typed(0x0403, attr, dtype, v) == Pressure(0)
              && Typed(0x0405, attr, dtype, v) == Humidity(0) && Typed(0x0400, attr, dtype, v) == Illuminance(0)
    ensures |v| < 2 || attr !in {0x0003, 0x0004} ==> Typed(0x0300, attr, dtype, v) == ColorXy(0, 0)
    ensures attr != 0x0000 ==>
              Typed(0x0403, attr, dtype, v) == Pressure(0) && Typed(0x0406, attr, dtype, v) == Occupancy(false)
    ensures attr != 0x0000 && (|v| < 2 || attr !in {0x0001, 0x0002}) ==> Typed(0x0500, attr, dtype, v) == IasZone(0, 0, 0)
    ensures (|v| < 6 || attr !in {0x0000, 0x0001}) && (|v| < 3 || attr != 0x0400) ==>
              Typed(0x0702, attr, dtype, v) == Metering(0, 0, 0)
    ensures |v| < 2 || attr !in {0x0505, 0x0508, 0x050B, 0x0510} ==>
              Typed(0x0B04, attr, dtype, v) == Electrical(0, 0, 0, 0)
    ensures |v| < 4 || attr != 0x0055 ==> Typed(0x000C, attr, dtype, v) == AnalogInput(0)
    ensures attr != 0x0055 ==>
              Typed(0x000F, attr, dtype, v) == BinaryInput(false) && Typed(0x0010, attr, dtype, v) == BinaryOutput(false)
  {
  }

  /** For example humidity: a 16-bit reading from a known device. */
  lemma {:induction false} HumidityFromBytes(r: Reg, head: seq<byte>, fc: byte, sn: byte, lo: byte, hi: byte)
    requires |head| == 16 && FromKnown(r, head) && head[2] == 0x05 && head[3] == 0x04
    ensures AfDefined(head + [8] + [fc, sn, 0x0A, 0, 0, 0x21, lo, hi])
    ensures AfIncoming(r, head + [8] + [fc, sn, 0x0A, 0, 0, 0x21, lo, hi]).events
            == r.events + [Report(CapEvent(r.slots[SenderSlot(r, head)].ieee, Capability(head[6], 0x0405),
                                           Humidity(Word(lo, hi))))]
  {
    OneRecord(r, head, fc, sn, 0, 0, 0x21, [lo, hi]);
    assert ReportZcl(fc, sn, RecordBytes(0, 0, 0x21, [lo, hi])) == [fc, sn, 0x0A, 0, 0, 0x21, lo, hi];
    WordValues(0, 0x21, lo, hi, [lo, hi], Word(lo, hi));
  }

  /** Different endpoints or clusters are different capabilities. */
  lemma {:induction false} CapIdKeepsApart(ep: byte, cluster: Word16, ep2: byte, cluster2: Word16)
    ensures CapId(ep, cluster) == CapId(ep2, cluster2) <==> ep == ep2 && cluster == cluster2
    ensures CapId(ep, cluster) == Capability(ep, cluster)
  {
  }

  // ---------- Other messages ----------

  /** A zone status notification (cluster 0x0500, a cluster-specific frame, command 0) causes one event with the
      status in its first two bytes. */
  lemma {:induction false} ZoneStatus(r: Reg, head: seq<byte>, fc: byte, sn: byte, lo: byte, hi: byte, more: seq<byte>)
    requires |head| == 16 && FromKnown(r, head) && ClusterOf(head) == 0x0500
    requires fc % 2 == 1 && |more| <= 228
    ensures AfDefined(Message(head, [fc, sn, 0, lo, hi] + more))
    ensures AfIncoming(r, Message(head, [fc, sn, 0, lo, hi] + more)).events
            == r.events + [ReportOf(r, head, IasZone(0, 0, Word(lo, hi)))]
  {
    var zcl := [fc, sn, 0, lo, hi] + more;
    AfEvents(r, head, zcl);
    assert ZclEvents(r.slots[SenderSlot(r, head)].ieee, head[6], 0x0500, zcl)
        == [CapEvent(r.slots[SenderSlot(r, head)].ieee, Capability(head[6], 0x0500), IasZone(0, 0, Word(lo, hi)))];
  }

  predicate IsZoneCommand(head: seq<byte>, zcl: seq<byte>)
    requires |head| == 16 && |zcl| >= 3
  {
    ClusterOf(head) == 0x0500 && zcl[0] % 2 == 1 && zcl[2] == 0
  }

  /** Any other command causes no event, and neither does a ZCL part that is too short. */
  lemma {:induction false} OtherCommands(r: Reg, head: seq<byte>, zcl: seq<byte>)
    requires |head| == 16 && FromKnown(r, head) && |zcl| <= 233
    requires |zcl| < 3 || (if IsZoneCommand(head, zcl) then |zcl| < 5 else zcl[2] != 0x0A)
    ensures AfDefined(Message(head, zcl)) && AfIncoming(r, Message(head, zcl)).events == r.events
  {
    AfEvents(r, head, zcl);
    assert r.events + Reports([]) == r.events;
  }

  /** Every complete message from a known device teaches the capability of its endpoint and cluster, whatever the
      ZCL part is; no other slot changes. */
  lemma {:induction false} MessageTeaches(r: Reg, head: seq<byte>, zcl: seq<byte>)
    requires |head| == 16 && FromKnown(r, head) && |zcl| <= 233 && DistinctIeee(r.slots)
    ensures AfDefined(Message(head, zcl))
    ensures var k := SenderSlot(r, head);
            AfIncoming(r, Message(head, zcl)).slots
            == r.slots[k := r.slots[k].(caps := LearnCap(r.slots[k].caps, Capability(head[6], ClusterOf(head))))]
  {
    PayloadParts(head, zcl);
    var p := Message(head, zcl);
    assert p[2] == head[2] && p[3] == head[3] && p[4] == head[4] && p[5] == head[5] && p[6] == head[6];
    OwnSlot(r.slots, SenderSlot(r, head));
    LearnOne(r.slots[SenderSlot(r, head)].caps, Capability(head[6], ClusterOf(head)));
  }

  /** A message from an unknown address, or one that is shorter than it says, changes nothing. */
  lemma {:induction false} MessageIgnored(r: Reg, p: seq<byte>)
    requires AfDefined(p)
    requires |p| < 17 || |p| < 17 + (p[16] as nat) || FindNwk(r.slots, Word(p[4], p[5])) == |r.slots|
    ensures AfIncoming(r, p) == r
  {
  }
}
