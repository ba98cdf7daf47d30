/** The device registry: a fixed array of slots that is updated in place, the records kept in
    storage, and the parsers that feed both. */
module DeviceRegistry {
  import opened Bits
  import opened AttrReports

  const MAX_DEVICES: nat := 100
  const MAX_CAPS: nat := 64

  /** One slot; an inactive slot keeps its old contents. */
  datatype Dev = Dev(active: bool, ieee: nat, nwk: Word16, caps: seq<nat>)

  const EMPTY_DEV := Dev(false, 0, 0, [])

  /** A stored record. Endpoints are lists of clusters; this code only ever stores empty lists. */
  datatype Endpoint = Endpoint(ep: byte, clusters: seq<Word16>)
  datatype Record = Record(nwk: Word16, endpoints: seq<Endpoint>)

  type Store = map<nat, Record>

  datatype RegEvent = Joined(ieee: nat, nwk: Word16) | Left(ieee: nat) | Report(event: CapEvent)

  // ---------- Looking up ----------

  /** The first slot from `i` on that holds the device, or the number of slots. */
  function FindIeee(slots: seq<Dev>, ieee: nat, i: nat := 0): (k: nat)
    requires i <= |slots|
    ensures i <= k <= |slots|
    ensures k < |slots| ==> slots[k].active && slots[k].ieee == ieee
    ensures forall j :: i <= j < k ==> !(slots[j].active && slots[j].ieee == ieee)
    decreases |slots| - i
  {
    if i == |slots| || (slots[i].active && slots[i].ieee == ieee) then i else FindIeee(slots, ieee, i + 1)
  }

  function FindNwk(slots: seq<Dev>, nwk: Word16, i: nat := 0): (k: nat)
    requires i <= |slots|
    ensures i <= k <= |slots|
    ensures k < |slots| ==> slots[k].active && slots[k].nwk == nwk
    ensures forall j :: i <= j < k ==> !(slots[j].active && slots[j].nwk == nwk)
    decreases |slots| - i
  {
    if i == |slots| || (slots[i].active && slots[i].nwk == nwk) then i else FindNwk(slots, nwk, i + 1)
  }

  function FindFree(slots: seq<Dev>, i: nat := 0): (k: nat)
    requires i <= |slots|
    ensures i <= k <= |slots|
    ensures k < |slots| ==> !slots[k].active
    ensures forall j :: i <= j < k ==> slots[j].active
    decreases |slots| - i
  {
    if i == |slots| || !slots[i].active then i else FindFree(slots, i + 1)
  }

  /** The slot a joining or restored device goes to: its own, else the first free one, else none. */
  function Place(slots: seq<Dev>, ieee: nat): (k: nat)
    ensures k <= |slots|
    ensures k < |slots| ==> (slots[k].active ==> slots[k].ieee == ieee)
  {
    if FindIeee(slots, ieee) < |slots| then FindIeee(slots, ieee) else FindFree(slots)
  }

  // ---------- Capability lists ----------

  /** Append unless known already or full. */
  function LearnCap(caps: seq<nat>, cap: nat): seq<nat> {
    if cap in caps || |caps| >= MAX_CAPS then caps else caps + [cap]
  }

  function LearnAll(caps: seq<nat>, news: seq<nat>): seq<nat>
    decreases |news|
  {
    if news == [] then caps else LearnAll(LearnCap(caps, news[0]), news[1..])
  }

  /** The first occurrences in `news` of what `known` lacks, in order. */
  function FirstNew(known: seq<nat>, news: seq<nat>): seq<nat>
    decreases |news|
  {
    if news == [] then []
    else if news[0] in known then FirstNew(known, news[1..])
    else [news[0]] + FirstNew(known + [news[0]], news[1..])
  }

  function Cut(caps: seq<nat>): seq<nat> {
    if |caps| > 64 then caps[..64] else caps
  }

  ghost predicate GoodCaps(caps: seq<nat>) {
    |caps| <= 64 && forall i, j :: 0 <= i < j < |caps| ==> caps[i] != caps[j]
  }

  lemma {:induction false} LearnAllGood(caps: seq<nat>, news: seq<nat>)
    requires GoodCaps(caps)
    ensures GoodCaps(LearnAll(caps, news))
    decreases |news|
  {
    if news != [] {
      LearnAllGood(LearnCap(caps, news[0]), news[1..]);
    }
  }

  lemma {:induction false} LearnWhenFull(caps: seq<nat>, news: seq<nat>)
    requires |caps| >= MAX_CAPS
    ensures LearnAll(caps, news) == caps
    decreases |news|
  {
    if news != [] {
      LearnWhenFull(caps, news[1..]);
    }
  }

  /** Learning one by one gives the old list followed by the first new occurrences, cut at 64. */
  lemma {:induction false} LearnAllIsFirstNew(caps: seq<nat>, news: seq<nat>)
    requires |caps| <= MAX_CAPS
    ensures LearnAll(caps, news) == Cut(caps + FirstNew(caps, news))
    decreases |news|
  {
    if news == [] {
      assert caps + [] == caps;
    } else if news[0] in caps {
      LearnAllIsFirstNew(caps, news[1..]);
    } else if |caps| == MAX_CAPS {
      LearnWhenFull(caps, news);
      assert (caps + FirstNew(caps, news))[..MAX_CAPS] == caps;
    } else {
      var rest := FirstNew(caps + [news[0]], news[1..]);
      LearnAllIsFirstNew(caps + [news[0]], news[1..]);
      assert caps + [news[0]] + rest == caps + ([news[0]] + rest);
    }
  }

  // ---------- Simple descriptors ----------

  /** Up to `count` clusters from position `start` on, as far as the payload reaches. */
  function Clusters(p: seq<byte>, start: nat, count: nat): seq<Word16>
    decreases count
  {
    if count == 0 || start + 1 >= |p| then []
    else [U16(p[start], p[start + 1])] + Clusters(p, start + 2, count - 1)
  }

  /** Where the out-cluster count is taken from: an 8-bit sum. */
  function InEnd(p: seq<byte>): byte
    requires |p| >= 12
  {
    var numIn: nat := p[11];
    (12 + numIn * 2) % 256
  }

  function DescClusters(p: seq<byte>): seq<Word16>
    requires |p| >= 12
  {
    var inEnd := InEnd(p);
    Clusters(p, 12, p[11])
    + (if inEnd < |p| then Clusters(p, inEnd + 1, p[inEnd]) else [])
  }

  function CapsOf(ep: byte, clusters: seq<Word16>): (caps: seq<nat>)
    ensures |caps| == |clusters|
    ensures forall i :: 0 <= i < |clusters| ==> caps[i] == CapId(ep, clusters[i])
  {
    seq(|clusters|, i requires 0 <= i < |clusters| => CapId(ep, clusters[i]))
  }

  function ClusterBytes(clusters: seq<Word16>): (bytes: seq<byte>)
    ensures |bytes| == 2 * |clusters|
  {
    if clusters == [] then [] else [clusters[0] % 256, clusters[0] / 256] + ClusterBytes(clusters[1..])
  }

  /** A descriptor: eleven leading bytes, then both counted cluster lists. */
  function DescImage(head: seq<byte>, ins: seq<Word16>, outs: seq<Word16>): seq<byte>
    requires |head| == 11 && |ins| < 256 && |outs| < 256
  {
    head + [|ins|] + ClusterBytes(ins) + [|outs|] + ClusterBytes(outs)
  }

  lemma {:induction false} ClustersRoundTrip(before: seq<byte>, clusters: seq<Word16>, behind: seq<byte>)
    ensures Clusters(before + ClusterBytes(clusters) + behind, |before|, |clusters|) == clusters
    decreases |clusters|
  {
    if clusters != [] {
      var first := [clusters[0] % 256, clusters[0] / 256];
      var rest := ClusterBytes(clusters[1..]);
      ClustersRoundTrip(before + first, clusters[1..], behind);
      assert before + first + rest + behind == before + (first + rest) + behind;
    }
  }

  lemma {:induction false} InClusters(head: seq<byte>, ins: seq<Word16>, outs: seq<Word16>)
    requires |head| == 11 && 13 + 2 * |ins| + 2 * |outs| <= 250
    ensures var p := DescImage(head, ins, outs); p[11] == |ins| && Clusters(p, 12, |ins|) == ins
  {
    var before := head + [|ins|];
    var behind := [|outs|] + ClusterBytes(outs);
    assert DescImage(head, ins, outs) == before + ClusterBytes(ins) + behind;
    ClustersRoundTrip(before, ins, behind);
  }

  lemma {:induction false} OutClusters(head: seq<byte>, ins: seq<Word16>, outs: seq<Word16>)
    requires |head| == 11 && 13 + 2 * |ins| + 2 * |outs| <= 250
    ensures var p := DescImage(head, ins, outs);
            p[12 + 2 * |ins|] == |outs| && Clusters(p, 13 + 2 * |ins|, |outs|) == outs
  {
    var front := head + [|ins|] + ClusterBytes(ins) + [|outs|];
    assert DescImage(head, ins, outs) == front + ClusterBytes(outs) + [];
    ClustersRoundTrip(front, outs, []);
  }

  /** The parser recovers both lists of every descriptor that fits a payload. */
  lemma {:induction false} DescRoundTrip(head: seq<byte>, ins: seq<Word16>, outs: seq<Word16>)
    requires |head| == 11 && 13 + 2 * |ins| + 2 * |outs| <= 250
    ensures DescClusters(DescImage(head, ins, outs)) == ins + outs
  {
    InClusters(head, ins, outs);
    OutClusters(head, ins, outs);
    assert InEnd(DescImage(head, ins, outs)) == 12 + 2 * |ins|;
  }

  // ---------- The registry on values ----------

  datatype Reg = Reg(slots: seq<Dev>, store: Store, events: seq<RegEvent>)

  /** Stored by a join or a descriptor: the address, never the capabilities. */
  function SaveDevice(store: Store, ieee: nat, nwk: Word16, saved: bool): Store {
    if saved then store[ieee := Record(nwk, [])] else store
  }

  function Join(r: Reg, ieee: nat, nwk: Word16, saved: bool): (Reg, bool) {
    var k := Place(r.slots, ieee);
    if k == |r.slots| then (r, false)
    else
      (Reg(r.slots[k := r.slots[k].(active := true, ieee := ieee, nwk := nwk)],
           SaveDevice(r.store, ieee, nwk, saved),
           r.events + [Joined(ieee, nwk)]),
       true)
  }

  function Without(slots: seq<Dev>, ieee: nat): seq<Dev> {
    var k := FindIeee(slots, ieee);
    if k < |slots| then slots[k := slots[k].(active := false)] else slots
  }

  function Leave(r: Reg, ieee: nat, deleted: bool): Reg {
    Reg(Without(r.slots, ieee),
        if deleted then r.store - {ieee} else r.store,
        r.events + [Left(ieee)])
  }

  function Learn(slots: seq<Dev>, ieee: nat, news: seq<nat>): seq<Dev> {
    var k := FindIeee(slots, ieee);
    if k == |slots| then slots else slots[k := slots[k].(caps := LearnAll(slots[k].caps, news))]
  }

  /** A simple descriptor response. */
  function Describe(r: Reg, p: seq<byte>, saved: bool): Reg {
    if |p| < 12 || p[2] != 0 then r
    else
      var nwk := U16(p[3], p[4]);
      var k := FindNwk(r.slots, nwk);
      if k == |r.slots| then r
      else
        var ieee := r.slots[k].ieee;
        r.(slots := Learn(r.slots, ieee, CapsOf(p[6], DescClusters(p))),
           store := SaveDevice(r.store, ieee, nwk, saved))
  }

  /** What an incoming AF message makes of its ZCL part. */
  function ZclEvents(ieee: nat, ep: byte, cluster: Word16, zcl: seq<byte>): seq<CapEvent> {
    if |zcl| < 3 then []
    else if cluster == CLUSTER_IAS_ZONE && zcl[0] % 2 == 1 && zcl[2] == 0x00 then
      if |zcl| < 5 then []
      else [CapEvent(ieee, CapId(ep, CLUSTER_IAS_ZONE), IasZone(0, 0, U16(zcl[3], zcl[4])))]
    else if zcl[2] == 0x0A then
      ParsedWellTyped(zcl[3..]);
      EventsOf(ieee, ep, cluster, ParseBody(zcl[3..]))
    else []
  }

  function Reports(events: seq<CapEvent>): (r: seq<RegEvent>)
    ensures |r| == |events|
    ensures forall i :: 0 <= i < |events| ==> r[i] == Report(events[i])
  {
    seq(|events|, i requires 0 <= i < |events| => Report(events[i]))
  }

  /** Payloads as the transport delivers them, with a ZCL length whose 8-bit sum with the header
      does not wrap; beyond that the source reads past the payload. */
  predicate AfDefined(p: seq<byte>) {
    |p| <= 250 && (|p| >= 17 ==> p[16] <= 238)
  }

  /** Where that bound comes from: the length guard lets a ZCL part through that the payload does not
      hold exactly for lengths of 239 and more. */
  lemma {:induction false} LengthGuardExact(payloadLen: nat, dataLen: byte)
    requires 17 <= payloadLen <= 250
    ensures payloadLen >= (17 + dataLen) % 256 && payloadLen < 17 + dataLen <==> dataLen >= 239
  {
  }

  /** An incoming AF message: 17 bytes of header, the last of them the length of the ZCL part. */
  function AfIncoming(r: Reg, p: seq<byte>): Reg
    requires AfDefined(p)
  {
    if |p| < 17 then r
    else
      var dataLen: nat := p[16];
      if |p| < (17 + dataLen) % 256 then r
      else
        var k := FindNwk(r.slots, U16(p[4], p[5]));
        if k == |r.slots| then r
        else
          var ieee, cluster := r.slots[k].ieee, U16(p[2], p[3]);
          r.(slots := Learn(r.slots, ieee, [CapId(p[6], cluster)]),
             events := r.events + Reports(ZclEvents(ieee, p[6], cluster, p[17..17 + dataLen])))
  }

  // ---------- Restoring ----------

  function StoredCaps(endpoints: seq<Endpoint>): seq<nat> {
    if endpoints == [] then [] else CapsOf(endpoints[0].ep, endpoints[0].clusters) + StoredCaps(endpoints[1..])
  }

  function RestoreOne(slots: seq<Dev>, ieee: nat, rec: Record): seq<Dev> {
    var k := Place(slots, ieee);
    if k == |slots| then slots else slots[k := Dev(true, ieee, rec.nwk, Cut(StoredCaps(rec.endpoints)))]
  }

  /** Files are visited in the order in which the directory lists them. */
  function RestoreAll(slots: seq<Dev>, store: Store, order: seq<nat>): seq<Dev>
    requires forall i :: 0 <= i < |order| ==> order[i] in store
    decreases |order|
  {
    if order == [] then slots
    else RestoreAll(RestoreOne(slots, order[0], store[order[0]]), store, order[1..])
  }

  function EmptySlots(): (slots: seq<Dev>)
    ensures |slots| == 100 && forall i :: 0 <= i < 100 ==> slots[i] == EMPTY_DEV
  {
    seq(MAX_DEVICES, _ => EMPTY_DEV)
  }

  // ---------- Refinement of the address map ----------

  type Addrs = map<nat, Word16>

  function Addresses(store: Store): (addrs: Addrs)
    ensures addrs.Keys == store.Keys
    ensures forall ieee :: ieee in store ==> addrs[ieee] == store[ieee].nwk
  {
    map ieee | ieee in store :: store[ieee].nwk
  }

  ghost function Keys(slots: seq<Dev>): set<nat> {
    set i | 0 <= i < |slots| && slots[i].active :: slots[i].ieee
  }

  ghost predicate DistinctIeee(slots: seq<Dev>) {
    forall i, j :: 0 <= i < j < |slots| && slots[i].active && slots[j].active ==> slots[i].ieee != slots[j].ieee
  }

  /** Each active slot holds a device of its own and, unless one is not sure about that device, it is in the
      map with the same network address; and each device in the map that one is sure about has a slot. */
  ghost predicate Refines(slots: seq<Dev>, addrs: Addrs, unsure: set<nat>) {
    && DistinctIeee(slots)
    && (forall i :: 0 <= i < |slots| && slots[i].active && slots[i].ieee !in unsure ==>
          slots[i].ieee in addrs && addrs[slots[i].ieee] == slots[i].nwk)
    && (forall ieee :: ieee in addrs && ieee !in unsure ==> ieee in Keys(slots))
  }

  lemma {:induction false} InKeys(slots: seq<Dev>, ieee: nat)
    ensures ieee in Keys(slots) <==> FindIeee(slots, ieee) < |slots|
  {
    if FindIeee(slots, ieee) < |slots| {
      assert slots[FindIeee(slots, ieee)].ieee in Keys(slots);
    }
  }

  /** A device keeps its place among the keys when another slot, or none of its own, is written. */
  lemma {:induction false} StillThere(slots: seq<Dev>, k: nat, dev: Dev, other: nat)
    requires k < |slots| && other in Keys(slots) && !(slots[k].active && slots[k].ieee == other)
    ensures other in Keys(slots[k := dev])
  {
    InKeys(slots, other);
    var j := FindIeee(slots, other);
    assert slots[k := dev][j] == slots[j];
  }

  /** Writing an active entry for `ieee` into the slot that `Place` chose. */
  lemma {:induction false} PlaceRefines(slots: seq<Dev>, addrs: Addrs, unsure: set<nat>, ieee: nat, dev: Dev)
    requires Refines(slots, addrs, unsure) && Place(slots, ieee) < |slots|
    requires dev.active && dev.ieee == ieee
    ensures Refines(slots[Place(slots, ieee) := dev], addrs[ieee := dev.nwk], unsure - {ieee})
    ensures Refines(slots[Place(slots, ieee) := dev], addrs, unsure + {ieee})
  {
    var k := Place(slots, ieee);
    var slots' := slots[k := dev];
    InKeys(slots, ieee);
    assert slots'[k].ieee == ieee;
    forall other | other in addrs && other !in unsure && other != ieee ensures other in Keys(slots') {
      StillThere(slots, k, dev, other);
    }
  }

  lemma {:induction false} LeaveRefines(slots: seq<Dev>, addrs: Addrs, unsure: set<nat>, ieee: nat)
    requires Refines(slots, addrs, unsure)
    ensures Refines(Without(slots, ieee), addrs - {ieee}, unsure - {ieee})
    ensures Refines(Without(slots, ieee), addrs, unsure + {ieee})
  {
    var k := FindIeee(slots, ieee);
    InKeys(slots, ieee);
    if k < |slots| {
      forall other | other in addrs && other !in unsure && other != ieee ensures other in Keys(Without(slots, ieee)) {
        StillThere(slots, k, slots[k].(active := false), other);
      }
    }
  }

  lemma {:induction false} SameAddressesRefine(slots: seq<Dev>, slots': seq<Dev>, addrs: Addrs, unsure: set<nat>)
    requires Refines(slots, addrs, unsure) && |slots'| == |slots|
    requires forall i :: 0 <= i < |slots| ==> slots'[i].(caps := slots[i].caps) == slots[i]
    ensures Refines(slots', addrs, unsure)
  {
    forall ieee | ieee in addrs && ieee !in unsure ensures ieee in Keys(slots') {
      InKeys(slots, ieee);
      var j := FindIeee(slots, ieee);
      assert slots'[j].active && slots'[j].ieee == ieee;
    }
  }

  /** Writing down what a slot says makes one sure about its device. */
  lemma {:induction false} SlotWritten(slots: seq<Dev>, addrs: Addrs, unsure: set<nat>, k: nat)
    requires Refines(slots, addrs, unsure) && k < |slots| && slots[k].active
    ensures Refines(slots, addrs[slots[k].ieee := slots[k].nwk], unsure - {slots[k].ieee})
  {
    forall i | 0 <= i < |slots| && slots[i].active && slots[i].ieee == slots[k].ieee ensures i == k {
    }
    assert slots[k].ieee in Keys(slots);
  }

  /** At most as many devices as slots. */
  lemma {:induction false} KeysBound(slots: seq<Dev>)
    ensures |Keys(slots)| <= |slots|
  {
    if slots == [] {
      assert Keys(slots) == {};
    } else {
      var init, last := slots[..|slots| - 1], slots[|slots| - 1];
      KeysBound(init);
      forall x | x in Keys(slots) ensures x in Keys(init) || (last.active && x == last.ieee) {
        var i :| 0 <= i < |slots| && slots[i].active && slots[i].ieee == x;
        if i < |init| {
          assert init[i] == slots[i];
        }
      }
      assert Keys(slots) <= Keys(init) + {last.ieee};
      SubsetSize(Keys(slots), Keys(init) + {last.ieee});
    }
  }

  lemma {:induction false} SubsetSize(a: set<nat>, b: set<nat>)
    requires a <= b
    ensures |a| <= |b|
    decreases |a|
  {
    if a != {} {
      var x :| x in a;
      SubsetSize(a - {x}, b - {x});
    }
  }

  lemma {:induction false} RefinedKeys(slots: seq<Dev>, addrs: Addrs)
    requires Refines(slots, addrs, {})
    ensures Keys(slots) == addrs.Keys && |addrs.Keys| <= |slots|
  {
    forall x | x in Keys(slots) ensures x in addrs {
      var i :| 0 <= i < |slots| && slots[i].active && slots[i].ieee == x;
    }
    KeysBound(slots);
  }

  // ---------- Runs ----------

  /** Storage accesses may fail. */
  datatype Op =
    | OpJoin(ieee: nat, nwk: Word16, saved: bool)
    | OpLeave(ieee: nat, deleted: bool)
    | OpDescribe(payload: seq<byte>, saved: bool)
    | OpAf(payload: seq<byte>)
    | OpReboot(order: seq<nat>)

  /** The directory lists every stored device once. */
  ghost predicate Lists(order: seq<nat>, store: Store) {
    && (forall i :: 0 <= i < |order| ==> order[i] in store)
    && (forall ieee :: ieee in store ==> ieee in order)
    && (forall i, j :: 0 <= i < j < |order| ==> order[i] != order[j])
  }

  predicate Defined(op: Op) {
    op.OpAf? ==> AfDefined(op.payload)
  }

  predicate Succeeds(op: Op) {
    match op
    case OpJoin(_, _, saved) => saved
    case OpLeave(_, deleted) => deleted
    case OpDescribe(_, saved) => saved
    case _ => true
  }

  function Restored(r: Reg, order: seq<nat>): Reg
    requires forall i :: 0 <= i < |order| ==> order[i] in r.store
  {
    r.(slots := RestoreAll(EmptySlots(), r.store, order))
  }

  /** One operation. The events are those since the beginning. */
  ghost function Next(r: Reg, op: Op): Reg
    requires Defined(op)
  {
    match op
    case OpJoin(ieee, nwk, saved) => Join(r, ieee, nwk, saved).0
    case OpLeave(ieee, deleted) => Leave(r, ieee, deleted)
    case OpDescribe(p, saved) => Describe(r, p, saved)
    case OpAf(p) => AfIncoming(r, p)
    case OpReboot(order) => if Lists(order, r.store) then Restored(r, order) else r
  }

  ghost function Exec(r: Reg, ops: seq<Op>): Reg
    requires forall i :: 0 <= i < |ops| ==> Defined(ops[i])
    decreases |ops|
  {
    if ops == [] then r else Exec(Next(r, ops[0]), ops[1..])
  }

  /** The devices whose slots and records may differ: those whose last storage access failed, and those
      for which a restart found no slot. */
  ghost function Unsure(r: Reg, op: Op, unsure: set<nat>): set<nat>
    requires Defined(op)
  {
    match op
    case OpJoin(ieee, nwk, saved) =>
      if Place(r.slots, ieee) == |r.slots| then unsure else if saved then unsure - {ieee} else unsure + {ieee}
    case OpLeave(ieee, deleted) => if deleted then unsure - {ieee} else unsure + {ieee}
    case OpDescribe(p, saved) =>
      if saved && Describes(r, p) then unsure - {r.slots[DescribedSlot(r, p)].ieee} else unsure
    case OpAf(p) => unsure
    case OpReboot(order) => if Lists(order, r.store) then Skipped(r, order) else unsure
  }

  predicate Describes(r: Reg, p: seq<byte>) {
    |p| >= 12 && p[2] == 0 && DescribedSlot(r, p) < |r.slots|
  }

  function DescribedSlot(r: Reg, p: seq<byte>): nat
    requires |p| >= 12
  {
    FindNwk(r.slots, U16(p[3], p[4]))
  }

  ghost function Skipped(r: Reg, order: seq<nat>): set<nat>
    requires forall i :: 0 <= i < |order| ==> order[i] in r.store
  {
    r.store.Keys - Keys(Restored(r, order).slots)
  }

  ghost function UnsureAfter(r: Reg, ops: seq<Op>, unsure: set<nat>): set<nat>
    requires forall i :: 0 <= i < |ops| ==> Defined(ops[i])
    decreases |ops|
  {
    if ops == [] then unsure else UnsureAfter(Next(r, ops[0]), ops[1..], Unsure(r, ops[0], unsure))
  }

  /** Records written by this code have no endpoints. */
  ghost predicate OwnRecords(store: Store) {
    forall ieee :: ieee in store ==> store[ieee].endpoints == []
  }

  ghost predicate AllGoodCaps(slots: seq<Dev>) {
    forall i :: 0 <= i < |slots| ==> GoodCaps(slots[i].caps)
  }

  ghost predicate Inv(r: Reg, unsure: set<nat>) {
    && |r.slots| == MAX_DEVICES && Refines(r.slots, Addresses(r.store), unsure)
    && OwnRecords(r.store) && AllGoodCaps(r.slots)
  }

  lemma {:induction false} SavedAddress(store: Store, ieee: nat, nwk: Word16)
    ensures Addresses(SaveDevice(store, ieee, nwk, true)) == Addresses(store)[ieee := nwk]
    ensures Addresses(store - {ieee}) == Addresses(store) - {ieee}
    ensures OwnRecords(store) ==> OwnRecords(SaveDevice(store, ieee, nwk, true)) && OwnRecords(store - {ieee})
  {
  }

  lemma {:induction false} JoinInv(r: Reg, ieee: nat, nwk: Word16, saved: bool, unsure: set<nat>)
    requires Inv(r, unsure)
    ensures Inv(Join(r, ieee, nwk, saved).0, Unsure(r, OpJoin(ieee, nwk, saved), unsure))
  {
    var k := Place(r.slots, ieee);
    if k < |r.slots| {
      SavedAddress(r.store, ieee, nwk);
      PlaceRefines(r.slots, Addresses(r.store), unsure, ieee,
                   r.slots[k].(active := true, ieee := ieee, nwk := nwk));
    }
  }

  lemma {:induction false} LeaveInv(r: Reg, ieee: nat, deleted: bool, unsure: set<nat>)
    requires Inv(r, unsure)
    ensures Inv(Leave(r, ieee, deleted), Unsure(r, OpLeave(ieee, deleted), unsure))
  {
    SavedAddress(r.store, ieee, 0);
    LeaveRefines(r.slots, Addresses(r.store), unsure, ieee);
  }

  lemma {:induction false} LearnInv(r: Reg, ieee: nat, news: seq<nat>, unsure: set<nat>)
    requires Inv(r, unsure)
    ensures Inv(r.(slots := Learn(r.slots, ieee, news)), unsure)
  {
    var k := FindIeee(r.slots, ieee);
    if k < |r.slots| {
      LearnAllGood(r.slots[k].caps, news);
      SameAddressesRefine(r.slots, Learn(r.slots, ieee, news), Addresses(r.store), unsure);
    }
  }

  lemma {:induction false} DescribeInv(r: Reg, p: seq<byte>, saved: bool, unsure: set<nat>)
    requires Inv(r, unsure)
    ensures Inv(Describe(r, p, saved), Unsure(r, OpDescribe(p, saved), unsure))
  {
    if Describes(r, p) {
      var dev := r.slots[DescribedSlot(r, p)];
      var store := SaveDevice(r.store, dev.ieee, dev.nwk, saved);
      SavedAddress(r.store, dev.ieee, dev.nwk);
      SlotWritten(r.slots, Addresses(r.store), unsure, DescribedSlot(r, p));
      LearnInv(r.(store := store), dev.ieee, CapsOf(p[6], DescClusters(p)), Unsure(r, OpDescribe(p, saved), unsure));
    }
  }

  lemma {:induction false} AfInv(r: Reg, p: seq<byte>, unsure: set<nat>)
    requires Inv(r, unsure) && AfDefined(p)
    ensures Inv(AfIncoming(r, p), unsure)
  {
    if |p| >= 17 {
      var k := FindNwk(r.slots, U16(p[4], p[5]));
      if k < |r.slots| {
        LearnInv(r, r.slots[k].ieee, [CapId(p[6], U16(p[2], p[3]))], unsure);
      }
    }
  }

  // ---------- Restarts ----------

  /** Every active slot holds a stored device with its stored address. */
  ghost predicate Sound(slots: seq<Dev>, addrs: Addrs) {
    && DistinctIeee(slots)
    && forall i :: 0 <= i < |slots| && slots[i].active ==> slots[i].ieee in addrs && addrs[slots[i].ieee] == slots[i].nwk
  }

  lemma {:induction false} RestoreAllSound(slots: seq<Dev>, store: Store, order: seq<nat>)
    requires forall i :: 0 <= i < |order| ==> order[i] in store
    requires Sound(slots, Addresses(store))
    ensures |RestoreAll(slots, store, order)| == |slots|
    ensures Sound(RestoreAll(slots, store, order), Addresses(store))
    decreases |order|
  {
    if order != [] {
      var ieee := order[0];
      var slots' := RestoreOne(slots, ieee, store[ieee]);
      if Place(slots, ieee) < |slots| {
        PlaceSound(slots, Addresses(store), ieee, slots'[Place(slots, ieee)]);
      }
      RestoreAllSound(slots', store, order[1..]);
    }
  }

  lemma {:induction false} PlaceSound(slots: seq<Dev>, addrs: Addrs, ieee: nat, dev: Dev)
    requires Sound(slots, addrs) && Place(slots, ieee) < |slots|
    requires dev.active && dev.ieee == ieee && ieee in addrs && addrs[ieee] == dev.nwk
    ensures Sound(slots[Place(slots, ieee) := dev], addrs)
  {
  }

  /** The addresses of the devices restored so far. */
  function Restrict(addrs: Addrs, keys: set<nat>): Addrs {
    map ieee | ieee in addrs && ieee in keys :: addrs[ieee]
  }

  function Elements(order: seq<nat>): set<nat> {
    set x | x in order
  }

  lemma {:induction false} ElementsCons(order: seq<nat>)
    requires order != []
    ensures Elements(order) == {order[0]} + Elements(order[1..])
  {
    assert order == [order[0]] + order[1..];
  }

  lemma {:induction false} RestoreAllRefines(slots: seq<Dev>, store: Store, order: seq<nat>, done: set<nat>)
    requires forall i :: 0 <= i < |order| ==> order[i] in store
    requires Refines(slots, Restrict(Addresses(store), done), {})
    requires |store.Keys| <= |slots|
    ensures |RestoreAll(slots, store, order)| == |slots|
    ensures Refines(RestoreAll(slots, store, order), Restrict(Addresses(store), done + Elements(order)), {})
    decreases |order|
  {
    var addrs := Addresses(store);
    if order == [] {
      assert done + Elements(order) == done;
    } else {
      var ieee := order[0];
      RoomFor(slots, addrs, done, ieee);
      PlaceRefines(slots, Restrict(addrs, done), {}, ieee,
                   Dev(true, ieee, store[ieee].nwk, Cut(StoredCaps(store[ieee].endpoints))));
      assert Restrict(addrs, done)[ieee := store[ieee].nwk] == Restrict(addrs, done + {ieee}) && {} - {ieee} == {};
      RestoreAllRefines(RestoreOne(slots, ieee, store[ieee]), store, order[1..], done + {ieee});
      ElementsCons(order);
      assert done + {ieee} + Elements(order[1..]) == done + Elements(order);
    }
  }

  ghost predicate NoCaps(slots: seq<Dev>) {
    forall i :: 0 <= i < |slots| ==> slots[i].caps == []
  }

  /** Capabilities do not survive a restart: no record written by this code carries any. */
  lemma {:induction false} RestoreAllForgetsCaps(slots: seq<Dev>, store: Store, order: seq<nat>)
    requires forall i :: 0 <= i < |order| ==> order[i] in store
    requires OwnRecords(store) && NoCaps(slots)
    ensures NoCaps(RestoreAll(slots, store, order))
    decreases |order|
  {
    if order != [] {
      assert StoredCaps(store[order[0]].endpoints) == [];
      RestoreAllForgetsCaps(RestoreOne(slots, order[0], store[order[0]]), store, order[1..]);
    }
  }

  /** While not everything is restored there is a slot for the next device. */
  lemma {:induction false} RoomFor(slots: seq<Dev>, addrs: Addrs, done: set<nat>, ieee: nat)
    requires Refines(slots, Restrict(addrs, done), {}) && ieee in addrs && |addrs.Keys| <= |slots|
    ensures Place(slots, ieee) < |slots|
  {
    InKeys(slots, ieee);
    if FindIeee(slots, ieee) == |slots| && FindFree(slots) == |slots| {
      RefinedKeys(slots, Restrict(addrs, done));
      AllActive(slots);
      assert Restrict(addrs, done).Keys <= addrs.Keys - {ieee};
      SubsetSize(Restrict(addrs, done).Keys, addrs.Keys - {ieee});
    }
  }

  lemma {:induction false} AllActive(slots: seq<Dev>)
    requires DistinctIeee(slots) && forall i :: 0 <= i < |slots| ==> slots[i].active
    ensures |Keys(slots)| == |slots|
  {
    if slots == [] {
      assert Keys(slots) == {};
    } else {
      var init, last := slots[..|slots| - 1], slots[|slots| - 1];
      AllActive(init);
      assert last.ieee !in Keys(init);
      forall x | x in Keys(slots) ensures x in Keys(init) + {last.ieee} {
        var i :| 0 <= i < |slots| && slots[i].active && slots[i].ieee == x;
        if i < |init| {
          assert init[i] == slots[i];
        }
      }
      forall x | x in Keys(init) + {last.ieee} ensures x in Keys(slots) {
        if x == last.ieee {
          assert slots[|slots| - 1].ieee == x;
        } else {
          var i :| 0 <= i < |init| && init[i].active && init[i].ieee == x;
          assert slots[i] == init[i];
        }
      }
      assert Keys(slots) == Keys(init) + {last.ieee};
    }
  }

  /** Restoring in any order of the files rebuilds exactly the stored addresses. */
  lemma {:induction false} RestoreRebuilds(store: Store, order: seq<nat>)
    requires Lists(order, store) && |store.Keys| <= MAX_DEVICES && OwnRecords(store)
    ensures |RestoreAll(EmptySlots(), store, order)| == MAX_DEVICES
    ensures Refines(RestoreAll(EmptySlots(), store, order), Addresses(store), {})
    ensures NoCaps(RestoreAll(EmptySlots(), store, order))
  {
    assert Restrict(Addresses(store), {}) == map[];
    assert Refines(EmptySlots(), map[], {});
    RestoreAllRefines(EmptySlots(), store, order, {});
    assert Restrict(Addresses(store), {} + Elements(order)) == Addresses(store);
    RestoreAllForgetsCaps(EmptySlots(), store, order);
  }

  lemma {:induction false} RebootInv(r: Reg, order: seq<nat>, unsure: set<nat>)
    requires Inv(r, unsure) && Lists(order, r.store)
    ensures Inv(Restored(r, order), Skipped(r, order))
  {
    RestoreAllSound(EmptySlots(), r.store, order);
    RestoreAllForgetsCaps(EmptySlots(), r.store, order);
    SoundRefines(Restored(r, order).slots, Addresses(r.store));
  }

  lemma {:induction false} NothingSkipped(r: Reg, order: seq<nat>)
    requires OwnRecords(r.store) && Lists(order, r.store) && |r.store.Keys| <= MAX_DEVICES
    ensures Skipped(r, order) == {}
  {
    RestoreRebuilds(r.store, order);
    RefinedKeys(Restored(r, order).slots, Addresses(r.store));
  }

  lemma {:induction false} SoundRefines(slots: seq<Dev>, addrs: Addrs)
    requires Sound(slots, addrs)
    ensures Refines(slots, addrs, addrs.Keys - Keys(slots))
  {
    forall i | 0 <= i < |slots| && slots[i].active ensures slots[i].ieee in Keys(slots) {
    }
  }

  /** A restart is transparent for the address of each device that one is sure about: it is registered
      afterwards exactly when it was before, with the same network address. */
  lemma {:induction false} RebootKeepsAddresses(r: Reg, order: seq<nat>, unsure: set<nat>, ieee: nat)
    requires Inv(r, unsure) && Lists(order, r.store) && |r.store.Keys| <= MAX_DEVICES && ieee !in unsure
    ensures var slots := Restored(r, order).slots;
            && (ieee in Keys(slots) <==> ieee in Keys(r.slots))
            && (ieee in Keys(slots) ==> slots[FindIeee(slots, ieee)].nwk == r.slots[FindIeee(r.slots, ieee)].nwk)
  {
    var slots := Restored(r, order).slots;
    RestoreRebuilds(r.store, order);
    InKeys(slots, ieee);
    InKeys(r.slots, ieee);
  }

  lemma {:induction false} InvStep(r: Reg, op: Op, unsure: set<nat>)
    requires Inv(r, unsure) && Defined(op)
    ensures Inv(Next(r, op), Unsure(r, op, unsure))
  {
    match op {
      case OpJoin(ieee, nwk, saved) => JoinInv(r, ieee, nwk, saved, unsure);
      case OpLeave(ieee, deleted) => LeaveInv(r, ieee, deleted, unsure);
      case OpDescribe(p, saved) => DescribeInv(r, p, saved, unsure);
      case OpAf(p) => AfInv(r, p, unsure);
      case OpReboot(order) =>
        if Lists(order, r.store) {
          RebootInv(r, order, unsure);
        }
    }
  }

  lemma {:induction false} InvRun(r: Reg, ops: seq<Op>, unsure: set<nat>)
    requires Inv(r, unsure) && forall i :: 0 <= i < |ops| ==> Defined(ops[i])
    ensures Inv(Exec(r, ops), UnsureAfter(r, ops, unsure))
    decreases |ops|
  {
    if ops != [] {
      InvStep(r, ops[0], unsure);
      InvRun(Next(r, ops[0]), ops[1..], Unsure(r, ops[0], unsure));
    }
  }

  const START := Reg(EmptySlots(), map[], [])

  lemma {:induction false} StartInv()
    ensures Inv(START, {})
  {
    assert Keys(START.slots) == {} && Addresses(START.store) == map[];
  }

  /** After any operations and restarts with any failures of the storage, starting from nothing: active
      slots have distinct IEEE addresses, and except for the devices that one is not sure about they are
      the stored devices with the stored network addresses; and every capability list has at most
      64 pairwise distinct entries. */
  lemma {:induction false} RegistryRefinesStore(ops: seq<Op>)
    requires forall i :: 0 <= i < |ops| ==> Defined(ops[i])
    ensures var r, unsure := Exec(START, ops), UnsureAfter(START, ops, {});
            && DistinctIeee(r.slots) && |Keys(r.slots)| <= 100
            && (forall ieee :: ieee !in unsure ==> (ieee in Keys(r.slots) <==> ieee in r.store))
            && (forall i :: 0 <= i < |r.slots| && r.slots[i].active && r.slots[i].ieee !in unsure ==>
                  r.store[r.slots[i].ieee].nwk == r.slots[i].nwk)
            && AllGoodCaps(r.slots)
  {
    StartInv();
    InvRun(START, ops, {});
    var r, unsure := Exec(START, ops), UnsureAfter(START, ops, {});
    KeysBound(r.slots);
    forall ieee | ieee in Keys(r.slots) && ieee !in unsure ensures ieee in r.store {
      InKeys(r.slots, ieee);
      assert r.slots[FindIeee(r.slots, ieee)].ieee == ieee;
    }
  }

  lemma {:induction false} SureStep(r: Reg, op: Op)
    requires Inv(r, {}) && Defined(op) && Succeeds(op)
    ensures Unsure(r, op, {}) == {}
  {
    RefinedKeys(r.slots, Addresses(r.store));
    if op.OpReboot? && Lists(op.order, r.store) {
      NothingSkipped(r, op.order);
    }
  }

  /** While no storage access fails one is sure about every device, so the registered devices are
      the stored ones, at most 100 of them. */
  lemma {:induction false} SureWhileStorageWorks(r: Reg, ops: seq<Op>)
    requires Inv(r, {}) && forall i :: 0 <= i < |ops| ==> Defined(ops[i]) && Succeeds(ops[i])
    ensures UnsureAfter(r, ops, {}) == {}
    ensures Keys(Exec(r, ops).slots) == Exec(r, ops).store.Keys && |Exec(r, ops).store.Keys| <= 100
    decreases |ops|
  {
    if ops == [] {
      RefinedKeys(r.slots, Addresses(r.store));
    } else {
      InvStep(r, ops[0], {});
      SureStep(r, ops[0]);
      SureWhileStorageWorks(Next(r, ops[0]), ops[1..]);
    }
  }

  // ---------- What the emitted events say ----------

  /** The address map that one can build from events. */
  function Replay(events: seq<RegEvent>): Addrs {
    if events == [] then map[]
    else
      var before := Replay(events[..|events| - 1]);
      match events[|events| - 1]
      case Joined(ieee, nwk) => before[ieee := nwk]
      case Left(ieee) => before - {ieee}
      case Report(_) => before
  }

  lemma {:induction false} ReplaySnoc(events: seq<RegEvent>, e: RegEvent)
    ensures Replay(events + [e])
            == match e
               case Joined(ieee, nwk) => Replay(events)[ieee := nwk]
               case Left(ieee) => Replay(events) - {ieee}
               case Report(_) => Replay(events)
  {
    assert (events + [e])[..|events|] == events;
  }

  lemma {:induction false} ReplayReports(events: seq<RegEvent>, reports: seq<CapEvent>)
    ensures Replay(events + Reports(reports)) == Replay(events)
    decreases |reports|
  {
    if reports == [] {
      assert events + Reports(reports) == events;
    } else {
      var init, last := reports[..|reports| - 1], reports[|reports| - 1];
      assert events + Reports(reports) == events + Reports(init) + [Report(last)];
      ReplaySnoc(events + Reports(init), Report(last));
      ReplayReports(events, init);
    }
  }

  /** The devices about which the emitted events may be wrong: those for which a restart changed something,
      until they join or leave again. */
  ghost function Untold(r: Reg, op: Op, unsure: set<nat>, untold: set<nat>): set<nat>
    requires Defined(op)
  {
    match op
    case OpJoin(ieee, _, _) => if Place(r.slots, ieee) == |r.slots| then untold else untold - {ieee}
    case OpLeave(ieee, _) => untold - {ieee}
    case OpReboot(order) => if Lists(order, r.store) then untold + unsure + Skipped(r, order) else untold
    case _ => untold
  }

  ghost function UntoldAfter(r: Reg, ops: seq<Op>, unsure: set<nat>, untold: set<nat>): set<nat>
    requires forall i :: 0 <= i < |ops| ==> Defined(ops[i])
    decreases |ops|
  {
    if ops == [] then untold
    else UntoldAfter(Next(r, ops[0]), ops[1..], Unsure(r, ops[0], unsure), Untold(r, ops[0], unsure, untold))
  }

  ghost predicate Seen(r: Reg, untold: set<nat>) {
    Refines(r.slots, Replay(r.events), untold)
  }

  lemma {:induction false} JoinSeen(r: Reg, ieee: nat, nwk: Word16, saved: bool, untold: set<nat>)
    requires Seen(r, untold) && Place(r.slots, ieee) < |r.slots|
    ensures Seen(Join(r, ieee, nwk, saved).0, untold - {ieee})
  {
    ReplaySnoc(r.events, Joined(ieee, nwk));
    PlaceRefines(r.slots, Replay(r.events), untold, ieee,
                 r.slots[Place(r.slots, ieee)].(active := true, ieee := ieee, nwk := nwk));
  }

  lemma {:induction false} LeaveSeen(r: Reg, ieee: nat, deleted: bool, untold: set<nat>)
    requires Seen(r, untold)
    ensures Seen(Leave(r, ieee, deleted), untold - {ieee})
  {
    ReplaySnoc(r.events, Left(ieee));
    LeaveRefines(r.slots, Replay(r.events), untold, ieee);
  }

  lemma {:induction false} LearnSeen(slots: seq<Dev>, ieee: nat, news: seq<nat>, addrs: Addrs, untold: set<nat>)
    requires Refines(slots, addrs, untold)
    ensures Refines(Learn(slots, ieee, news), addrs, untold)
  {
    SameAddressesRefine(slots, Learn(slots, ieee, news), addrs, untold);
  }

  lemma {:induction false} DescribeSeen(r: Reg, p: seq<byte>, saved: bool, untold: set<nat>)
    requires Seen(r, untold)
    ensures Seen(Describe(r, p, saved), untold)
  {
    if Describes(r, p) {
      LearnSeen(r.slots, r.slots[DescribedSlot(r, p)].ieee, CapsOf(p[6], DescClusters(p)), Replay(r.events), untold);
    }
  }

  /** What an AF message does: one device may learn, and reports are added to the events. */
  lemma {:induction false} AfParts(r: Reg, p: seq<byte>) returns (ieee: nat, news: seq<nat>, reports: seq<CapEvent>)
    requires AfDefined(p)
    ensures AfIncoming(r, p) == r
            || AfIncoming(r, p) == r.(slots := Learn(r.slots, ieee, news), events := r.events + Reports(reports))
  {
    ieee, news, reports := 0, [], [];
    if |p| >= 17 {
      var k := FindNwk(r.slots, U16(p[4], p[5]));
      var n: nat := p[16];
      if |p| >= 17 + n && k < |r.slots| {
        ieee := r.slots[k].ieee;
        news := [CapId(p[6], U16(p[2], p[3]))];
        reports := ZclEvents(ieee, p[6], U16(p[2], p[3]), p[17..17 + n]);
      }
    }
  }

  lemma {:induction false} AfSeen(r: Reg, p: seq<byte>, untold: set<nat>)
    requires Seen(r, untold) && AfDefined(p)
    ensures Seen(AfIncoming(r, p), untold)
  {
    var ieee, news, reports := AfParts(r, p);
    LearnSeen(r.slots, ieee, news, Replay(r.events), untold);
    ReplayReports(r.events, reports);
  }

  /** Two maps that agree with the same slots, and two sets of slots that agree with the same map. */
  lemma {:induction false} RefinesThrough(a: seq<Dev>, b: seq<Dev>, told: Addrs, stored: Addrs,
                                          untold: set<nat>, unsure: set<nat>, skipped: set<nat>)
    requires Refines(a, told, untold) && Refines(a, stored, unsure) && Refines(b, stored, skipped)
    ensures Refines(b, told, untold + unsure + skipped)
  {
    forall i | 0 <= i < |b| && b[i].active && b[i].ieee !in untold + unsure + skipped
      ensures b[i].ieee in told && told[b[i].ieee] == b[i].nwk
    {
      InKeys(a, b[i].ieee);
      assert a[FindIeee(a, b[i].ieee)].ieee == b[i].ieee;
    }
    forall ieee | ieee in told && ieee !in untold + unsure + skipped ensures ieee in Keys(b) {
      InKeys(a, ieee);
      assert a[FindIeee(a, ieee)].ieee == ieee;
    }
  }

  lemma {:induction false} SeenStep(r: Reg, op: Op, unsure: set<nat>, untold: set<nat>)
    requires Inv(r, unsure) && Seen(r, untold) && Defined(op)
    ensures Seen(Next(r, op), Untold(r, op, unsure, untold))
  {
    match op {
      case OpJoin(ieee, nwk, saved) =>
        if Place(r.slots, ieee) < |r.slots| {
          JoinSeen(r, ieee, nwk, saved, untold);
        }
      case OpLeave(ieee, deleted) => LeaveSeen(r, ieee, deleted, untold);
      case OpDescribe(p, saved) => DescribeSeen(r, p, saved, untold);
      case OpAf(p) => AfSeen(r, p, untold);
      case OpReboot(order) =>
        if Lists(order, r.store) {
          RebootInv(r, order, unsure);
          RefinesThrough(r.slots, Restored(r, order).slots, Replay(r.events), Addresses(r.store),
                         untold, unsure, Skipped(r, order));
        }
    }
  }

  lemma {:induction false} SeenRun(r: Reg, ops: seq<Op>, unsure: set<nat>, untold: set<nat>)
    requires Inv(r, unsure) && Seen(r, untold) && forall i :: 0 <= i < |ops| ==> Defined(ops[i])
    ensures Seen(Exec(r, ops), UntoldAfter(r, ops, unsure, untold))
    decreases |ops|
  {
    if ops != [] {
      InvStep(r, ops[0], unsure);
      SeenStep(r, ops[0], unsure, untold);
      SeenRun(Next(r, ops[0]), ops[1..], Unsure(r, ops[0], unsure), Untold(r, ops[0], unsure, untold));
    }
  }

  /** After any operations and restarts with any failures of the storage, the JOINED and LEFT events emitted
      since the beginning say exactly which devices are registered with which network addresses,
      except for those that a restart brought up differently. */
  lemma {:induction false} EventsTellRegistry(ops: seq<Op>)
    requires forall i :: 0 <= i < |ops| ==> Defined(ops[i])
    ensures var r, untold := Exec(START, ops), UntoldAfter(START, ops, {}, {});
            && (forall ieee :: ieee !in untold ==> (ieee in Replay(r.events) <==> ieee in Keys(r.slots)))
            && (forall i :: 0 <= i < |r.slots| && r.slots[i].active && r.slots[i].ieee !in untold ==>
                  r.slots[i].ieee in Replay(r.events) && Replay(r.events)[r.slots[i].ieee] == r.slots[i].nwk)
  {
    StartInv();
    assert Keys(START.slots) == {};
    SeenRun(START, ops, {}, {});
    var r, untold := Exec(START, ops), UntoldAfter(START, ops, {}, {});
    forall ieee | ieee in Keys(r.slots) && ieee !in untold ensures ieee in Replay(r.events) {
      InKeys(r.slots, ieee);
      assert r.slots[FindIeee(r.slots, ieee)].ieee == ieee;
    }
  }

  /** While no storage access fails, a restart brings up nothing that the emitted events do not say. */
  lemma {:induction false} ToldStep(r: Reg, op: Op)
    requires Inv(r, {}) && Defined(op) && Succeeds(op)
    ensures Untold(r, op, {}, {}) == {}
  {
    if op.OpReboot? && Lists(op.order, r.store) {
      RefinedKeys(r.slots, Addresses(r.store));
      NothingSkipped(r, op.order);
    }
  }

  lemma {:induction false} AllToldWhileStorageWorks(r: Reg, ops: seq<Op>)
    requires Inv(r, {}) && forall i :: 0 <= i < |ops| ==> Defined(ops[i]) && Succeeds(ops[i])
    ensures UntoldAfter(r, ops, {}, {}) == {}
    decreases |ops|
  {
    if ops != [] {
      ToldStep(r, ops[0]);
      InvStep(r, ops[0], {});
      SureStep(r, ops[0]);
      AllToldWhileStorageWorks(Next(r, ops[0]), ops[1..]);
    }
  }

  // ---------- Single operations ----------

  /** A join is refused exactly when the device is unknown and 100 devices are registered. */
  lemma {:induction false} JoinRefusedIff(r: Reg, ieee: nat, nwk: Word16, saved: bool)
    requires DistinctIeee(r.slots)
    ensures !Join(r, ieee, nwk, saved).1 <==> ieee !in Keys(r.slots) && |Keys(r.slots)| == |r.slots|
    ensures !Join(r, ieee, nwk, saved).1 ==> Join(r, ieee, nwk, saved).0 == r
  {
    InKeys(r.slots, ieee);
    if FindFree(r.slots) == |r.slots| {
      AllActive(r.slots);
    } else {
      SomeInactive(r.slots, FindFree(r.slots));
    }
  }

  lemma {:induction false} SomeInactive(slots: seq<Dev>, k: nat)
    requires k < |slots| && !slots[k].active
    ensures |Keys(slots)| < |slots|
  {
    var rest := slots[..k] + slots[k + 1..];
    forall x | x in Keys(slots) ensures x in Keys(rest) {
      var i :| 0 <= i < |slots| && slots[i].active && slots[i].ieee == x;
      var j := if i < k then i else i - 1;
      assert rest[j] == slots[i];
    }
    KeysBound(rest);
    SubsetSize(Keys(slots), Keys(rest));
  }

  /** A device that is new gets the first free slot with the capabilities that slot was left with. */
  lemma {:induction false} NewDeviceCaps(r: Reg, ieee: nat, nwk: Word16, saved: bool)
    requires FindIeee(r.slots, ieee) == |r.slots| && FindFree(r.slots) < |r.slots|
    ensures var (r', ok) := Join(r, ieee, nwk, saved);
            var k := FindFree(r.slots);
            ok && r'.slots == r.slots[k := Dev(true, ieee, nwk, r.slots[k].caps)]
  {
  }

  /** So a device that is new gets the capabilities of one that left, if it moves into its slot. */
  lemma {:induction false} InheritsCaps(r: Reg, gone: nat, ieee: nat, nwk: Word16)
    requires FindIeee(r.slots, gone) < FindFree(r.slots) && gone != ieee
    requires FindIeee(r.slots, ieee) == |r.slots|
    ensures var k := FindIeee(r.slots, gone);
            var r' := Join(Leave(r, gone, true), ieee, nwk, true).0;
            r'.slots == r.slots[k := Dev(true, ieee, nwk, r.slots[k].caps)]
  {
    var k := FindIeee(r.slots, gone);
    var slots := Leave(r, gone, true).slots;
    assert slots == r.slots[k := r.slots[k].(active := false)];
    FirstFree(slots, k);
    NotThere(slots, ieee);
  }

  /** A whole run from the empty registry: a device joins, is described and leaves; the next one to join
      has its capabilities. */
  lemma {:induction false} CapsOutliveDevice(gone: nat, ieee: nat, nwk: Word16, head: seq<byte>,
                                             ins: seq<Word16>, outs: seq<Word16>)
    requires gone != ieee && |head| == 11 && head[2] == 0 && 13 + 2 * |ins| + 2 * |outs| <= 250
    requires ins + outs != []
    ensures var ops := [OpJoin(gone, U16(head[3], head[4]), true), OpDescribe(DescImage(head, ins, outs), true),
                        OpLeave(gone, true), OpJoin(ieee, nwk, true)];
            var slots := Exec(START, ops).slots;
            && slots != [] && slots[0].caps != []
            && slots[0] == Dev(true, ieee, nwk, Cut(FirstNew([], CapsOf(head[6], ins + outs))))
  {
    var was, p := U16(head[3], head[4]), DescImage(head, ins, outs);
    var caps := Cut(FirstNew([], CapsOf(head[6], ins + outs)));
    var r1 := Join(START, gone, was, true).0;
    FirstFree(START.slots, 0);
    NotThere(START.slots, gone);
    assert r1.slots[0] == Dev(true, gone, was, []);
    var r2 := Describe(r1, p, true);
    FirstNwk(r1.slots, was);
    DescribeLearns(r1, head, ins, outs, true);
    assert [] + FirstNew([], CapsOf(head[6], ins + outs)) == FirstNew([], CapsOf(head[6], ins + outs));
    assert r2.slots[0] == Dev(true, gone, was, caps);
    var r3 := Leave(r2, gone, true);
    FindFirst(r2.slots, gone, 0);
    assert r3.slots[0] == Dev(false, gone, was, caps);
    FirstFree(r3.slots, 0);
    NotThere(r3.slots, ieee);
    FourOps(START, OpJoin(gone, was, true), OpDescribe(p, true), OpLeave(gone, true), OpJoin(ieee, nwk, true));
  }

  lemma {:induction false} FirstNwk(slots: seq<Dev>, nwk: Word16)
    requires slots != [] && slots[0].active && slots[0].nwk == nwk
    ensures FindNwk(slots, nwk) == 0
  {
  }

  lemma {:induction false} FourOps(r: Reg, a: Op, b: Op, c: Op, d: Op)
    requires Defined(a) && Defined(b) && Defined(c) && Defined(d)
    ensures Exec(r, [a, b, c, d]) == Next(Next(Next(Next(r, a), b), c), d)
  {
    assert [a, b, c, d][1..] == [b, c, d] && [b, c, d][1..] == [c, d] && [c, d][1..] == [d] && [d][1..] == [];
    var r1 := Next(r, a);
    var r2 := Next(r1, b);
    var r3 := Next(r2, c);
    assert Exec(r, [a, b, c, d]) == Exec(r1, [b, c, d]) == Exec(r2, [c, d]) == Exec(r3, [d]) == Next(r3, d);
  }

  lemma {:induction false} FirstFree(slots: seq<Dev>, k: nat)
    requires k < |slots| && !slots[k].active && forall j :: 0 <= j < k ==> slots[j].active
    ensures FindFree(slots) == k
  {
  }

  lemma {:induction false} NotThere(slots: seq<Dev>, ieee: nat)
    requires forall j :: 0 <= j < |slots| ==> !(slots[j].active && slots[j].ieee == ieee)
    ensures FindIeee(slots, ieee) == |slots|
  {
  }

  /** A descriptor of a known device with in-clusters and out-clusters that fits a payload: the device's
      list becomes the old one followed by the first new occurrences, cut at 64 entries; no
      other slot changes. */
  lemma {:induction false} DescribeLearns(r: Reg, head: seq<byte>, ins: seq<Word16>, outs: seq<Word16>, saved: bool)
    requires DistinctIeee(r.slots) && AllGoodCaps(r.slots) && |head| == 11 && 13 + 2 * |ins| + 2 * |outs| <= 250 && head[2] == 0
    requires FindNwk(r.slots, U16(head[3], head[4])) < |r.slots|
    ensures var r' := Describe(r, DescImage(head, ins, outs), saved);
            var k := FindNwk(r.slots, U16(head[3], head[4]));
            && |r'.slots| == |r.slots|
            && r'.slots[k] == r.slots[k].(caps := Cut(r.slots[k].caps + FirstNew(r.slots[k].caps, CapsOf(head[6], ins + outs))))
            && (forall i :: 0 <= i < |r.slots| && i != k ==> r'.slots[i] == r.slots[i])
  {
    var p := DescImage(head, ins, outs);
    DescRoundTrip(head, ins, outs);
    assert p[2] == head[2] && p[3] == head[3] && p[4] == head[4] && p[6] == head[6];
    var k := FindNwk(r.slots, U16(head[3], head[4]));
    OwnSlot(r.slots, k);
    LearnAllIsFirstNew(r.slots[k].caps, CapsOf(head[6], ins + outs));
  }

  lemma {:induction false} OwnSlot(slots: seq<Dev>, k: nat)
    requires DistinctIeee(slots) && k < |slots| && slots[k].active
    ensures FindIeee(slots, slots[k].ieee) == k
  {
  }

  /** A report message from a known device: header, three ZCL bytes and serialised records. */
  function ReportPayload(head: seq<byte>, frameCtrl: byte, seqNo: byte, records: seq<AttrRecord>): seq<byte>
    requires |head| == 16 && |Serialise(records)| <= 230
  {
    head + [3 + |Serialise(records)|] + [frameCtrl, seqNo, 0x0A] + Serialise(records)
  }

  /** Any list of well-typed records that fits a message yields exactly one typed event for each, in
      order, for the device that sent it. */
  lemma {:induction false} ReportsRoundTrip(r: Reg, head: seq<byte>, frameCtrl: byte, seqNo: byte, records: seq<AttrRecord>)
    requires |head| == 16 && |Serialise(records)| <= 230 && AllWellTyped(records)
    requires FindNwk(r.slots, U16(head[4], head[5])) < |r.slots|
    ensures AfDefined(ReportPayload(head, frameCtrl, seqNo, records))
    ensures var dev := r.slots[FindNwk(r.slots, U16(head[4], head[5]))];
            AfIncoming(r, ReportPayload(head, frameCtrl, seqNo, records)).events
            == r.events + Reports(EventsOf(dev.ieee, head[6], U16(head[2], head[3]), records))
  {
    var zcl := [frameCtrl, seqNo, 0x0A] + Serialise(records);
    assert ReportPayload(head, frameCtrl, seqNo, records) == head + [|zcl|] + zcl;
    AfEvents(r, head, zcl);
    ReportsOfZcl(r.slots[FindNwk(r.slots, U16(head[4], head[5]))].ieee, head[6], U16(head[2], head[3]),
                 frameCtrl, seqNo, records);
  }

  /** The parts of a message are found where they were put. */
  lemma {:induction false} PayloadParts(head: seq<byte>, zcl: seq<byte>)
    requires |head| == 16 && |zcl| <= 233
    ensures var p := head + [|zcl|] + zcl;
            p[16] == |zcl| && p[17..17 + |zcl|] == zcl && forall i :: 0 <= i < 16 ==> p[i] == head[i]
  {
  }

  lemma {:induction false} AfEvents(r: Reg, head: seq<byte>, zcl: seq<byte>)
    requires |head| == 16 && |zcl| <= 233 && FindNwk(r.slots, U16(head[4], head[5])) < |r.slots|
    ensures AfDefined(head + [|zcl|] + zcl)
    ensures AfIncoming(r, head + [|zcl|] + zcl).events
            == r.events + Reports(ZclEvents(r.slots[FindNwk(r.slots, U16(head[4], head[5]))].ieee,
                                            head[6], U16(head[2], head[3]), zcl))
  {
    PayloadParts(head, zcl);
    var p := head + [|zcl|] + zcl;
    assert p[2] == head[2] && p[3] == head[3] && p[4] == head[4] && p[5] == head[5] && p[6] == head[6];
  }

  lemma {:induction false} ReportsOfZcl(ieee: nat, ep: byte, cluster: Word16, frameCtrl: byte, seqNo: byte,
                                        records: seq<AttrRecord>)
    requires AllWellTyped(records)
    ensures ZclEvents(ieee, ep, cluster, [frameCtrl, seqNo, 0x0A] + Serialise(records))
            == EventsOf(ieee, ep, cluster, records)
  {
    var zcl := [frameCtrl, seqNo, 0x0A] + Serialise(records);
    assert zcl[3..] == Serialise(records) + [];
    ParseSerialise(records, []);
    assert records + [] == records;
  }

  // ---------- The registry in place ----------

  class Registry {
    const devices: array<Dev>
    var store: Store
    var events: seq<RegEvent>

    ghost predicate Valid()
      reads this
    {
      devices.Length == MAX_DEVICES
    }

    ghost function Value(): Reg
      reads this, devices
    {
      Reg(devices[..], store, events)
    }

    constructor ()
      ensures Valid() && fresh(devices) && Value() == Reg(EmptySlots(), map[], [])
    {
      devices := new Dev[MAX_DEVICES](_ => EMPTY_DEV);
      store, events := map[], [];
      new;
      assert devices[..] == EmptySlots();
    }

    method FindByIeee(ieee: nat) returns (k: nat)
      ensures k == FindIeee(devices[..], ieee)
    {
      k := 0;
      while k < devices.Length
        invariant k <= devices.Length
        invariant FindIeee(devices[..], ieee) == FindIeee(devices[..], ieee, k)
      {
        if devices[k].active && devices[k].ieee == ieee {
          return;
        }
        k := k + 1;
      }
    }

    method FindByNwk(nwk: Word16) returns (k: nat)
      ensures k == FindNwk(devices[..], nwk)
    {
      k := 0;
      while k < devices.Length
        invariant k <= devices.Length
        invariant FindNwk(devices[..], nwk) == FindNwk(devices[..], nwk, k)
      {
        if devices[k].active && devices[k].nwk == nwk {
          return;
        }
        k := k + 1;
      }
    }

    method FindFreeSlot() returns (k: nat)
      ensures k == FindFree(devices[..])
    {
      k := 0;
      while k < devices.Length
        invariant k <= devices.Length
        invariant FindFree(devices[..]) == FindFree(devices[..], k)
      {
        if !devices[k].active {
          return;
        }
        k := k + 1;
      }
    }

    method ChoosePlace(ieee: nat) returns (k: nat)
      ensures k == Place(devices[..], ieee)
    {
      k := FindByIeee(ieee);
      if k == devices.Length {
        k := FindFreeSlot();
      }
    }

    method JoinDevice(ieee: nat, nwk: Word16, saved: bool) returns (ok: bool)
      modifies this, devices
      ensures (Value(), ok) == Join(old(Value()), ieee, nwk, saved)
    {
      var k := ChoosePlace(ieee);
      if k == devices.Length {
        return false;
      }
      devices[k] := devices[k].(active := true, ieee := ieee, nwk := nwk);
      if saved {
        store := store[ieee := Record(nwk, [])];
      }
      events := events + [Joined(ieee, nwk)];
      return true;
    }

    method LeaveDevice(ieee: nat, deleted: bool)
      modifies this, devices
      ensures Value() == Leave(old(Value()), ieee, deleted)
    {
      var k := FindByIeee(ieee);
      if k < devices.Length {
        devices[k] := devices[k].(active := false);
      }
      if deleted {
        store := store - {ieee};
      }
      events := events + [Left(ieee)];
    }

    method LearnCapability(ieee: nat, cap: nat)
      modifies devices
      ensures devices[..] == Learn(old(devices[..]), ieee, [cap])
    {
      var k := FindByIeee(ieee);
      if k == devices.Length {
        return;
      }
      var caps := devices[k].caps;
      LearnOne(caps, cap);
      for i := 0 to |caps|
        invariant cap !in caps[..i]
        invariant devices[..] == old(devices[..])
      {
        if caps[i] == cap {
          assert devices[..][k := devices[k].(caps := caps)] == devices[..];
          return;
        }
      }
      assert caps[..|caps|] == caps;
      if |caps| < MAX_CAPS {
        devices[k] := devices[k].(caps := caps + [cap]);
      } else {
        assert devices[..][k := devices[k].(caps := caps)] == devices[..];
      }
    }

    method CountActive() returns (n: nat)
      ensures n == |ActiveIndices(devices[..])|
    {
      n := 0;
      for i := 0 to devices.Length
        invariant n == |ActiveIndices(devices[..i])|
      {
        ActiveSnoc(devices[..i], devices[i]);
        assert devices[..i + 1] == devices[..i] + [devices[i]];
        if devices[i].active {
          n := n + 1;
        }
      }
      assert devices[..devices.Length] == devices[..];
    }

    /** A simple descriptor response: both loops learn one cluster at a time. */
    method SimpleDescriptor(p: seq<byte>, saved: bool)
      modifies this, devices
      ensures Value() == Describe(old(Value()), p, saved)
    {
      if |p| < 12 || p[2] != 0 {
        return;
      }
      var nwk, ep := U16(p[3], p[4]), p[6];
      var k := FindByNwk(nwk);
      if k == devices.Length {
        return;
      }
      var ieee := devices[k].ieee;
      ghost var before := devices[..];
      LearnClusters(ieee, ep, p, 12, p[11]);
      ghost var ins := Clusters(p, 12, p[11]);
      var inEnd := InEnd(p);
      if inEnd < |p| {
        LearnClusters(ieee, ep, p, inEnd + 1, p[inEnd]);
        LearnConcat(before, ieee, ep, ins, Clusters(p, inEnd + 1, p[inEnd]));
      } else {
        assert ins + [] == ins;
      }
      if saved {
        store := store[ieee := Record(nwk, [])];
      }
    }

    /** One of the two loops: the clusters that the payload holds are learned one after the other. */
    method LearnClusters(ieee: nat, ep: byte, p: seq<byte>, start: nat, count: nat)
      modifies devices
      ensures devices[..] == Learn(old(devices[..]), ieee, CapsOf(ep, Clusters(p, start, count)))
    {
      ghost var before := devices[..];
      ghost var all: seq<Word16> := [];
      LearnNothing(before, ieee, ep);
      var i := 0;
      while i < count
        invariant i <= count
        invariant Clusters(p, start, count) == all + Clusters(p, start + 2 * i, count - i)
        invariant devices[..] == Learn(before, ieee, CapsOf(ep, all))
      {
        if start + 2 * i + 1 >= |p| {
          break;
        }
        var cluster := U16(p[start + 2 * i], p[start + 2 * i + 1]);
        LearnCapability(ieee, CapId(ep, cluster));
        LearnSnoc(before, ieee, ep, all, cluster);
        NextCluster(p, start, i, count, all);
        all := all + [cluster];
        i := i + 1;
      }
      assert all + [] == all;
    }

    method AfMessage(p: seq<byte>)
      requires AfDefined(p)
      modifies this, devices
      ensures Value() == AfIncoming(old(Value()), p)
    {
      if |p| < 17 {
        return;
      }
      var dataLen: nat := p[16];
      if |p| < (17 + dataLen) % 256 {
        return;
      }
      var cluster, ep := U16(p[2], p[3]), p[6];
      var zcl := p[17..17 + dataLen];
      var k := FindByNwk(U16(p[4], p[5]));
      if k == devices.Length {
        return;
      }
      var ieee := devices[k].ieee;
      LearnCapability(ieee, CapId(ep, cluster));
      var reports: seq<CapEvent> := [];
      if dataLen >= 3 {
        if cluster == CLUSTER_IAS_ZONE && zcl[0] % 2 == 1 && zcl[2] == 0x00 {
          if dataLen - 3 >= 2 {
            reports := [CapEvent(ieee, CapId(ep, CLUSTER_IAS_ZONE), IasZone(0, 0, U16(zcl[3], zcl[4])))];
          }
        } else if zcl[2] == 0x0A {
          reports := DispatchReports(ieee, ep, cluster, zcl[3..]);
        }
      }
      events := events + Reports(reports);
    }

    /** Start-up: empty slots, then one record after the other in directory order. */
    method Restore(order: seq<nat>)
      requires Valid() && forall i :: 0 <= i < |order| ==> order[i] in store
      modifies devices
      ensures devices[..] == RestoreAll(EmptySlots(), store, order)
    {
      for i := 0 to MAX_DEVICES
        invariant forall j :: 0 <= j < i ==> devices[j] == EMPTY_DEV
      {
        devices[i] := EMPTY_DEV;
      }
      assert devices[..] == EmptySlots();
      for i := 0 to |order|
        invariant RestoreAll(EmptySlots(), store, order) == RestoreAll(devices[..], store, order[i..])
      {
        assert order[i..][1..] == order[i + 1..];
        LoadRecord(order[i], store[order[i]]);
      }
    }

    method LoadRecord(ieee: nat, rec: Record)
      modifies devices
      ensures devices[..] == RestoreOne(old(devices[..]), ieee, rec)
    {
      var k := ChoosePlace(ieee);
      if k < devices.Length {
        var caps := RebuildCaps(rec.endpoints);
        devices[k] := Dev(true, ieee, rec.nwk, caps);
      }
    }
  }

  /** The nested loops over the endpoints of a record and over their clusters. */
  method RebuildCaps(endpoints: seq<Endpoint>) returns (caps: seq<nat>)
    ensures caps == Cut(StoredCaps(endpoints))
  {
    caps := [];
    for e := 0 to |endpoints|
      invariant Cut(StoredCaps(endpoints)) == Cut(caps + StoredCaps(endpoints[e..])) && |caps| <= MAX_CAPS
    {
      var ep := endpoints[e];
      ghost var rest := StoredCaps(endpoints[e + 1..]);
      ghost var more := CapsOf(ep.ep, ep.clusters);
      assert endpoints[e..][1..] == endpoints[e + 1..];
      ghost var before := caps;
      var c := 0;
      while c < |ep.clusters| && |caps| < MAX_CAPS
        invariant c <= |ep.clusters| && |caps| <= MAX_CAPS
        invariant caps == before + more[..c]
      {
        caps := caps + [CapId(ep.ep, ep.clusters[c])];
        c := c + 1;
      }
      StoppedEarly(before, more, c, rest);
    }
    assert caps + [] == caps;
  }

  /** Stopping at the end of the clusters or at 64 entries does not change the result. */
  lemma {:induction false} StoppedEarly(before: seq<nat>, more: seq<nat>, c: nat, rest: seq<nat>)
    requires c <= |more| && |before + more[..c]| <= MAX_CAPS
    requires c == |more| || |before + more[..c]| == MAX_CAPS
    ensures Cut(before + (more + rest)) == Cut(before + more[..c] + rest)
  {
    assert more + rest == more[..c] + (more[c..] + rest);
    assert before + (more + rest) == before + more[..c] + (more[c..] + rest);
  }

  lemma {:induction false} LearnOne(caps: seq<nat>, cap: nat)
    ensures LearnAll(caps, [cap]) == LearnCap(caps, cap)
  {
    assert [cap][1..] == [];
  }

  ghost function ActiveIndices(slots: seq<Dev>): set<nat> {
    set i | 0 <= i < |slots| && slots[i].active
  }

  lemma {:induction false} ActiveSnoc(slots: seq<Dev>, d: Dev)
    ensures |ActiveIndices(slots + [d])| == |ActiveIndices(slots)| + (if d.active then 1 else 0)
  {
    var more: set<nat> := if d.active then {|slots|} else {};
    assert ActiveIndices(slots + [d]) == ActiveIndices(slots) + more;
  }

  lemma {:induction false} LearnNothing(slots: seq<Dev>, ieee: nat, ep: byte)
    ensures Learn(slots, ieee, CapsOf(ep, [])) == slots
  {
    assert CapsOf(ep, []) == [];
    var k := FindIeee(slots, ieee);
    if k < |slots| {
      assert slots[k := slots[k].(caps := slots[k].caps)] == slots;
    }
  }

  lemma {:induction false} LearnAllConcat(caps: seq<nat>, a: seq<nat>, b: seq<nat>)
    ensures LearnAll(caps, a + b) == LearnAll(LearnAll(caps, a), b)
    decreases |a|
  {
    if a == [] {
      assert a + b == b;
    } else {
      assert (a + b)[0] == a[0] && (a + b)[1..] == a[1..] + b;
      LearnAllConcat(LearnCap(caps, a[0]), a[1..], b);
    }
  }

  lemma {:induction false} FindFirst(slots: seq<Dev>, ieee: nat, k: nat)
    requires k < |slots| && slots[k].active && slots[k].ieee == ieee
    requires forall j :: 0 <= j < k ==> !(slots[j].active && slots[j].ieee == ieee)
    ensures FindIeee(slots, ieee) == k
  {
  }

  /** Learning twice is learning the two lists in a row. */
  lemma {:induction false} LearnTwice(slots: seq<Dev>, ieee: nat, a: seq<nat>, b: seq<nat>)
    ensures Learn(Learn(slots, ieee, a), ieee, b) == Learn(slots, ieee, a + b)
  {
    var k := FindIeee(slots, ieee);
    if k < |slots| {
      FindFirst(Learn(slots, ieee, a), ieee, k);
      LearnAllConcat(slots[k].caps, a, b);
    }
  }

  lemma {:induction false} LearnConcat(slots: seq<Dev>, ieee: nat, ep: byte, a: seq<Word16>, b: seq<Word16>)
    ensures Learn(Learn(slots, ieee, CapsOf(ep, a)), ieee, CapsOf(ep, b)) == Learn(slots, ieee, CapsOf(ep, a + b))
  {
    assert CapsOf(ep, a + b) == CapsOf(ep, a) + CapsOf(ep, b);
    LearnTwice(slots, ieee, CapsOf(ep, a), CapsOf(ep, b));
  }

  lemma {:induction false} LearnSnoc(before: seq<Dev>, ieee: nat, ep: byte, done: seq<Word16>, cluster: Word16)
    ensures Learn(Learn(before, ieee, CapsOf(ep, done)), ieee, [CapId(ep, cluster)])
            == Learn(before, ieee, CapsOf(ep, done + [cluster]))
  {
    assert CapsOf(ep, [cluster]) == [CapId(ep, cluster)];
    LearnConcat(before, ieee, ep, done, [cluster]);
  }

  lemma {:induction false} NextCluster(p: seq<byte>, start: nat, i: nat, count: nat, all: seq<Word16>)
    requires i < count && start + 2 * i + 1 < |p|
    requires Clusters(p, start, count) == all + Clusters(p, start + 2 * i, count - i)
    ensures Clusters(p, start, count)
            == all + [U16(p[start + 2 * i], p[start + 2 * i + 1])] + Clusters(p, start + 2 * (i + 1), count - (i + 1))
  {
    var c := U16(p[start + 2 * i], p[start + 2 * i + 1]);
    var rest := Clusters(p, start + 2 * (i + 1), count - (i + 1));
    assert all + ([c] + rest) == all + [c] + rest;
  }
}
