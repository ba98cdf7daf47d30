/** The coprocessor's non-volatile items and the operations of the network helper on them.

    Every request may be answered, refused or lost; a lost write may or may not have been applied.
    The answers are an arbitrary function of the request number. */
module NvNetwork {
  import opened Bits
  import opened NetConfig

  const NV_PRECFGKEY: nat := 0x0062
  const NV_PRECFGKEYS_EN: nat := 0x0063
  const NV_PANID: nat := 0x0083
  const NV_CHANLIST: nat := 0x0084
  const NV_LOGICAL_TYPE: nat := 0x0087
  const COORDINATOR: byte := 0x00
  const FIRST_CHANNEL: nat := 11
  const LAST_CHANNEL: nat := 26

  datatype Answer = Granted | Denied | Lost(applied: bool)

  type Nv = map<nat, seq<byte>>

  datatype Env = Env(nv: Nv, answers: nat -> Answer, clock: nat) {
    function Answer(): Answer {
      answers(clock)
    }

    function Tick(): Env {
      this.(clock := clock + 1)
    }
  }

  datatype Err = EspOk | NotFound | Fail | TimedOut

  // ---------- Single items ----------

  /** A write at offset 0 replaces the front of an item. */
  function Put(nv: Nv, id: nat, data: seq<byte>): Nv {
    var tail := if id in nv && |nv[id]| > |data| then nv[id][|data|..] else [];
    nv[id := data + tail]
  }

  function WriteNv(e: Env, id: nat, data: seq<byte>): (Env, Err) {
    match e.Answer()
    case Granted => (e.Tick().(nv := Put(e.nv, id, data)), EspOk)
    case Denied => (e.Tick(), Fail)
    case Lost(applied) => (if applied then e.Tick().(nv := Put(e.nv, id, data)) else e.Tick(), TimedOut)
  }

  /** The front of the buffer is overwritten with as many bytes as the item has and the buffer holds. */
  function Overlay(buf: seq<byte>, data: seq<byte>): (r: seq<byte>)
    ensures |r| == |buf|
  {
    if |data| >= |buf| then data[..|buf|] else data + buf[|data|..]
  }

  function ReadNv(e: Env, id: nat, buf: seq<byte>): (Env, Err, seq<byte>) {
    match e.Answer()
    case Granted =>
      if id in e.nv then (e.Tick(), EspOk, Overlay(buf, e.nv[id])) else (e.Tick(), NotFound, buf)
    case Denied => (e.Tick(), NotFound, buf)
    case Lost(_) => (e.Tick(), TimedOut, buf)
  }

  // ---------- Channel masks ----------

  /** `mask & (1 << n)` */
  predicate Bit(mask: nat, n: nat) {
    if n == 0 then mask % 2 == 1 else Bit(mask / 2, n - 1)
  }

  /** The lowest channel from `c` on that is in the mask, or 0. */
  function LowestChannel(mask: nat, c: nat): (channel: nat)
    requires c > 0
    ensures channel == 0 ==> forall k :: c <= k <= LAST_CHANNEL ==> !Bit(mask, k)
    ensures channel != 0 ==>
              c <= channel <= LAST_CHANNEL && Bit(mask, channel) && forall k :: c <= k < channel ==> !Bit(mask, k)
    decreases LAST_CHANNEL + 1 - c
  {
    if c > LAST_CHANNEL then 0 else if Bit(mask, c) then c else LowestChannel(mask, c + 1)
  }

  lemma {:induction false} Pow2Positive(n: nat)
    ensures Pow2(n) > 0
  {
    if n > 0 {
      Pow2Positive(n - 1);
    }
  }

  lemma {:induction false} Pow2Sum(a: nat, b: nat)
    ensures Pow2(a + b) == Pow2(a) * Pow2(b)
  {
    if a > 0 {
      Pow2Sum(a - 1, b);
    }
  }

  lemma {:induction false} Pow2Grows(a: nat, b: nat)
    requires a < b
    ensures Pow2(a) < Pow2(b)
    decreases b
  {
    Pow2Positive(b - 1);
    if a < b - 1 {
      Pow2Grows(a, b - 1);
    }
  }

  lemma {:induction false} BitOfZero(n: nat)
    ensures !Bit(0, n)
  {
    if n > 0 {
      BitOfZero(n - 1);
    }
  }

  lemma {:induction false} BitOfPow2(c: nat, n: nat)
    ensures Bit(Pow2(c), n) <==> c == n
  {
    if n > 0 {
      if c > 0 {
        assert Pow2(c) / 2 == Pow2(c - 1);
        BitOfPow2(c - 1, n - 1);
      } else {
        BitOfZero(n - 1);
      }
    }
  }

  lemma {:induction false} LowestOfPow2(c: nat, from: nat)
    requires from > 0
    ensures LowestChannel(Pow2(c), from) == if from <= c <= LAST_CHANNEL then c else 0
    decreases LAST_CHANNEL + 1 - from
  {
    if from <= LAST_CHANNEL {
      BitOfPow2(c, from);
      LowestOfPow2(c, from + 1);
    }
  }

  lemma {:induction false} LittleEndianZeros(data: seq<byte>, zeros: seq<byte>)
    requires forall i :: 0 <= i < |zeros| ==> zeros[i] == 0
    ensures LittleEndian(data + zeros) == LittleEndian(data)
    decreases |data| + |zeros|
  {
    if data != [] {
      assert (data + zeros)[1..] == data[1..] + zeros;
      LittleEndianZeros(data[1..], zeros);
    } else if zeros != [] {
      assert [] + zeros == zeros && [] + zeros[1..] == zeros[1..];
      LittleEndianZeros([], zeros[1..]);
    }
  }

  // ---------- What the items say ----------

  function Front(nv: Nv, id: nat, len: nat): seq<byte>
    requires id in nv
  {
    if |nv[id]| > len then nv[id][..len] else nv[id]
  }

  function NvPan(nv: Nv): nat
    requires NV_PANID in nv
  {
    LittleEndian(Front(nv, NV_PANID, 2))
  }

  function NvChannel(nv: Nv): nat
    requires NV_CHANLIST in nv
  {
    LowestChannel(LittleEndian(Front(nv, NV_CHANLIST, 4)), FIRST_CHANNEL)
  }

  /** PAN ID and lowest channel of the coprocessor are the given ones. */
  predicate NvAgrees(nv: Nv, pan: nat, channel: nat) {
    && NV_PANID in nv && NvPan(nv) == pan
    && NV_CHANLIST in nv && NvChannel(nv) == channel
  }

  predicate ValidChannel(channel: nat) {
    FIRST_CHANNEL <= channel <= LAST_CHANNEL
  }

  /** The PAN ID of the coprocessor is the given one, and its lowest channel is the given one exactly
      when that is a legal channel. */
  predicate NvCarries(nv: Nv, pan: nat, channel: nat) {
    && NV_PANID in nv && NvPan(nv) == pan
    && NV_CHANLIST in nv && (NvChannel(nv) == channel <==> ValidChannel(channel))
  }

  /** An item starts with the given bytes. */
  predicate Holds(nv: Nv, id: nat, data: seq<byte>) {
    id in nv && data <= nv[id]
  }

  lemma {:induction false} ReadIntoZeros(nv: Nv, id: nat, zeros: seq<byte>)
    requires id in nv && forall i :: 0 <= i < |zeros| ==> zeros[i] == 0
    ensures LittleEndian(Overlay(zeros, nv[id])) == LittleEndian(Front(nv, id, |zeros|))
  {
    if |nv[id]| < |zeros| {
      LittleEndianZeros(nv[id], zeros[|nv[id]|..]);
    } else {
      assert nv[id][..|nv[id]|] == nv[id];
    }
  }

  // ---------- Network check ----------

  /** `Empty` makes the caller form, `Match` resume, `Mismatch` reconfigure. */
  datatype CheckResult = Empty | Match | Mismatch

  function CheckNvState(e: Env, pan: nat, channel: nat): (Env, CheckResult) {
    var (e1, errPan, panBuf) := ReadNv(e, NV_PANID, [0, 0]);
    var (e2, errChan, chanBuf) := ReadNv(e1, NV_CHANLIST, [0, 0, 0, 0]);
    if errPan == NotFound || errChan == NotFound then (e2, Empty)
    else if LittleEndian(panBuf) == pan && LowestChannel(LittleEndian(chanBuf), FIRST_CHANNEL) == channel then
      (e2, Match)
    else (e2, Mismatch)
  }

  lemma {:induction false} LowestOfZero(c: nat)
    requires c > 0
    ensures LowestChannel(0, c) == 0
    decreases LAST_CHANNEL + 1 - c
  {
    BitOfZero(c);
    if c <= LAST_CHANNEL {
      LowestOfZero(c + 1);
    }
  }

  /** A read into a zeroed buffer leaves the value of the item, or 0 when the request was lost. */
  lemma {:induction false} ReadValue(e: Env, id: nat, zeros: seq<byte>)
    requires forall i :: 0 <= i < |zeros| ==> zeros[i] == 0
    ensures ReadNv(e, id, zeros).0 == e.Tick()
    ensures ReadNv(e, id, zeros).1 == NotFound <==> e.Answer().Denied? || (e.Answer().Granted? && id !in e.nv)
    ensures ReadNv(e, id, zeros).1 != NotFound ==>
              LittleEndian(ReadNv(e, id, zeros).2)
              == if e.Answer().Granted? then LittleEndian(Front(e.nv, id, |zeros|)) else 0
  {
    if id in e.nv {
      ReadIntoZeros(e.nv, id, zeros);
    }
    LittleEndianZeros([], zeros);
    assert [] + zeros == zeros;
  }

  /** When the check reports a match: each of the two values was read and is the wanted one, or its
      read was lost and the wanted value is 0. */
  lemma {:induction false} MatchIff(e: Env, pan: nat, channel: nat)
    ensures CheckNvState(e, pan, channel).0 == e.Tick().Tick()
    ensures var a0, a1 := e.answers(e.clock), e.answers(e.clock + 1);
            CheckNvState(e, pan, channel).1 == Match
            <==> && ((a0.Granted? && NV_PANID in e.nv && NvPan(e.nv) == pan) || (a0.Lost? && pan == 0))
                 && ((a1.Granted? && NV_CHANLIST in e.nv && NvChannel(e.nv) == channel) || (a1.Lost? && channel == 0))
    ensures CheckNvState(e, pan, channel).1 == Empty
            <==> e.answers(e.clock).Denied? || (e.answers(e.clock).Granted? && NV_PANID !in e.nv)
                 || e.answers(e.clock + 1).Denied? || (e.answers(e.clock + 1).Granted? && NV_CHANLIST !in e.nv)
  {
    ReadValue(e, NV_PANID, [0, 0]);
    ReadValue(e.Tick(), NV_CHANLIST, [0, 0, 0, 0]);
    LowestOfZero(FIRST_CHANNEL);
  }

  /** For a nonzero PAN ID and channel a failed read is never taken for a match. */
  lemma {:induction false} MatchMeansAgreement(e: Env, pan: nat, channel: nat)
    requires pan != 0 && channel != 0 && CheckNvState(e, pan, channel).1 == Match
    ensures NvAgrees(e.nv, pan, channel)
  {
    MatchIff(e, pan, channel);
  }

  lemma {:induction false} AgreesMeansCarries(nv: Nv, pan: nat, channel: nat)
    requires channel != 0
    ensures NvAgrees(nv, pan, channel) <==> NvCarries(nv, pan, channel) && ValidChannel(channel)
  {
  }

  /** When nothing fails, the check says exactly how the coprocessor relates to the wanted values. */
  lemma {:induction false} CheckWithoutFailures(e: Env, pan: nat, channel: nat)
    requires e.answers(e.clock).Granted? && e.answers(e.clock + 1).Granted?
    ensures CheckNvState(e, pan, channel).1
            == if NV_PANID !in e.nv || NV_CHANLIST !in e.nv then Empty
               else if NvAgrees(e.nv, pan, channel) then Match else Mismatch
  {
    MatchIff(e, pan, channel);
  }

  // ---------- Formation ----------

  datatype Item = Item(id: nat, data: seq<byte>)

  function FormItems(pan: Word16, channel: nat, key: NwkKey): seq<Item>
  {
    [Item(NV_LOGICAL_TYPE, [COORDINATOR]),
     Item(NV_PANID, ToLittleEndian(pan, 2)),
     Item(NV_CHANLIST, ToLittleEndian(Pow2(channel), 4)),
     Item(NV_PRECFGKEYS_EN, [1]),
     Item(NV_PRECFGKEY, key)]
  }

  const CLEAR_ITEMS: seq<Item> :=
    [Item(NV_PANID, [0, 0]), Item(NV_CHANLIST, [0, 0, 0, 0]), Item(NV_PRECFGKEY, ZERO_KEY)]

  /** Writes in order up to the first failure. */
  function WriteAll(e: Env, items: seq<Item>): (Env, Err)
    decreases |items|
  {
    if items == [] then (e, EspOk)
    else
      var (e1, err) := WriteNv(e, items[0].id, items[0].data);
      if err != EspOk then (e1, err) else WriteAll(e1, items[1..])
  }

  /** Writes in order whatever the answers. */
  function WriteEach(e: Env, items: seq<Item>): Env
    decreases |items|
  {
    if items == [] then e else WriteEach(WriteNv(e, items[0].id, items[0].data).0, items[1..])
  }

  lemma {:induction false} WriteAllStep(e: Env, items: seq<Item>)
    requires items != []
    ensures var (e1, err) := WriteNv(e, items[0].id, items[0].data);
            && (err != EspOk ==> WriteAll(e, items) == (e1, err))
            && (err == EspOk ==> WriteAll(e, items) == WriteAll(e1, items[1..]))
            && (err == EspOk && |items| == 1 ==> WriteAll(e, items) == (e1, EspOk))
  {
  }

  lemma {:induction false} WriteEachStep(e: Env, items: seq<Item>)
    requires items != []
    ensures var e1 := WriteNv(e, items[0].id, items[0].data).0;
            && WriteEach(e, items) == WriteEach(e1, items[1..])
            && (|items| == 1 ==> WriteEach(e, items) == e1)
  {
  }

  function FormNetwork(e: Env, pan: Word16, channel: nat, key: NwkKey): (Env, Err) {
    WriteAll(e, FormItems(pan, channel, key))
  }

  ghost predicate Distinct(items: seq<Item>) {
    forall i, j :: 0 <= i < j < |items| ==> items[i].id != items[j].id
  }

  ghost predicate AllHold(nv: Nv, items: seq<Item>) {
    forall i :: 0 <= i < |items| ==> Holds(nv, items[i].id, items[i].data)
  }

  /** Only the listed items may differ. */
  ghost predicate SameExcept(nv: Nv, nv': Nv, items: seq<Item>) {
    forall id: nat :: (forall i :: 0 <= i < |items| ==> items[i].id != id) ==>
      (id in nv <==> id in nv') && (id in nv ==> nv'[id] == nv[id])
  }

  lemma {:induction false} WriteNvEffect(e: Env, id: nat, data: seq<byte>)
    ensures WriteNv(e, id, data).1 == EspOk ==> Holds(WriteNv(e, id, data).0.nv, id, data)
    ensures SameExcept(e.nv, WriteNv(e, id, data).0.nv, [Item(id, data)])
    ensures WriteNv(e, id, data).0.answers == e.answers && WriteNv(e, id, data).0.clock == e.clock + 1
  {
    forall other: nat | other != id
      ensures (other in e.nv <==> other in WriteNv(e, id, data).0.nv)
      ensures other in e.nv ==> WriteNv(e, id, data).0.nv[other] == e.nv[other]
    {
    }
    assert [Item(id, data)][0].id == id;
  }

  /** A run of writes without a failure leaves all items in place; in any case nothing else changes. */
  lemma {:induction false} WriteAllEffect(e: Env, items: seq<Item>)
    requires Distinct(items)
    ensures WriteAll(e, items).1 == EspOk ==> AllHold(WriteAll(e, items).0.nv, items)
    ensures SameExcept(e.nv, WriteAll(e, items).0.nv, items)
    ensures WriteAll(e, items).0.answers == e.answers && WriteAll(e, items).0.clock <= e.clock + |items|
    decreases |items|
  {
    if items != [] {
      var (e1, err) := WriteNv(e, items[0].id, items[0].data);
      var rest := items[1..];
      WriteNvEffect(e, items[0].id, items[0].data);
      if err == EspOk {
        var e2 := WriteAll(e1, rest).0;
        WriteAllEffect(e1, rest);
        if WriteAll(e1, rest).1 == EspOk {
          forall i | 0 <= i < |items| ensures Holds(e2.nv, items[i].id, items[i].data) {
            if i == 0 {
              assert forall j :: 0 <= j < |rest| ==> rest[j].id != items[0].id;
            } else {
              assert Holds(e2.nv, rest[i - 1].id, rest[i - 1].data);
            }
          }
        }
        SameExceptChain(e.nv, e1.nv, e2.nv, items);
      } else {
        SameExceptChain(e.nv, e1.nv, e1.nv, items);
      }
    }
  }

  lemma {:induction false} SameExceptChain(nv0: Nv, nv1: Nv, nv2: Nv, items: seq<Item>)
    requires items != []
    requires SameExcept(nv0, nv1, [items[0]]) && (SameExcept(nv1, nv2, items[1..]) || nv1 == nv2)
    ensures SameExcept(nv0, nv2, items)
  {
    forall id: nat | forall i :: 0 <= i < |items| ==> items[i].id != id
      ensures (id in nv0 <==> id in nv2) && (id in nv0 ==> nv2[id] == nv0[id])
    {
      assert items[0].id != id;
      assert forall i :: 0 <= i < |items[1..]| ==> items[1..][i].id != id;
    }
  }

  lemma {:induction false} WriteEachEffect(e: Env, items: seq<Item>)
    ensures SameExcept(e.nv, WriteEach(e, items).nv, items)
    ensures WriteEach(e, items).answers == e.answers && WriteEach(e, items).clock == e.clock + |items|
    decreases |items|
  {
    if items != [] {
      var e1 := WriteNv(e, items[0].id, items[0].data).0;
      WriteNvEffect(e, items[0].id, items[0].data);
      WriteEachEffect(e1, items[1..]);
      SameExceptChain(e.nv, e1.nv, WriteEach(e1, items[1..]).nv, items);
    }
  }

  /** The next `n` answers are positive. */
  ghost predicate Reliable(e: Env, n: nat) {
    forall k: nat :: e.clock <= k < e.clock + n ==> e.answers(k) == Granted
  }

  lemma {:induction false} WriteAllWithoutFailures(e: Env, items: seq<Item>)
    requires Reliable(e, |items|)
    ensures WriteAll(e, items).1 == EspOk && WriteAll(e, items).0.clock == e.clock + |items|
    decreases |items|
  {
    if items != [] {
      WriteAllWithoutFailures(WriteNv(e, items[0].id, items[0].data).0, items[1..]);
    }
  }

  /** The two encoded values read back: always for the PAN ID, and for the channel exactly when it is one
      of 11 to 26, or 0. */
  lemma {:induction false} ReadBack(pan: Word16, channel: nat)
    requires channel < 32
    ensures LittleEndian(ToLittleEndian(pan, 2)) == pan
    ensures LowestChannel(LittleEndian(ToLittleEndian(Pow2(channel), 4)), FIRST_CHANNEL) == channel
            <==> channel == 0 || ValidChannel(channel)
  {
    assert Pow2(8) == 256;
    Pow2Sum(8, 8);
    LittleEndianOf(pan, 2);
    Pow2Grows(channel, 32);
    LittleEndianOf(Pow2(channel), 4);
    LowestOfPow2(channel, FIRST_CHANNEL);
  }

  /** Items written by a formation read back as the wanted parameters: always for the PAN ID,
      and for the channel exactly when it is one of 11 to 26. */
  lemma {:induction false} FormedItemsAgree(nv: Nv, pan: Word16, channel: nat, key: NwkKey)
    requires channel < 32 && AllHold(nv, FormItems(pan, channel, key))
    ensures NV_PANID in nv && NvPan(nv) == pan && NV_CHANLIST in nv
    ensures NvChannel(nv) == channel <==> channel == 0 || ValidChannel(channel)
  {
    var items := FormItems(pan, channel, key);
    assert Holds(nv, items[1].id, items[1].data) && Holds(nv, items[2].id, items[2].data);
    assert Front(nv, NV_PANID, 2) == ToLittleEndian(pan, 2);
    assert Front(nv, NV_CHANLIST, 4) == ToLittleEndian(Pow2(channel), 4);
    ReadBack(pan, channel);
  }

  /** A formation that reports success has put all five items in place, so the coprocessor carries the
      wanted parameters; and it has touched no other item. */
  lemma {:induction false} FormNetworkEffect(e: Env, pan: Word16, channel: nat, key: NwkKey)
    requires channel < 32
    ensures FormNetwork(e, pan, channel, key).1 == EspOk ==>
              && AllHold(FormNetwork(e, pan, channel, key).0.nv, FormItems(pan, channel, key))
              && (channel != 0 ==> NvCarries(FormNetwork(e, pan, channel, key).0.nv, pan, channel))
              && (channel == 0 ==> NvAgrees(FormNetwork(e, pan, channel, key).0.nv, pan, channel))
    ensures SameExcept(e.nv, FormNetwork(e, pan, channel, key).0.nv, FormItems(pan, channel, key))
    ensures FormNetwork(e, pan, channel, key).0.answers == e.answers
    ensures Reliable(e, 5) ==>
              FormNetwork(e, pan, channel, key).1 == EspOk && FormNetwork(e, pan, channel, key).0.clock == e.clock + 5
  {
    WriteAllEffect(e, FormItems(pan, channel, key));
    if FormNetwork(e, pan, channel, key).1 == EspOk {
      FormedItemsAgree(FormNetwork(e, pan, channel, key).0.nv, pan, channel, key);
    }
    if Reliable(e, 5) {
      WriteAllWithoutFailures(e, FormItems(pan, channel, key));
    }
  }

  lemma {:induction false} TwoBytes(pan: Word16)
    ensures ToLittleEndian(pan, 2) == [pan % 256, pan / 256]
  {
    assert ToLittleEndian(pan, 2) == [pan % 256] + ToLittleEndian(pan / 256, 1);
    assert ToLittleEndian(pan / 256, 1) == [pan / 256 % 256] + ToLittleEndian(pan / 256 / 256, 0);
  }

  /** What the items hold after a successful formation, by their numbers: coordinator, PAN ID, the enabled
      pre-configured key, and the key. */
  predicate Installed(nv: Nv, pan: Word16, key: NwkKey) {
    && Holds(nv, 0x0087, [0]) && Holds(nv, 0x0083, [pan % 256, pan / 256])
    && Holds(nv, 0x0063, [1]) && Holds(nv, 0x0062, key)
  }

  lemma {:induction false} AllHoldMeansInstalled(nv: Nv, pan: Word16, channel: nat, key: NwkKey)
    requires AllHold(nv, FormItems(pan, channel, key))
    ensures Installed(nv, pan, key) && Holds(nv, 0x0084, ToLittleEndian(Pow2(channel), 4))
  {
    var items := FormItems(pan, channel, key);
    assert Holds(nv, items[0].id, items[0].data) && Holds(nv, items[1].id, items[1].data);
    assert Holds(nv, items[2].id, items[2].data) && Holds(nv, items[3].id, items[3].data);
    assert Holds(nv, items[4].id, items[4].data);
    TwoBytes(pan);
  }

  lemma {:induction false} FormInstalls(e: Env, pan: Word16, channel: nat, key: NwkKey)
    requires channel < 32 && FormNetwork(e, pan, channel, key).1 == EspOk
    ensures Installed(FormNetwork(e, pan, channel, key).0.nv, pan, key)
    ensures Holds(FormNetwork(e, pan, channel, key).0.nv, 0x0084, ToLittleEndian(Pow2(channel), 4))
  {
    FormNetworkEffect(e, pan, channel, key);
    AllHoldMeansInstalled(FormNetwork(e, pan, channel, key).0.nv, pan, channel, key);
  }

  /** A formation succeeds exactly when each of its five writes is granted. */
  lemma {:induction false} WriteAllSucceedsIff(e: Env, items: seq<Item>)
    ensures WriteAll(e, items).1 == EspOk <==> Reliable(e, |items|)
    ensures WriteAll(e, items).0.answers == e.answers
    ensures WriteAll(e, items).1 == EspOk ==> WriteAll(e, items).0.clock == e.clock + |items|
    decreases |items|
  {
    if items != [] {
      var (e1, err) := WriteNv(e, items[0].id, items[0].data);
      WriteAllSucceedsIff(e1, items[1..]);
      if Reliable(e, |items|) {
        assert e.answers(e.clock) == Granted;
      }
      if err == EspOk && Reliable(e1, |items| - 1) {
        forall k: nat | e.clock <= k < e.clock + |items| ensures e.answers(k) == Granted {
        }
      }
    }
  }

  /** The clearing writes, when granted, leave zeros in the PAN ID, the channel list and the key, so a
      formation that does not get further is not taken for a network with a nonzero PAN ID. */
  lemma {:induction false} ClearedIsNoNetwork(e: Env, pan: nat, channel: nat)
    requires Reliable(e, 3)
    ensures var nv := WriteEach(e, CLEAR_ITEMS).nv;
            && Holds(nv, 0x0083, [0, 0]) && Holds(nv, 0x0084, [0, 0, 0, 0]) && Holds(nv, 0x0062, ZERO_KEY)
            && (pan != 0 ==> !NvAgrees(nv, pan, channel))
  {
    var (e1, e2) := (WriteNv(e, NV_PANID, [0, 0]).0, WriteNv(WriteNv(e, NV_PANID, [0, 0]).0, NV_CHANLIST, [0, 0, 0, 0]).0);
    assert e.answers(e.clock) == Granted && e.answers(e.clock + 1) == Granted && e.answers(e.clock + 2) == Granted;
    WriteEachStep(e, CLEAR_ITEMS);
    WriteEachStep(e1, CLEAR_ITEMS[1..]);
    WriteEachStep(e2, CLEAR_ITEMS[1..][1..]);
    var nv := WriteEach(e, CLEAR_ITEMS).nv;
    assert [0, 0] <= nv[NV_PANID];
    assert Front(nv, NV_PANID, 2) == [0, 0];
    LittleEndianZeros([], [0, 0]);
    assert [] + [0, 0] == [0, 0];
  }

  /** A write replaces the front of an item and nothing behind it. */
  lemma {:induction false} PutKeepsTail(nv: Nv, id: nat, data: seq<byte>)
    ensures data <= Put(nv, id, data)[id]
    ensures id in nv && |nv[id]| > |data| ==> Put(nv, id, data)[id][|data|..] == nv[id][|data|..]
    ensures id !in nv || |nv[id]| <= |data| ==> Put(nv, id, data)[id] == data
  {
  }

  // ---------- The same operations in place ----------

  class Coprocessor {
    var nv: Nv
    const answers: nat -> Answer
    var clock: nat

    constructor (nv: Nv, answers: nat -> Answer)
      ensures Value() == Env(nv, answers, 0)
    {
      this.nv, this.answers, this.clock := nv, answers, 0;
    }

    ghost function Value(): Env
      reads this
    {
      Env(nv, answers, clock)
    }

    /** Any request whose answer carries no data. */
    method Request() returns (err: Err)
      modifies this`clock
      ensures Value() == old(Value()).Tick()
      ensures err == match old(Value()).Answer() { case Granted => EspOk case Denied => Fail case Lost(_) => TimedOut }
    {
      var answer := answers(clock);
      clock := clock + 1;
      err := match answer case Granted => EspOk case Denied => Fail case Lost(_) => TimedOut;
    }

    method WriteItem(id: nat, data: seq<byte>) returns (err: Err)
      modifies this`nv, this`clock
      ensures (Value(), err) == WriteNv(old(Value()), id, data)
    {
      var answer := answers(clock);
      clock := clock + 1;
      if answer.Granted? || (answer.Lost? && answer.applied) {
        nv := Put(nv, id, data);
      }
      err := match answer case Granted => EspOk case Denied => Fail case Lost(_) => TimedOut;
    }

    method ReadItem(id: nat, buf: array<byte>) returns (err: Err)
      modifies this`clock, buf
      ensures (Value(), err, buf[..]) == ReadNv(old(Value()), id, old(buf[..]))
    {
      var answer := answers(clock);
      clock := clock + 1;
      if answer.Lost? {
        return TimedOut;
      }
      if answer.Denied? || id !in nv {
        return NotFound;
      }
      var data := nv[id];
      var n := if |data| < buf.Length then |data| else buf.Length;
      forall i | 0 <= i < n {
        buf[i] := data[i];
      }
      assert buf[..] == Overlay(old(buf[..]), data);
      return EspOk;
    }

    method CheckState(pan: nat, channel: nat) returns (result: CheckResult)
      modifies this`clock
      ensures (Value(), result) == CheckNvState(old(Value()), pan, channel)
    {
      var panBuf := new byte[2][0, 0];
      var chanBuf := new byte[4][0, 0, 0, 0];
      assert panBuf[..] == [0, 0] && chanBuf[..] == [0, 0, 0, 0];
      var errPan := ReadItem(NV_PANID, panBuf);
      var errChan := ReadItem(NV_CHANLIST, chanBuf);
      if errPan == NotFound || errChan == NotFound {
        return Empty;
      }
      var mask := LittleEndian(chanBuf[..]);
      var stored := ScanChannel(mask);
      if LittleEndian(panBuf[..]) == pan && stored == channel {
        return Match;
      }
      return Mismatch;
    }

    method Form(pan: Word16, channel: nat, key: NwkKey) returns (err: Err)
      modifies this`nv, this`clock
      ensures (Value(), err) == FormNetwork(old(Value()), pan, channel, key)
    {
      ghost var items := FormItems(pan, channel, key);
      WriteAllStep(Value(), items);
      err := WriteItem(NV_LOGICAL_TYPE, [COORDINATOR]);
      if err != EspOk {
        return;
      }
      WriteAllStep(Value(), items[1..]);
      err := WriteItem(NV_PANID, ToLittleEndian(pan, 2));
      if err != EspOk {
        return;
      }
      WriteAllStep(Value(), items[1..][1..]);
      err := WriteItem(NV_CHANLIST, ToLittleEndian(Pow2(channel), 4));
      if err != EspOk {
        return;
      }
      WriteAllStep(Value(), items[1..][1..][1..]);
      err := WriteItem(NV_PRECFGKEYS_EN, [1]);
      if err != EspOk {
        return;
      }
      WriteAllStep(Value(), items[1..][1..][1..][1..]);
      err := WriteItem(NV_PRECFGKEY, key);
    }

    /** Clears the network items, whatever the answers. */
    method Clear()
      modifies this`nv, this`clock
      ensures Value() == WriteEach(old(Value()), CLEAR_ITEMS)
    {
      WriteEachStep(Value(), CLEAR_ITEMS);
      var err := WriteItem(NV_PANID, [0, 0]);
      WriteEachStep(Value(), CLEAR_ITEMS[1..]);
      err := WriteItem(NV_CHANLIST, [0, 0, 0, 0]);
      WriteEachStep(Value(), CLEAR_ITEMS[1..][1..]);
      err := WriteItem(NV_PRECFGKEY, ZERO_KEY);
    }
  }

  method ScanChannel(mask: nat) returns (stored: nat)
    ensures stored == LowestChannel(mask, FIRST_CHANNEL)
  {
    stored := 0;
    var c := FIRST_CHANNEL;
    while c <= LAST_CHANNEL
      invariant FIRST_CHANNEL <= c <= LAST_CHANNEL + 1
      invariant LowestChannel(mask, FIRST_CHANNEL) == LowestChannel(mask, c)
    {
      if Bit(mask, c) {
        stored := c;
        break;
      }
      c := c + 1;
    }
  }
}
