/** What single operations of the registry do for the device that they are about. */
module RegistryEffects {
  import opened Bits
  import opened AttrReports
  import opened DeviceRegistry
  import opened ReportBytes

  /** A join that is not refused, of a new device or of a known one: the device is registered with the network
      address it announced, in the slots, in its record and in the event. */
  lemma {:induction false} JoinEffect(r: Reg, ieee: nat, nwk: Word16, saved: bool)
    requires Join(r, ieee, nwk, saved).1
    ensures var r' := Join(r, ieee, nwk, saved).0;
            && FindIeee(r'.slots, ieee) < |r'.slots| && r'.slots[FindIeee(r'.slots, ieee)].nwk == nwk
            && (saved ==> ieee in r'.store && r'.store[ieee].nwk == nwk)
            && (!saved ==> r'.store == r.store)
            && r'.events == r.events + [Joined(ieee, nwk)]
            && |r'.slots| == |r.slots|
  {
    var r' := Join(r, ieee, nwk, saved).0;
    var k := Place(r.slots, ieee);
    FindFirst(r'.slots, ieee, k);
  }

  /** Other devices keep their slots. */
  lemma {:induction false} JoinKeepsOthers(r: Reg, ieee: nat, nwk: Word16, saved: bool, i: nat)
    requires i < |r.slots| && r.slots[i].active && r.slots[i].ieee != ieee
    ensures Join(r, ieee, nwk, saved).0.slots[i] == r.slots[i]
  {
  }

  /** After a join under a network address that nobody else has, messages from that address are this device's. */
  lemma {:induction false} JoinIsHeard(r: Reg, ieee: nat, nwk: Word16, saved: bool)
    requires Join(r, ieee, nwk, saved).1
    requires forall i :: 0 <= i < |r.slots| && r.slots[i].active && r.slots[i].ieee != ieee ==> r.slots[i].nwk != nwk
    ensures var slots := Join(r, ieee, nwk, saved).0.slots;
            FindNwk(slots, nwk) < |slots| && slots[FindNwk(slots, nwk)].ieee == ieee
  {
    var slots := Join(r, ieee, nwk, saved).0.slots;
    JoinEffect(r, ieee, nwk, saved);
    var j := FindIeee(slots, ieee);
    assert slots[j].active && slots[j].nwk == nwk;
    assert forall i :: 0 <= i < |slots| && i != Place(r.slots, ieee) ==> slots[i] == r.slots[i];
  }

  /** A leave: the device is no longer registered, its record is gone if it could be deleted, the event is
      emitted in any case; nothing else changes. */
  lemma {:induction false} LeaveEffect(r: Reg, ieee: nat, deleted: bool)
    requires DistinctIeee(r.slots)
    ensures var r' := Leave(r, ieee, deleted);
            && FindIeee(r'.slots, ieee) == |r'.slots| == |r.slots|
            && r'.store == (if deleted then r.store - {ieee} else r.store)
            && r'.events == r.events + [Left(ieee)]
            && forall i :: 0 <= i < |r.slots| && !(r.slots[i].active && r.slots[i].ieee == ieee) ==>
                 r'.slots[i] == r.slots[i]
  {
    var r' := Leave(r, ieee, deleted);
    NotThere(r'.slots, ieee);
  }

  /** A descriptor that reports a failure, is too short or is about an unknown address changes nothing. */
  lemma {:induction false} DescribeIgnored(r: Reg, p: seq<byte>, saved: bool)
    requires |p| < 12 || p[2] != 0 || FindNwk(r.slots, Word(p[3], p[4])) == |r.slots|
    ensures Describe(r, p, saved) == r
  {
  }

  /** A descriptor of a known device writes its address to its record, and causes no event. */
  lemma {:induction false} DescribeSaves(r: Reg, p: seq<byte>, saved: bool)
    requires |p| >= 12 && p[2] == 0 && FindNwk(r.slots, Word(p[3], p[4])) < |r.slots|
    ensures var r', dev := Describe(r, p, saved), r.slots[FindNwk(r.slots, Word(p[3], p[4]))];
            && r'.events == r.events
            && r'.store == if saved then r.store[dev.ieee := Record(Word(p[3], p[4]), [])] else r.store
  {
  }

  /** Some endpoint of a record has the cluster. */
  ghost predicate HasCluster(endpoints: seq<Endpoint>, ep: byte, cluster: Word16) {
    exists e :: 0 <= e < |endpoints| && endpoints[e].ep == ep && cluster in endpoints[e].clusters
  }

  /** A record with endpoints, as another program may have stored it, means just the capabilities of its endpoints
      and clusters. */
  lemma {:induction false} StoredCapsAre(endpoints: seq<Endpoint>, ep: byte, cluster: Word16)
    ensures Capability(ep, cluster) in StoredCaps(endpoints) <==> HasCluster(endpoints, ep, cluster)
    decreases |endpoints|
  {
    if endpoints != [] {
      var first, rest := endpoints[0], endpoints[1..];
      StoredCapsAre(rest, ep, cluster);
      CapsOfHas(first.ep, first.clusters, ep, cluster);
      if HasCluster(rest, ep, cluster) {
        var e :| 0 <= e < |rest| && rest[e].ep == ep && cluster in rest[e].clusters;
        assert endpoints[e + 1] == rest[e];
      }
      if HasCluster(endpoints, ep, cluster) && !(first.ep == ep && cluster in first.clusters) {
        var e :| 0 <= e < |endpoints| && endpoints[e].ep == ep && cluster in endpoints[e].clusters;
        assert rest[e - 1] == endpoints[e];
      }
    }
  }

  lemma {:induction false} CapsOfHas(owner: byte, clusters: seq<Word16>, ep: byte, cluster: Word16)
    ensures Capability(ep, cluster) in CapsOf(owner, clusters) <==> owner == ep && cluster in clusters
  {
    if owner == ep && cluster in clusters {
      var i :| 0 <= i < |clusters| && clusters[i] == cluster;
      assert CapsOf(owner, clusters)[i] == CapId(ep, cluster);
    }
    if Capability(ep, cluster) in CapsOf(owner, clusters) {
      var i :| 0 <= i < |clusters| && CapsOf(owner, clusters)[i] == Capability(ep, cluster);
      CapIdKeepsApart(owner, clusters[i], ep, cluster);
    }
  }

  // ---------- Cluster lists that do not fit ----------

  lemma {:induction false} ListLength(p: seq<byte>, start: nat, count: nat)
    ensures |Clusters(p, start, count)| <= count
    ensures start <= |p| ==> start + 2 * |Clusters(p, start, count)| <= |p|
    ensures |Clusters(p, start, count)| < count ==> start + 2 * |Clusters(p, start, count)| + 1 >= |p|
    decreases count
  {
    if count > 0 && start + 1 < |p| {
      ListLength(p, start + 2, count - 1);
    }
  }

  /** A cluster list is cut off at the end of the payload: as many of the announced clusters as have both bytes. */
  lemma {:induction false} ListIsCut(p: seq<byte>, start: nat, count: nat, i: nat)
    requires start <= |p|
    ensures |Clusters(p, start, count)| == if 2 * count <= |p| - start then count else (|p| - start) / 2
    ensures i < |Clusters(p, start, count)| ==>
              start + 2 * i + 1 < |p| && Clusters(p, start, count)[i] == Word(p[start + 2 * i], p[start + 2 * i + 1])
    decreases count
  {
    ListLength(p, start, count);
    if i > 0 && count > 0 && start + 1 < |p| {
      ListIsCut(p, start + 2, count - 1, i - 1);
    }
  }

  /** The list whose count is at a position, if the payload reaches that far. */
  function ListAt(p: seq<byte>, at: nat): seq<Word16> {
    if at < |p| then Clusters(p, at + 1, p[at]) else []
  }

  lemma {:induction false} EmptyIff(p: seq<byte>, at: nat)
    ensures ListAt(p, at) == [] <==> at >= |p| || p[at] == 0 || at + 2 >= |p|
  {
  }

  /** What both lists of a payload say, with the second one behind the first. */
  function BothLists(p: seq<byte>): seq<Word16>
    requires |p| >= 12
  {
    Clusters(p, 12, p[11]) + ListAt(p, 12 + 2 * (p[11] as nat))
  }

  lemma {:induction false} SameIff(front: seq<Word16>, a: seq<Word16>, b: seq<Word16>)
    ensures front + a == front + b <==> a == b
  {
    assert (front + a)[|front|..] == a && (front + b)[|front|..] == b;
  }

  lemma {:induction false} SecondList(p: seq<byte>)
    requires |p| >= 12
    ensures DescClusters(p) == Clusters(p, 12, p[11]) + ListAt(p, InEnd(p))
  {
  }

  /** The parser finds just these exactly when fewer than 122 in-clusters are announced or its 8-bit position
      shows it an empty list. */
  lemma {:induction false} ListsFoundIff(p: seq<byte>)
    requires 12 <= |p| <= 250
    ensures var at := (12 + 2 * (p[11] as nat)) % 256;
            DescClusters(p) == BothLists(p)
            <==> p[11] < 122 || at >= |p| || p[at] == 0 || at + 2 >= |p|
  {
    var n: nat := p[11];
    SecondList(p);
    SameIff(Clusters(p, 12, n), ListAt(p, InEnd(p)), ListAt(p, 12 + 2 * n));
    EmptyIff(p, InEnd(p));
    if n < 122 {
      assert InEnd(p) == 12 + 2 * n;
    } else {
      assert ListAt(p, 12 + 2 * n) == [];
    }
  }

  /** For example: twelve bytes that announce 122 in-clusters and hold none, from a network address that ends in
      1 and begins with `hi`. Bytes of the header are learned as an out-cluster. */
  lemma {:induction false} HeaderIsLearned(hi: byte, nwkLo: byte, nwkHi: byte, ep: byte)
    ensures var p := [1, hi, 0, nwkLo, nwkHi, 0, ep, 0, 0, 0, 0, 122];
            DescClusters(p) == [hi as nat] && BothLists(p) == []
  {
    var p := [1, hi, 0, nwkLo, nwkHi, 0, ep, 0, 0, 0, 0, 122];
    assert Clusters(p, 12, 122) == [];
    assert Clusters(p, 1, 1) == [Word(p[1], p[2])] + Clusters(p, 3, 0);
  }
}
