/**
 * The nursery stabilization decision: may a local nursery object be moved to
 * stable storage?  It may when every other primary of its partition answers a
 * HEAD for the object with a 2xx or 404 status and the same data and meta
 * timestamps as the local copy.
 *
 * The ring and the peers' HEAD answers are inputs: the ring is a value holding
 * its lookups as total functions, and a `Probe` maps (peer, partition, object
 * name) to the answer, None standing for a transport error or timeout.
 */
module Consistency {
  import opened Wrappers
  import opened GoStrings

  /** A ring device: the identity, address and drive of one replica holder. */
  datatype Device = Device(id: int, ip: string, port: int, device: string)

  /** The part of a HEAD answer that is read; a missing header reads as "". */
  datatype Response = Response(status: int, dataTimestamp: string, metaTimestamp: string)

  /** What a peer answers to `HEAD /device/partition/name`; None for a transport error. */
  type Probe = (Device, nat, string) -> Option<Response>

  /** The ring lookups of one storage policy. */
  datatype Ring = Ring(
    partition: (string, string, string) -> nat,  // GetPartition(account, container, object)
    isHandoff: (nat, int) -> bool,               // the handoff flag of GetJobNodes(partition, device id)
    nodes: nat -> seq<Device>,                   // GetNodes(partition)
    replicaCount: nat)                           // ReplicaCount()

  /** An object's metadata, as the object engine reports it. */
  type Metadata = map<string, string>

  const NameKey := "name"
  const DataTimestampKey := "X-Backend-Data-Timestamp"
  const MetaTimestampKey := "X-Backend-Meta-Timestamp"

  /** A metadata lookup as Go's map index: a missing key reads as "". */
  function Meta(md: Metadata, key: string): string
  {
    if key in md then md[key] else ""
  }

  /** Go's integer division, which truncates toward zero. */
  function GoDiv(a: int, b: int): int
    requires b != 0
  {
    if (a < 0) == (b < 0) then (if a < 0 then -a else a) / (if b < 0 then -b else b)
    else -((if a < 0 then -a else a) / (if b < 0 then -b else b))
  }

  /** `status/100 == 2` in Go holds exactly for the 2xx statuses. */
  lemma StatusClass(status: int)
    ensures GoDiv(status, 100) == 2 <==> 200 <= status <= 299
  {
  }

  /**
   * The per-answer test: no transport error, a 2xx or 404 status, a
   * non-empty data timestamp equal to the local one, and a meta timestamp
   * equal to the local one (both may be empty).
   */
  predicate IsGood(resp: Option<Response>, md: Metadata)
    ensures IsGood(resp, md) <==>
      resp.Some? &&
      (200 <= resp.value.status <= 299 || resp.value.status == 404) &&
      resp.value.dataTimestamp != "" &&
      resp.value.dataTimestamp == Meta(md, DataTimestampKey) &&
      resp.value.metaTimestamp == Meta(md, MetaTimestampKey)
  {
    StatusClass(if resp.Some? then resp.value.status else 0);
    resp.Some? &&
    (GoDiv(resp.value.status, 100) == 2 || resp.value.status == 404) &&
    resp.value.dataTimestamp != "" &&
    resp.value.dataTimestamp == Meta(md, DataTimestampKey) &&
    resp.value.metaTimestamp == Meta(md, MetaTimestampKey)
  }

  /**
   * Whether a ring node is this device and is skipped.  The drive-name
   * conjunct compares the node's drive with itself, so only the address matters.
   */
  predicate IsSelf(dev: Device, node: Device)
    ensures IsSelf(dev, node) <==> node.ip == dev.ip && node.port == dev.port
  {
    node.ip == dev.ip && node.port == dev.port && node.device == node.device
  }

  /** A node that is not skipped and whose answer is good. */
  predicate Counted(dev: Device, probe: Probe, partition: nat, md: Metadata, node: Device)
  {
    !IsSelf(dev, node) && IsGood(probe(node, partition, Meta(md, NameKey)), md)
  }

  /** The good-node count over the listed nodes, one at most per node. */
  function GoodCount(dev: Device, probe: Probe, partition: nat, md: Metadata, nodes: seq<Device>): nat
  {
    if |nodes| == 0 then 0
    else GoodCount(dev, probe, partition, md, nodes[..|nodes| - 1])
         + (if Counted(dev, probe, partition, md, nodes[|nodes| - 1]) then 1 else 0)
  }

  /** The nodes that are not this device, in ring order. */
  function Peers(dev: Device, nodes: seq<Device>): (r: seq<Device>)
    ensures |r| <= |nodes|
    ensures forall n :: n in r <==> n in nodes && !IsSelf(dev, n)
  {
    if |nodes| == 0 then []
    else
      var init := Peers(dev, nodes[..|nodes| - 1]);
      var last := nodes[|nodes| - 1];
      assert nodes == nodes[..|nodes| - 1] + [last];
      if IsSelf(dev, last) then init else init + [last]
  }

  /** The positions of the listed nodes that are this device. */
  function SelfPositions(dev: Device, nodes: seq<Device>): set<nat>
  {
    set i: nat | i < |nodes| && IsSelf(dev, nodes[i])
  }

  /**
   * Skipping keeps every other entry, duplicates included: the non-skipped
   * nodes number the listed nodes less those at this device's address.
   */
  lemma {:induction false} PeersCount(dev: Device, nodes: seq<Device>)
    ensures |Peers(dev, nodes)| == |nodes| - |SelfPositions(dev, nodes)|
  {
    if |nodes| == 0 {
      assert SelfPositions(dev, nodes) == {};
    } else {
      var k := |nodes| - 1;
      PeersCount(dev, nodes[..k]);
      SelfPositionsStep(dev, nodes);
      assert |Peers(dev, nodes)| == |Peers(dev, nodes[..k])| + (if IsSelf(dev, nodes[k]) then 0 else 1);
    }
  }

  /** The last node adds one self position when it is this device, and none otherwise. */
  lemma SelfPositionsStep(dev: Device, nodes: seq<Device>)
    requires |nodes| > 0
    ensures |SelfPositions(dev, nodes)| ==
      |SelfPositions(dev, nodes[..|nodes| - 1])| + (if IsSelf(dev, nodes[|nodes| - 1]) then 1 else 0)
  {
    var k := |nodes| - 1;
    var before := SelfPositions(dev, nodes[..k]);
    assert forall i :: 0 <= i < k ==> nodes[..k][i] == nodes[i];
    assert k !in before;
    assert SelfPositions(dev, nodes) == before + (if IsSelf(dev, nodes[k]) then {k} else {});
  }

  /** Every node but this device gives a good answer. */
  predicate AllPeersAgree(dev: Device, probe: Probe, partition: nat, md: Metadata, nodes: seq<Device>)
  {
    forall i :: 0 <= i < |nodes| && !IsSelf(dev, nodes[i]) ==> IsGood(probe(nodes[i], partition, Meta(md, NameKey)), md)
  }

  /**
   * The partition of an object name, or None when the name does not split
   * into exactly 4 pieces on '/' with limit 4 (pieces 1, 2 and 3 being the
   * account, container and object).
   */
  function Locate(ring: Ring, name: string): Option<nat>
  {
    var ns := SplitN(name, '/', 4);
    if |ns| != 4 then None else Some(ring.partition(ns[1], ns[2], ns[3]))
  }

  /** A name has a partition exactly when it holds at least three '/'. */
  lemma LocateNeedsThreeSeparators(ring: Ring, name: string)
    ensures Locate(ring, name).Some? <==> Count(name, '/') >= 3
  {
    SplitNFourPieces(name, '/');
  }

  /** The verdict of validateObj on an object with metadata `md`. */
  predicate Verdict(dev: Device, ring: Ring, probe: Probe, md: Metadata)
  {
    match Locate(ring, Meta(md, NameKey))
    case None => false
    case Some(p) => !ring.isHandoff(p, dev.id) && GoodCount(dev, probe, p, md, ring.nodes(p)) + 1 == ring.replicaCount
  }

  // ---------------------------------------------------------------------
  // The good-node count

  /** goodNodes never exceeds the number of nodes that are not skipped. */
  lemma {:induction false} GoodCountAtMostPeers(dev: Device, probe: Probe, partition: nat, md: Metadata, nodes: seq<Device>)
    ensures GoodCount(dev, probe, partition, md, nodes) <= |Peers(dev, nodes)| <= |nodes|
  {
    if |nodes| > 0 {
      GoodCountAtMostPeers(dev, probe, partition, md, nodes[..|nodes| - 1]);
    }
  }

  /** goodNodes reaches the number of peers exactly when every peer's answer is good. */
  lemma {:induction false} GoodCountAllPeers(dev: Device, probe: Probe, partition: nat, md: Metadata, nodes: seq<Device>)
    ensures GoodCount(dev, probe, partition, md, nodes) == |Peers(dev, nodes)|
            <==> AllPeersAgree(dev, probe, partition, md, nodes)
  {
    if |nodes| > 0 {
      var init := nodes[..|nodes| - 1];
      GoodCountAllPeers(dev, probe, partition, md, init);
      GoodCountAtMostPeers(dev, probe, partition, md, init);
      assert forall i :: 0 <= i < |init| ==> init[i] == nodes[i];
      if AllPeersAgree(dev, probe, partition, md, nodes) {
        assert AllPeersAgree(dev, probe, partition, md, init);
      }
    }
  }

  /** Answers from nodes that are this device play no part in the count. */
  lemma {:induction false} GoodCountIgnoresSelf(dev: Device, probe1: Probe, probe2: Probe, partition: nat, md: Metadata, nodes: seq<Device>)
    requires forall n :: n in nodes && !IsSelf(dev, n) ==> probe1(n, partition, Meta(md, NameKey)) == probe2(n, partition, Meta(md, NameKey))
    ensures GoodCount(dev, probe1, partition, md, nodes) == GoodCount(dev, probe2, partition, md, nodes)
  {
    if |nodes| > 0 {
      var init := nodes[..|nodes| - 1];
      assert forall n :: n in init ==> n in nodes;
      GoodCountIgnoresSelf(dev, probe1, probe2, partition, md, init);
    }
  }

  /** Nodes at the given positions are this device, so none of them is a peer. */
  lemma {:induction false} SelfEntriesNotPeers(dev: Device, nodes: seq<Device>, selves: set<nat>)
    requires forall i :: i in selves ==> i < |nodes| && IsSelf(dev, nodes[i])
    ensures |Peers(dev, nodes)| + |selves| <= |nodes|
  {
    if |nodes| > 0 {
      var k := |nodes| - 1;
      var init := nodes[..k];
      var rest := selves - {k};
      assert forall i :: i in rest ==> i < k && init[i] == nodes[i];
      SelfEntriesNotPeers(dev, init, rest);
    } else {
      assert selves == {} by {
        forall i | i in selves ensures false { }
      }
    }
  }

  // ---------------------------------------------------------------------
  // The verdict

  /** A name with fewer than three '/' does not split into 4 pieces: never promoted. */
  lemma MalformedNameRejected(dev: Device, ring: Ring, probe: Probe, md: Metadata)
    requires Count(Meta(md, NameKey), '/') < 3
    ensures !Verdict(dev, ring, probe, md)
  {
    LocateNeedsThreeSeparators(ring, Meta(md, NameKey));
  }

  /** A handoff device never promotes, whatever any peer answers. */
  lemma HandoffRejected(dev: Device, ring: Ring, probe: Probe, md: Metadata, partition: nat)
    requires Locate(ring, Meta(md, NameKey)) == Some(partition)
    requires ring.isHandoff(partition, dev.id)
    ensures !Verdict(dev, ring, probe, md)
  {
  }

  /** The verdict does not depend on what nodes at this device's address answer. */
  lemma VerdictIgnoresSelfAnswers(dev: Device, ring: Ring, probe1: Probe, probe2: Probe, md: Metadata)
    requires forall n, p, name :: !IsSelf(dev, n) ==> probe1(n, p, name) == probe2(n, p, name)
    ensures Verdict(dev, ring, probe1, md) == Verdict(dev, ring, probe2, md)
  {
    match Locate(ring, Meta(md, NameKey))
    case None =>
    case Some(p) => GoodCountIgnoresSelf(dev, probe1, probe2, p, md, ring.nodes(p));
  }

  /**
   * When the peers are the other R-1 replicas, the object is promoted exactly
   * when every one of them answers good: one bad, missing or mismatched
   * answer blocks the promotion.
   */
  lemma EveryPeerMustAgree(dev: Device, ring: Ring, probe: Probe, md: Metadata, partition: nat)
    requires Locate(ring, Meta(md, NameKey)) == Some(partition)
    requires !ring.isHandoff(partition, dev.id)
    requires |Peers(dev, ring.nodes(partition))| + 1 == ring.replicaCount
    ensures Verdict(dev, ring, probe, md) <==> AllPeersAgree(dev, probe, partition, md, ring.nodes(partition))
  {
    GoodCountAllPeers(dev, probe, partition, md, ring.nodes(partition));
    GoodCountAtMostPeers(dev, probe, partition, md, ring.nodes(partition));
  }

  /**
   * With this device among at most R listed nodes, one peer whose answer is
   * not good makes the verdict false.
   */
  lemma OneBadPeerBlocks(dev: Device, ring: Ring, probe: Probe, md: Metadata, partition: nat, self: nat, bad: nat)
    requires Locate(ring, Meta(md, NameKey)) == Some(partition)
    requires |ring.nodes(partition)| <= ring.replicaCount
    requires self < |ring.nodes(partition)| && IsSelf(dev, ring.nodes(partition)[self])
    requires bad < |ring.nodes(partition)| && !IsSelf(dev, ring.nodes(partition)[bad])
    requires !IsGood(probe(ring.nodes(partition)[bad], partition, Meta(md, NameKey)), md)
    ensures !Verdict(dev, ring, probe, md)
  {
    var nodes := ring.nodes(partition);
    GoodCountAllPeers(dev, probe, partition, md, nodes);
    GoodCountAtMostPeers(dev, probe, partition, md, nodes);
    SelfEntriesNotPeers(dev, nodes, {self});
  }

  /**
   * Because only the address decides the skip, a second primary sharing this
   * device's IP and port is skipped as well, and with at most R listed nodes
   * the count can then never reach R-1: such an object is never promoted.
   */
  lemma SharedAddressBlocks(dev: Device, ring: Ring, probe: Probe, md: Metadata, partition: nat, i: nat, j: nat)
    requires Locate(ring, Meta(md, NameKey)) == Some(partition)
    requires |ring.nodes(partition)| <= ring.replicaCount
    requires i < |ring.nodes(partition)| && IsSelf(dev, ring.nodes(partition)[i])
    requires j < |ring.nodes(partition)| && IsSelf(dev, ring.nodes(partition)[j])
    requires i != j
    ensures !Verdict(dev, ring, probe, md)
  {
    var nodes := ring.nodes(partition);
    GoodCountAtMostPeers(dev, probe, partition, md, nodes);
    SelfEntriesNotPeers(dev, nodes, {i, j});
  }

  // ---------------------------------------------------------------------
  // The object /A/C/O with local timestamps D=100, M=100, replica count 3,
  // this device a primary listed with two peers.

  predicate Scenario(dev: Device, p1: Device, p2: Device, ring: Ring, md: Metadata)
  {
    var p := ring.partition("A", "C", "O");
    Meta(md, NameKey) == "/A/C/O" &&
    Meta(md, DataTimestampKey) == "100" && Meta(md, MetaTimestampKey) == "100" &&
    ring.replicaCount == 3 && !ring.isHandoff(p, dev.id) &&
    ring.nodes(p) == [dev, p1, p2] && !IsSelf(dev, p1) && !IsSelf(dev, p2)
  }

  lemma ScenarioLocate(ring: Ring, name: string)
    requires name == "/A/C/O"
    ensures Locate(ring, name) == Some(ring.partition("A", "C", "O"))
  {
    assert name == ['/'] + ("A" + (['/'] + ("C" + (['/'] + "O"))));
    SplitNObjectPath('/', "A", "C", "O");
  }

  lemma ScenarioCount(dev: Device, p1: Device, p2: Device, ring: Ring, probe: Probe, md: Metadata)
    requires Scenario(dev, p1, p2, ring, md)
    ensures var p := ring.partition("A", "C", "O");
      GoodCount(dev, probe, p, md, [dev, p1, p2]) ==
        (if IsGood(probe(p1, p, "/A/C/O"), md) then 1 else 0) + (if IsGood(probe(p2, p, "/A/C/O"), md) then 1 else 0)
  {
    var p := ring.partition("A", "C", "O");
    assert [dev][..0] == [];
    assert GoodCount(dev, probe, p, md, [dev]) == 0;
    assert [dev, p1][..1] == [dev];
    assert GoodCount(dev, probe, p, md, [dev, p1]) == if IsGood(probe(p1, p, "/A/C/O"), md) then 1 else 0;
    assert [dev, p1, p2][..2] == [dev, p1];
  }

  /** P1 answers 200 and P2 404, both with D=100, M=100: promoted. */
  lemma ScenarioBothAgree(dev: Device, p1: Device, p2: Device, ring: Ring, probe: Probe, md: Metadata)
    requires Scenario(dev, p1, p2, ring, md)
    requires probe(p1, ring.partition("A", "C", "O"), "/A/C/O") == Some(Response(200, "100", "100"))
    requires probe(p2, ring.partition("A", "C", "O"), "/A/C/O") == Some(Response(404, "100", "100"))
    ensures Verdict(dev, ring, probe, md)
  {
    ScenarioLocate(ring, Meta(md, NameKey));
    ScenarioCount(dev, p1, p2, ring, probe, md);
  }

  /** P2 reports M=99: not promoted. */
  lemma ScenarioMetaMismatch(dev: Device, p1: Device, p2: Device, ring: Ring, probe: Probe, md: Metadata)
    requires Scenario(dev, p1, p2, ring, md)
    requires probe(p1, ring.partition("A", "C", "O"), "/A/C/O") == Some(Response(200, "100", "100"))
    requires probe(p2, ring.partition("A", "C", "O"), "/A/C/O") == Some(Response(404, "100", "99"))
    ensures !Verdict(dev, ring, probe, md)
  {
    ScenarioLocate(ring, Meta(md, NameKey));
    ScenarioCount(dev, p1, p2, ring, probe, md);
  }

  /** P2 times out: not promoted. */
  lemma ScenarioTimeout(dev: Device, p1: Device, p2: Device, ring: Ring, probe: Probe, md: Metadata)
    requires Scenario(dev, p1, p2, ring, md)
    requires probe(p1, ring.partition("A", "C", "O"), "/A/C/O") == Some(Response(200, "100", "100"))
    requires probe(p2, ring.partition("A", "C", "O"), "/A/C/O") == None
    ensures !Verdict(dev, ring, probe, md)
  {
    ScenarioLocate(ring, Meta(md, NameKey));
    ScenarioCount(dev, p1, p2, ring, probe, md);
  }
}
