/** The replicated task store of lab 28 as the object the repository keeps, step by step the same as its specification. */
module TaskStoreObject {
  import opened Options
  import opened HashRing
  import opened TaskStore

  datatype WriteResult = WriteResult(owners: seq<NodeId>, acknowledgedBy: seq<NodeId>, pendingReplicas: seq<NodeId>, version: Version)

  class ReplicatedTaskStore {
    const config: Config
    var stores: map<NodeId, map<Key, Versions>>
    var pending: seq<(NodeId, Version)>
    var counter: nat

    ghost predicate Valid() {
      ValidConfig(config)
    }

    function Now(): State
      reads this
    {
      State(stores, pending, counter)
    }

    constructor (config: Config)
      requires ValidConfig(config)
      ensures Valid() && this.config == config && Now() == Start(config)
    {
      this.config := config;
      stores := map n | n in config.ring.nodes :: map[];
      pending := [];
      counter := 1;
    }

    /** One replica stores a version. */
    method ApplyAt(node: NodeId, v: Version)
      modifies this
      ensures Now() == Apply(old(Now()), node, v)
    {
      var store: map<Key, Versions> := if node in stores then stores[node] else map[];
      var bucket := if v.key in store then store[v.key] else map[];
      stores := stores[node := store[v.key := bucket[v.id := v]]];
    }

    method OwnersFor(key: Key) returns (owners: seq<NodeId>)
      requires Valid()
      ensures owners == OwnersOf(config, key)
    {
      var found := OwnersForKey(config.ring, config.hash(key), config.quorum.replicas);
      OwnersAreDistinct(config.ring, config.hash(key), config.quorum.replicas);
      owners := found.value;
    }

    /** Collects what some of the nodes hold of a key. */
    method Collect(nodes: seq<NodeId>, key: Key) returns (visible: Versions)
      ensures visible == Visible(Now(), nodes, key)
    {
      visible := map[];
      var i := 0;
      assert nodes[..|nodes|] == nodes;
      while i < |nodes|
        invariant i <= |nodes| && visible == Visible(Now(), nodes[..i], key)
      {
        assert nodes[..i + 1][..i] == nodes[..i];
        visible := VersionsFor(Now(), nodes[i], key) + visible;
        i := i + 1;
      }
    }

    method Write(key: Key, status: string, observed: set<VersionId>) returns (r: Result<WriteResult, StoreError>)
      requires Valid()
      modifies this
      ensures Now() == WriteTask(config, old(Now()), key, status, observed).0
      ensures match WriteTask(config, old(Now()), key, status, observed).1
              case Err(e) => r == Err(e)
              case Ok(v) =>
                var owners := OwnersOf(config, key);
                r == Ok(WriteResult(owners, owners[..config.quorum.write], owners[config.quorum.write..], v))
    {
      hide OwnersOf, Visible, ValidRing, ApplyAll, Queue;
      var owners := OwnersFor(key);
      OwnersFit(config, key);
      var known := Collect(owners, key);
      var unknown := observed - known.Keys;
      if unknown != {} {
        return Err(UnknownVersion(unknown));
      }
      var version := Version(counter, observed, key, status);
      counter := counter + 1;
      var acknowledged, waiting := owners[..config.quorum.write], owners[config.quorum.write..];
      ghost var start := Now();
      ApplyNone(start, version);
      var i := 0;
      while i < |acknowledged|
        invariant i <= |acknowledged| && Now() == ApplyAll(start, acknowledged[..i], version)
      {
        ApplyNext(start, acknowledged, i, version);
        ApplyAt(acknowledged[i], version);
        i := i + 1;
      }
      assert acknowledged[..i] == acknowledged;
      ghost var applied := Now();
      var j := 0;
      assert pending + [] == pending;
      while j < |waiting|
        invariant j <= |waiting| && Now() == applied.(pending := applied.pending + Queue(waiting[..j], version))
      {
        QueueNext(waiting, j, version);
        pending := pending + [(waiting[j], version)];
        j := j + 1;
      }
      assert waiting[..j] == waiting;
      ApplyLater(old(Now()), acknowledged, version);
      return Ok(WriteResult(owners, acknowledged, waiting, version));
    }

    method Replicate() returns (count: nat)
      modifies this
      ensures Now() == ReplicatePending(old(Now())) && count == |old(pending)|
    {
      hide Apply;
      var waiting := pending;
      pending := [];
      ghost var start := Now();
      var i := 0;
      while i < |waiting|
        invariant i <= |waiting| && Now() == ApplyPairs(start, waiting[..i])
      {
        assert waiting[..i + 1][..i] == waiting[..i];
        ApplyAt(waiting[i].0, waiting[i].1);
        i := i + 1;
      }
      assert waiting[..i] == waiting;
      PairsIgnorePending(old(Now()), waiting);
      return |waiting|;
    }

    method Read(key: Key, offset: int) returns (r: Result<ReadResult, StoreError>)
      requires Valid()
      ensures r == ReadTask(config, Now(), key, offset, config.quorum.read)
    {
      hide OwnersOf, Visible, Heads, ValidRing;
      var owners := OwnersFor(key);
      OwnersFit(config, key);
      var start := offset % |owners|;
      var rotated := owners[start..] + owners[..start];
      var contacted := rotated[..config.quorum.read];
      var visible := Collect(contacted, key);
      var heads := Heads(visible);
      if heads == map[] {
        return Err(TaskNotFound);
      }
      return Ok(ReadResult(owners, contacted, heads));
    }
  }

  lemma OwnersFit(c: Config, key: Key)
    requires ValidConfig(c)
    ensures |OwnersOf(c, key)| == c.quorum.replicas
  {
  }

  lemma ApplyNone(s: State, v: Version)
    ensures ApplyAll(s, [], v) == s && Queue([], v) == []
  {
  }

  lemma ApplyNext(s: State, nodes: seq<NodeId>, i: nat, v: Version)
    requires i < |nodes|
    ensures ApplyAll(s, nodes[..i + 1], v) == Apply(ApplyAll(s, nodes[..i], v), nodes[i], v)
  {
    assert nodes[..i + 1][..i] == nodes[..i];
  }

  lemma QueueNext(nodes: seq<NodeId>, i: nat, v: Version)
    requires i < |nodes|
    ensures Queue(nodes[..i + 1], v) == Queue(nodes[..i], v) + [(nodes[i], v)]
  {
    assert nodes[..i + 1][..i] == nodes[..i];
  }

  /** The counter and the queue of pending versions play no part in what replicas store. */
  lemma {:induction false} ApplyLater(s: State, nodes: seq<NodeId>, v: Version)
    ensures ApplyAll(s.(next := s.next + 1), nodes, v) == ApplyAll(s, nodes, v).(next := s.next + 1)
    ensures ApplyAll(s, nodes, v).pending == s.pending
  {
    if nodes != [] {
      ApplyLater(s, nodes[..|nodes| - 1], v);
    }
  }

  lemma {:induction false} PairsIgnorePending(s: State, pairs: seq<(NodeId, Version)>)
    ensures ApplyPairs(s.(pending := []), pairs) == ApplyPairs(s, pairs).(pending := [])
  {
    if pairs != [] {
      PairsIgnorePending(s, pairs[..|pairs| - 1]);
    }
  }
}
