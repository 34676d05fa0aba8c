/** The replicated task store of lab 28: immutable versions, write quorums, pending replication and head reads. */
module TaskStore {
  import opened Options
  import opened Sequences
  import opened HashRing

  type Key = nat

  type VersionId = nat

  datatype Version = Version(id: VersionId, parents: set<VersionId>, key: Key, status: string)

  type Versions = map<VersionId, Version>

  datatype Quorum = Quorum(replicas: int, read: int, write: int)

  datatype Config = Config(ring: Ring, hash: Key -> nat, quorum: Quorum)

  datatype State = State(stores: map<NodeId, map<Key, Versions>>, pending: seq<(NodeId, Version)>, next: nat)

  datatype StoreError = UnknownVersion(unknown: set<VersionId>) | TaskNotFound

  datatype ReadResult = ReadResult(owners: seq<NodeId>, contacted: seq<NodeId>, heads: Versions)

  ghost predicate ValidQuorum(q: Quorum) {
    1 <= q.replicas && 1 <= q.read <= q.replicas && 1 <= q.write <= q.replicas
  }

  ghost predicate ValidConfig(c: Config) {
    ValidRing(c.ring) && ValidQuorum(c.quorum) && c.quorum.replicas <= |c.ring.nodes|
  }

  function OwnersOf(c: Config, key: Key): (r: seq<NodeId>)
    requires ValidConfig(c)
    ensures |r| == c.quorum.replicas && Distinct(r) && forall n :: n in r ==> n in c.ring.nodes
  {
    OwnersAreDistinct(c.ring, c.hash(key), c.quorum.replicas);
    Owners(c.ring, c.hash(key), c.quorum.replicas).value
  }

  // ---------- one replica ----------

  function VersionsFor(s: State, node: NodeId, key: Key): Versions {
    if node in s.stores && key in s.stores[node] then s.stores[node][key] else map[]
  }

  function Apply(s: State, node: NodeId, v: Version): State {
    var store: map<Key, Versions> := if node in s.stores then s.stores[node] else map[];
    s.(stores := s.stores[node := store[v.key := VersionsFor(s, node, v.key)[v.id := v]]])
  }

  lemma ApplyStores(s: State, node: NodeId, v: Version, other: NodeId, key: Key)
    ensures VersionsFor(Apply(s, node, v), other, key)
            == if other == node && key == v.key then VersionsFor(s, node, key)[v.id := v] else VersionsFor(s, other, key)
  {
  }

  // ---------- operations ----------

  function ApplyAll(s: State, nodes: seq<NodeId>, v: Version): State {
    if nodes == [] then s else Apply(ApplyAll(s, nodes[..|nodes| - 1], v), nodes[|nodes| - 1], v)
  }

  function Queue(nodes: seq<NodeId>, v: Version): seq<(NodeId, Version)> {
    if nodes == [] then [] else Queue(nodes[..|nodes| - 1], v) + [(nodes[|nodes| - 1], v)]
  }

  /** The versions that some of the nodes hold, the first node's taking precedence. */
  function Visible(s: State, nodes: seq<NodeId>, key: Key): Versions {
    if nodes == [] then map[]
    else VersionsFor(s, nodes[|nodes| - 1], key) + Visible(s, nodes[..|nodes| - 1], key)
  }

  function Unknown(c: Config, s: State, key: Key, observed: set<VersionId>): set<VersionId>
    requires ValidConfig(c)
  {
    observed - Visible(s, OwnersOf(c, key), key).Keys
  }

  function WriteVersion(c: Config, s: State, v: Version): State
    requires ValidConfig(c)
  {
    var owners := OwnersOf(c, v.key);
    var t := ApplyAll(s, owners[..c.quorum.write], v);
    t.(pending := s.pending + Queue(owners[c.quorum.write..], v), next := s.next + 1)
  }

  function WriteTask(c: Config, s: State, key: Key, status: string, observed: set<VersionId>): (State, Result<Version, StoreError>)
    requires ValidConfig(c)
  {
    var unknown := Unknown(c, s, key, observed);
    if unknown != {} then (s, Err(UnknownVersion(unknown)))
    else
      var v := Version(s.next, observed, key, status);
      (WriteVersion(c, s, v), Ok(v))
  }

  function ApplyPairs(s: State, pairs: seq<(NodeId, Version)>): State {
    if pairs == [] then s
    else Apply(ApplyPairs(s, pairs[..|pairs| - 1]), pairs[|pairs| - 1].0, pairs[|pairs| - 1].1)
  }

  function ReplicatePending(s: State): State {
    ApplyPairs(s, s.pending).(pending := [])
  }

  function Rotated(owners: seq<NodeId>, offset: int): seq<NodeId> {
    if owners == [] then [] else owners[offset % |owners|..] + owners[..offset % |owners|]
  }

  function Contacted(c: Config, key: Key, offset: int, read: nat): seq<NodeId>
    requires ValidConfig(c) && read <= c.quorum.replicas
  {
    Rotated(OwnersOf(c, key), offset)[..read]
  }

  /** The versions that are no visible version's parent. */
  function Heads(visible: Versions): Versions {
    map id | id in visible && (forall other :: other in visible ==> id !in visible[other].parents) :: visible[id]
  }

  function ReadTask(c: Config, s: State, key: Key, offset: int, read: nat): Result<ReadResult, StoreError>
    requires ValidConfig(c) && read <= c.quorum.replicas
  {
    var contacted := Contacted(c, key, offset, read);
    var heads := Heads(Visible(s, contacted, key));
    if heads == map[] then Err(TaskNotFound) else Ok(ReadResult(OwnersOf(c, key), contacted, heads))
  }

  // ---------- runs ----------

  datatype Op = Write(key: Key, status: string, observed: set<VersionId>) | Replicate

  function Start(c: Config): State {
    State(map n | n in c.ring.nodes :: map[], [], 1)
  }

  function After(c: Config, ops: seq<Op>): State
    requires ValidConfig(c)
  {
    if ops == [] then Start(c)
    else
      var s := After(c, ops[..|ops| - 1]);
      match ops[|ops| - 1]
      case Write(key, status, observed) => WriteTask(c, s, key, status, observed).0
      case Replicate => ReplicatePending(s)
  }

  /** Every version the run's writes returned. */
  function Written(c: Config, ops: seq<Op>): Versions
    requires ValidConfig(c)
  {
    if ops == [] then map[]
    else
      var before := Written(c, ops[..|ops| - 1]);
      match ops[|ops| - 1]
      case Replicate => before
      case Write(key, status, observed) =>
        var r := WriteTask(c, After(c, ops[..|ops| - 1]), key, status, observed).1;
        if r.Ok? then before[r.value.id := r.value] else before
  }

  /** All written versions of a key. */
  function OfKey(written: Versions, key: Key): Versions {
    map id | id in written && written[id].key == key :: written[id]
  }

  // ---------- what every run keeps ----------

  ghost predicate Holds(s: State, node: NodeId, v: Version) {
    v.id in VersionsFor(s, node, v.key) && VersionsFor(s, node, v.key)[v.id] == v
  }

  ghost predicate Owed(s: State, node: NodeId, v: Version) {
    (node, v) in s.pending
  }

  /** Versions are filed under their ids, in order, and build on earlier versions of the same key. */
  ghost predicate Filed(s: State, written: Versions) {
    forall id :: id in written ==>
      && written[id].id == id < s.next
      && forall p :: p in written[id].parents ==> p < id && p in written && written[p].key == written[id].key
  }

  ghost predicate StoresGenuine(s: State, written: Versions) {
    forall node, key, id :: id in VersionsFor(s, node, key) ==>
      id in written && written[id] == VersionsFor(s, node, key)[id] && written[id].key == key
  }

  ghost predicate PairsGenuine(pairs: seq<(NodeId, Version)>, written: Versions) {
    forall i :: 0 <= i < |pairs| ==> pairs[i].1.id in written && written[pairs[i].1.id] == pairs[i].1
  }

  /** Replicas hold, and are owed, only written versions. */
  ghost predicate Genuine(s: State, written: Versions) {
    StoresGenuine(s, written) && PairsGenuine(s.pending, written)
  }

  /** No replica has lost a version. */
  ghost predicate StoresKept(s: State, r: State) {
    forall node, key, id :: id in VersionsFor(s, node, key) ==> id in VersionsFor(r, node, key)
  }

  /** Every owner of a version's key holds it or is owed it, and the first `write` owners hold it. */
  ghost predicate Placed(c: Config, s: State, written: Versions)
    requires ValidConfig(c)
  {
    forall id, i :: id in written && 0 <= i < c.quorum.replicas ==>
      var node := OwnersOf(c, written[id].key)[i];
      Holds(s, node, written[id]) || (i >= c.quorum.write && Owed(s, node, written[id]))
  }

  ghost predicate Inv(c: Config, s: State, written: Versions)
    requires ValidConfig(c)
  {
    Filed(s, written) && Genuine(s, written) && Placed(c, s, written)
  }

  // ---------- the invariant is kept ----------

  lemma StartInv(c: Config)
    requires ValidConfig(c)
    ensures Inv(c, Start(c), map[])
  {
  }

  lemma {:induction false} ApplyAllStores(s: State, nodes: seq<NodeId>, v: Version, other: NodeId, key: Key)
    ensures VersionsFor(ApplyAll(s, nodes, v), other, key)
            == if other in nodes && key == v.key then VersionsFor(s, other, key)[v.id := v] else VersionsFor(s, other, key)
    ensures ApplyAll(s, nodes, v).pending == s.pending && ApplyAll(s, nodes, v).next == s.next
  {
    if nodes != [] {
      var front, last := nodes[..|nodes| - 1], nodes[|nodes| - 1];
      ApplyAllStores(s, front, v, other, key);
      ApplyStores(ApplyAll(s, front, v), last, v, other, key);
      assert nodes == front + [last];
    }
  }

  lemma {:induction false} QueueHolds(nodes: seq<NodeId>, v: Version)
    ensures forall p :: p in Queue(nodes, v) <==> p.1 == v && p.0 in nodes
  {
    if nodes != [] {
      QueueHolds(nodes[..|nodes| - 1], v);
      assert nodes == nodes[..|nodes| - 1] + [nodes[|nodes| - 1]];
    }
  }

  /** All that a write changes. */
  lemma WriteChanges(c: Config, s: State, v: Version)
    requires ValidConfig(c)
    ensures var r := WriteVersion(c, s, v);
            && r.next == s.next + 1
            && (forall p :: p in r.pending <==> p in s.pending || (p.1 == v && p.0 in OwnersOf(c, v.key)[c.quorum.write..]))
            && forall node, key ::
                 VersionsFor(r, node, key)
                 == if node in OwnersOf(c, v.key)[..c.quorum.write] && key == v.key
                    then VersionsFor(s, node, key)[v.id := v] else VersionsFor(s, node, key)
  {
    var owners := OwnersOf(c, v.key);
    var r := WriteVersion(c, s, v);
    QueueHolds(owners[c.quorum.write..], v);
    ApplyAllStores(s, owners[..c.quorum.write], v, 0, 0);
    forall node, key ensures VersionsFor(r, node, key)
                             == if node in owners[..c.quorum.write] && key == v.key
                                then VersionsFor(s, node, key)[v.id := v] else VersionsFor(s, node, key)
    {
      ApplyAllStores(s, owners[..c.quorum.write], v, node, key);
    }
  }

  lemma WriteKeepsInv(c: Config, s: State, written: Versions, v: Version)
    requires ValidConfig(c) && Inv(c, s, written) && v.id == s.next
    requires forall p :: p in v.parents ==> p in OfKey(written, v.key)
    ensures Inv(c, WriteVersion(c, s, v), written[v.id := v])
  {
    WriteChanges(c, s, v);
    hide WriteVersion, VersionsFor, OwnersOf;
    WriteKeepsFiled(c, s, written, v);
    WriteKeepsGenuine(c, s, written, v);
    WriteKeepsPlaced(c, s, written, v);
  }

  lemma WriteKeepsFiled(c: Config, s: State, written: Versions, v: Version)
    requires ValidConfig(c) && Filed(s, written) && v.id == s.next && forall p :: p in v.parents ==> p in OfKey(written, v.key)
    ensures Filed(WriteVersion(c, s, v), written[v.id := v])
  {
    WriteChanges(c, s, v);
  }

  lemma WriteKeepsGenuine(c: Config, s: State, written: Versions, v: Version)
    requires ValidConfig(c) && Filed(s, written) && Genuine(s, written) && v.id == s.next
    ensures Genuine(WriteVersion(c, s, v), written[v.id := v])
  {
    WriteChanges(c, s, v);
    hide WriteVersion, VersionsFor, OwnersOf;
    var r, more := WriteVersion(c, s, v), written[v.id := v];
    forall node, key, id | id in VersionsFor(r, node, key)
      ensures id in more && more[id] == VersionsFor(r, node, key)[id] && more[id].key == key
    {
      if id in VersionsFor(s, node, key) {
        assert id in written && id != v.id;
        assert VersionsFor(r, node, key)[id] == VersionsFor(s, node, key)[id];
      } else {
        assert id == v.id && VersionsFor(r, node, key)[id] == v;
      }
    }
    forall i | 0 <= i < |r.pending| ensures r.pending[i].1.id in more && more[r.pending[i].1.id] == r.pending[i].1 {
      assert r.pending[i] in r.pending;
    }
  }

  lemma WriteKeepsPlaced(c: Config, s: State, written: Versions, v: Version)
    requires ValidConfig(c) && Filed(s, written) && Placed(c, s, written) && v.id == s.next
    ensures Placed(c, WriteVersion(c, s, v), written[v.id := v])
  {
    WriteChanges(c, s, v);
    hide WriteVersion, VersionsFor, OwnersOf;
    var r, more := WriteVersion(c, s, v), written[v.id := v];
    forall id, i | id in more && 0 <= i < c.quorum.replicas
      ensures var node := OwnersOf(c, more[id].key)[i];
              Holds(r, node, more[id]) || (i >= c.quorum.write && Owed(r, node, more[id]))
    {
      var owners := OwnersOf(c, more[id].key);
      if id == v.id {
        if i < c.quorum.write {
          assert owners[..c.quorum.write][i] == owners[i];
        } else {
          assert owners[c.quorum.write..][i - c.quorum.write] == owners[i];
        }
      } else {
        assert written[id].id != v.id;
      }
    }
  }

  lemma ApplyKeepsGenuine(s: State, node: NodeId, v: Version, written: Versions)
    requires StoresGenuine(s, written) && v.id in written && written[v.id] == v
    ensures StoresGenuine(Apply(s, node, v), written) && StoresKept(s, Apply(s, node, v))
    ensures v.id in VersionsFor(Apply(s, node, v), node, v.key)
  {
    forall other, key ensures VersionsFor(Apply(s, node, v), other, key)
                              == if other == node && key == v.key then VersionsFor(s, node, key)[v.id := v]
                                 else VersionsFor(s, other, key)
    {
      ApplyStores(s, node, v, other, key);
    }
    hide Apply, VersionsFor;
  }

  lemma {:induction false} PairsStore(s: State, pairs: seq<(NodeId, Version)>, written: Versions)
    requires PairsGenuine(pairs, written) && StoresGenuine(s, written)
    ensures var r := ApplyPairs(s, pairs);
            && r.next == s.next
            && StoresGenuine(r, written) && StoresKept(s, r)
            && forall i :: 0 <= i < |pairs| ==> pairs[i].1.id in VersionsFor(r, pairs[i].0, pairs[i].1.key)
  {
    hide VersionsFor, StoresGenuine;
    if pairs != [] {
      var front, last := pairs[..|pairs| - 1], pairs[|pairs| - 1];
      PairsStore(s, front, written);
      ApplyKeepsGenuine(ApplyPairs(s, front), last.0, last.1, written);
      assert forall i :: 0 <= i < |front| ==> front[i] == pairs[i];
    }
  }

  lemma ReplicateChanges(s: State, written: Versions)
    requires Genuine(s, written)
    ensures var r := ReplicatePending(s);
            && r.next == s.next && r.pending == []
            && StoresGenuine(r, written) && StoresKept(s, r)
            && forall i :: 0 <= i < |s.pending| ==> s.pending[i].1.id in VersionsFor(r, s.pending[i].0, s.pending[i].1.key)
  {
    PairsStore(s, s.pending, written);
    var t, r := ApplyPairs(s, s.pending), ReplicatePending(s);
    forall node, key ensures VersionsFor(r, node, key) == VersionsFor(t, node, key) {
    }
    hide VersionsFor;
  }

  lemma HeldAfterReplication(s: State, written: Versions, node: NodeId, id: VersionId)
    requires Filed(s, written) && Genuine(s, written) && id in written
    requires Holds(s, node, written[id]) || Owed(s, node, written[id])
    ensures Holds(ReplicatePending(s), node, written[id])
  {
    hide VersionsFor, ReplicatePending;
    ReplicateChanges(s, written);
    if Owed(s, node, written[id]) {
      var i :| 0 <= i < |s.pending| && s.pending[i] == (node, written[id]);
    }
  }

  lemma ReplicateKeepsInv(c: Config, s: State, written: Versions)
    requires ValidConfig(c) && Inv(c, s, written)
    ensures Inv(c, ReplicatePending(s), written)
  {
    ReplicateChanges(s, written);
    hide VersionsFor, ReplicatePending, OwnersOf, Holds, Owed, StoresKept, StoresGenuine;
    var r := ReplicatePending(s);
    forall id, i | id in written && 0 <= i < c.quorum.replicas ensures Holds(r, OwnersOf(c, written[id].key)[i], written[id]) {
      HeldAfterReplication(s, written, OwnersOf(c, written[id].key)[i], id);
    }
  }

  // ---------- what a quorum sees ----------

  /** A quorum slice sees every version of the key when one of its nodes holds them all, and never anything else. */
  lemma {:induction false} VisibleIsWritten(s: State, written: Versions, nodes: seq<NodeId>, key: Key)
    requires Genuine(s, written)
    ensures forall id :: id in Visible(s, nodes, key) ==> id in OfKey(written, key) && Visible(s, nodes, key)[id] == written[id]
    ensures forall node :: node in nodes ==> VersionsFor(s, node, key).Keys <= Visible(s, nodes, key).Keys
  {
    hide VersionsFor;
    if nodes != [] {
      VisibleIsWritten(s, written, nodes[..|nodes| - 1], key);
      assert nodes == nodes[..|nodes| - 1] + [nodes[|nodes| - 1]];
    }
  }

  lemma FullNodeShowsAll(c: Config, s: State, written: Versions, nodes: seq<NodeId>, key: Key, i: nat)
    requires ValidConfig(c) && Inv(c, s, written) && i < c.quorum.replicas && OwnersOf(c, key)[i] in nodes
    requires i < c.quorum.write || s.pending == []
    ensures Visible(s, nodes, key) == OfKey(written, key)
  {
    hide OwnersOf, VersionsFor, Visible, ValidConfig, StoresGenuine, PairsGenuine;
    var node := OwnersOf(c, key)[i];
    VisibleIsWritten(s, written, nodes, key);
    forall id | id in OfKey(written, key) ensures id in Visible(s, nodes, key) {
      assert Holds(s, node, written[id]);
    }
  }

  /** The owner at `j` steps from the offset. */
  lemma ContactedAt(c: Config, key: Key, offset: int, read: nat, j: nat)
    requires ValidConfig(c) && j < read <= c.quorum.replicas
    ensures |Contacted(c, key, offset, read)| == read
    ensures var n := c.quorum.replicas;
            var start := offset % n;
            Contacted(c, key, offset, read)[j] == OwnersOf(c, key)[if start + j < n then start + j else start + j - n]
  {
    var owners := OwnersOf(c, key);
    assert |owners| == c.quorum.replicas;
    RotatedAt(owners, offset, j);
  }

  lemma RotatedAt(owners: seq<NodeId>, offset: int, j: nat)
    requires j < |owners|
    ensures var start := offset % |owners|;
            && 0 <= start < |owners| && |Rotated(owners, offset)| == |owners|
            && Rotated(owners, offset)[j] == owners[if start + j < |owners| then start + j else start + j - |owners|]
  {
  }

  /** A read and a write quorum that together outnumber the replicas share a node. */
  lemma ReadMeetsWrite(c: Config, key: Key, offset: int, read: nat) returns (i: nat)
    requires ValidConfig(c) && 1 <= read <= c.quorum.replicas && read + c.quorum.write > c.quorum.replicas
    ensures i < c.quorum.write && OwnersOf(c, key)[i] in Contacted(c, key, offset, read)
  {
    hide OwnersOf, Contacted, ValidRing;
    var n := c.quorum.replicas;
    var start := offset % n;
    var j := if start < c.quorum.write then 0 else n - start;
    i := if start < c.quorum.write then start else 0;
    ContactedAt(c, key, offset, read, j);
    assert Contacted(c, key, offset, read)[j] == OwnersOf(c, key)[i];
  }

  lemma FirstOwnerKnowsAll(c: Config, s: State, written: Versions, key: Key)
    requires ValidConfig(c) && Inv(c, s, written)
    ensures Visible(s, OwnersOf(c, key), key) == OfKey(written, key)
  {
    FullNodeShowsAll(c, s, written, OwnersOf(c, key), key, 0);
  }

  // ---------- every run ----------

  lemma {:induction false} RunInv(c: Config, ops: seq<Op>)
    requires ValidConfig(c)
    ensures Inv(c, After(c, ops), Written(c, ops))
  {
    hide ValidConfig, Inv, WriteVersion, ReplicatePending;
    if ops == [] {
      StartInv(c);
    } else {
      var before := ops[..|ops| - 1];
      var s, written := After(c, before), Written(c, before);
      RunInv(c, before);
      match ops[|ops| - 1] {
        case Replicate => ReplicateKeepsInv(c, s, written);
        case Write(key, status, observed) => WriteTaskKeepsInv(c, s, written, key, status, observed);
      }
    }
  }

  lemma NothingUnknown(c: Config, s: State, key: Key, observed: set<VersionId>)
    requires ValidConfig(c)
    ensures Unknown(c, s, key, observed) == {} <==> observed <= Visible(s, OwnersOf(c, key), key).Keys
  {
    hide OwnersOf, Visible;
    if Unknown(c, s, key, observed) == {} {
      forall p | p in observed ensures p in Visible(s, OwnersOf(c, key), key) {
        assert p !in Unknown(c, s, key, observed);
      }
    }
  }

  lemma WriteTaskKeepsInv(c: Config, s: State, written: Versions, key: Key, status: string, observed: set<VersionId>)
    requires ValidConfig(c) && Inv(c, s, written)
    ensures var (t, r) := WriteTask(c, s, key, status, observed);
            Inv(c, t, if r.Ok? then written[r.value.id := r.value] else written)
  {
    hide ValidConfig, Inv, WriteVersion;
    FirstOwnerKnowsAll(c, s, written, key);
    NothingUnknown(c, s, key, observed);
    if Unknown(c, s, key, observed) == {} {
      WriteKeepsInv(c, s, written, Version(s.next, observed, key, status));
    }
  }

  /** A write is refused exactly when it names a version of the key that was never written. */
  lemma WriteRefusedExactly(c: Config, ops: seq<Op>, key: Key, status: string, observed: set<VersionId>)
    requires ValidConfig(c)
    ensures WriteTask(c, After(c, ops), key, status, observed).1.Err? <==> !(observed <= OfKey(Written(c, ops), key).Keys)
  {
    hide ValidConfig, Inv, WriteVersion, After, Written;
    RunInv(c, ops);
    FirstOwnerKnowsAll(c, After(c, ops), Written(c, ops), key);
    NothingUnknown(c, After(c, ops), key, observed);
  }

  /** `a` is an ancestor of `b`: `b` was written on top of it, directly or through others. */
  ghost predicate Ancestor(written: Versions, a: VersionId, b: VersionId) {
    exists chain: seq<VersionId> :: Descent(written, chain) && |chain| >= 2 && chain[0] == a && chain[|chain| - 1] == b
  }

  ghost predicate Descent(written: Versions, chain: seq<VersionId>) {
    && (forall i :: 0 <= i < |chain| ==> chain[i] in written)
    && forall i :: 0 <= i < |chain| - 1 ==> chain[i] in written[chain[i + 1]].parents
  }

  /** The heads of a key: its versions that are no written version's ancestor. */
  ghost predicate AreHeads(written: Versions, key: Key, heads: Versions) {
    && (forall id :: id in heads ==> id in written && heads[id] == written[id])
    && forall id :: id in heads <==> id in written && written[id].key == key && forall b :: !Ancestor(written, id, b)
  }

  lemma HeadsOfAll(s: State, written: Versions, key: Key)
    requires Filed(s, written)
    ensures AreHeads(written, key, Heads(OfKey(written, key)))
  {
    var all := OfKey(written, key);
    var heads := Heads(all);
    forall id | id in all ensures id in heads <==> forall b :: !Ancestor(written, id, b) {
      if id !in heads {
        var other :| other in all && id in all[other].parents;
        assert Descent(written, [id, other]);
        assert Ancestor(written, id, other);
      }
      if b :| Ancestor(written, id, b) {
        var chain :| Descent(written, chain) && |chain| >= 2 && chain[0] == id && chain[|chain| - 1] == b;
        assert chain[0] in written[chain[1]].parents;
        assert chain[1] in all;
      }
    }
  }

  ghost predicate ReadsExactly(c: Config, s: State, written: Versions, key: Key, offset: int, read: nat)
    requires ValidConfig(c) && read <= c.quorum.replicas
  {
    var r := ReadTask(c, s, key, offset, read);
    if OfKey(written, key) == map[] then r == Err(TaskNotFound) else r.Ok? && AreHeads(written, key, r.value.heads)
  }

  lemma NewestIsHead(s: State, written: Versions, key: Key)
    requires Filed(s, written) && OfKey(written, key) != map[]
    ensures Heads(OfKey(written, key)) != map[]
  {
    var all := OfKey(written, key);
    var id := Newest(all.Keys);
    forall other | other in all ensures id !in all[other].parents {
    }
    assert id in Heads(all);
  }

  lemma Newest(ids: set<VersionId>) returns (newest: VersionId)
    requires ids != {}
    ensures newest in ids && forall id :: id in ids ==> id <= newest
  {
    newest :| newest in ids;
    var first, rest := newest, ids - {newest};
    if rest != {} {
      var other := Newest(rest);
      newest := if other > first then other else first;
    }
    forall id | id in ids ensures id <= newest {
      assert id == first || id in rest;
    }
  }

  lemma SeenIsRead(c: Config, s: State, written: Versions, key: Key, offset: int, read: nat, i: nat)
    requires ValidConfig(c) && Inv(c, s, written) && read <= c.quorum.replicas && i < c.quorum.replicas
    requires OwnersOf(c, key)[i] in Contacted(c, key, offset, read) && (i < c.quorum.write || s.pending == [])
    ensures ReadsExactly(c, s, written, key, offset, read)
  {
    hide Contacted, Visible, OwnersOf, Heads, OfKey, AreHeads, ValidRing;
    FullNodeShowsAll(c, s, written, Contacted(c, key, offset, read), key, i);
    HeadsOfAll(s, written, key);
    if OfKey(written, key) != map[] {
      NewestIsHead(s, written, key);
    } else {
      assert Heads(map[]) == map[] by { NoHeads(); }
    }
  }

  lemma NoHeads()
    ensures Heads(map[]) == map[]
  {
  }

  /**
   * When read and write quorums overlap, a read at any offset, replication pending or not, returns exactly the
   * versions of the key that no other written version descends from.
   */
  lemma StrongReadShowsHeads(c: Config, ops: seq<Op>, key: Key, offset: int)
    requires ValidConfig(c) && c.quorum.read + c.quorum.write > c.quorum.replicas
    ensures ReadsExactly(c, After(c, ops), Written(c, ops), key, offset, c.quorum.read)
  {
    hide Inv, After, Written, ReadsExactly, OwnersOf, Contacted, ValidRing;
    RunInv(c, ops);
    var i := ReadMeetsWrite(c, key, offset, c.quorum.read);
    SeenIsRead(c, After(c, ops), Written(c, ops), key, offset, c.quorum.read, i);
  }

  /** Once nothing is pending, a read of any size at any offset is exact, so all reads agree. */
  lemma ReplicatedReadShowsHeads(c: Config, ops: seq<Op>, key: Key, offset: int, read: nat)
    requires ValidConfig(c) && 1 <= read <= c.quorum.replicas && After(c, ops).pending == []
    ensures ReadsExactly(c, After(c, ops), Written(c, ops), key, offset, read)
  {
    hide Inv, After, Written, ReadsExactly, OwnersOf, Contacted, ValidRing;
    RunInv(c, ops);
    ContactedAt(c, key, offset, read, 0);
    assert Contacted(c, key, offset, read)[0] == OwnersOf(c, key)[offset % c.quorum.replicas];
    SeenIsRead(c, After(c, ops), Written(c, ops), key, offset, read, offset % c.quorum.replicas);
  }

  lemma ReplicateClears(c: Config, ops: seq<Op>)
    requires ValidConfig(c)
    ensures After(c, ops + [Replicate]).pending == [] && Written(c, ops + [Replicate]) == Written(c, ops)
  {
    assert (ops + [Replicate])[..|ops|] == ops;
  }

  /** A node that holds no version of a key shows none. */
  lemma {:induction false} NothingVisible(s: State, nodes: seq<NodeId>, key: Key)
    requires forall node :: node in nodes ==> VersionsFor(s, node, key) == map[]
    ensures Visible(s, nodes, key) == map[]
  {
    if nodes != [] {
      NothingVisible(s, nodes[..|nodes| - 1], key);
    }
  }

  /** With a weak read quorum, the slice at offset `write` holds none of the nodes that acknowledge writes. */
  lemma WeakReadMisses(c: Config, key: Key, node: NodeId)
    requires ValidConfig(c) && c.quorum.read + c.quorum.write <= c.quorum.replicas
    requires node in Contacted(c, key, c.quorum.write, c.quorum.read)
    ensures node !in OwnersOf(c, key)[..c.quorum.write]
  {
    var owners := OwnersOf(c, key);
    var contacted := Contacted(c, key, c.quorum.write, c.quorum.read);
    assert Distinct(owners) && |owners| == c.quorum.replicas;
    hide OwnersOf, Contacted, ValidRing;
    ContactedAt(c, key, c.quorum.write, c.quorum.read, 0);
    var j :| 0 <= j < |contacted| && contacted[j] == node;
    ContactedAt(c, key, c.quorum.write, c.quorum.read, j);
    ModuloWraps(c.quorum.write, c.quorum.replicas);
    assert node == owners[c.quorum.write + j];
  }

  lemma FirstWrite(c: Config, key: Key, status: string)
    requires ValidConfig(c)
    ensures var v := Version(1, {}, key, status);
            var ops := [Write(key, status, {})];
            After(c, ops) == WriteVersion(c, Start(c), v) && Written(c, ops) == map[1 := v]
  {
    var ops := [Write(key, status, {})];
    assert ops[..0] == [];
    hide WriteVersion, Visible, OwnersOf;
    assert Unknown(c, Start(c), key, {}) == {};
    assert After(c, ops[..0]) == Start(c) && Written(c, ops[..0]) == map[];
  }

  /** A weak read can miss even an acknowledged write: a key's first write is found at every offset exactly when quorums overlap. */
  lemma FirstWriteIsFoundExactly(c: Config, key: Key, status: string)
    requires ValidConfig(c)
    ensures (forall offset: int :: ReadTask(c, After(c, [Write(key, status, {})]), key, offset, c.quorum.read).Ok?)
            <==> c.quorum.read + c.quorum.write > c.quorum.replicas
  {
    var ops := [Write(key, status, {})];
    FirstWrite(c, key, status);
    if c.quorum.read + c.quorum.write > c.quorum.replicas {
      hide ReadTask, After, Written, ValidRing;
      forall offset: int ensures ReadTask(c, After(c, ops), key, offset, c.quorum.read).Ok? {
        StrongReadShowsHeads(c, ops, key, offset);
        assert 1 in OfKey(Written(c, ops), key);
      }
    } else {
      WeakReadFails(c, key, Version(1, {}, key, status));
    }
  }

  lemma WeakReadFails(c: Config, key: Key, v: Version)
    requires ValidConfig(c) && v.key == key && c.quorum.read + c.quorum.write <= c.quorum.replicas
    ensures ReadTask(c, WriteVersion(c, Start(c), v), key, c.quorum.write, c.quorum.read).Err?
  {
    hide WriteVersion, OwnersOf, Contacted, VersionsFor, ValidRing;
    var s := WriteVersion(c, Start(c), v);
    WriteChanges(c, Start(c), v);
    var contacted := Contacted(c, key, c.quorum.write, c.quorum.read);
    forall node | node in contacted ensures VersionsFor(s, node, key) == map[] {
      WeakReadMisses(c, key, node);
      NothingAtStart(c, node, key);
    }
    NothingVisible(s, contacted, key);
    NoHeads();
  }

  lemma NothingAtStart(c: Config, node: NodeId, key: Key)
    ensures VersionsFor(Start(c), node, key) == map[]
  {
  }
}
