/** What reads of the task store (lab 28) return, told from the write calls alone. */
module TaskHistory {
  import opened Options
  import opened HashRing
  import opened TaskStore

  // ---------- the accepted writes ----------

  /** What an accepted write call said; its version id is its position, counted from one. */
  datatype Line = Line(key: Key, status: string, observed: set<VersionId>)

  /** Everything observed is an earlier accepted write of the same key. */
  ghost predicate Knows(lines: seq<Line>, key: Key, observed: set<VersionId>) {
    forall p :: p in observed ==> 1 <= p <= |lines| && lines[p - 1].key == key
  }

  /** The accepted ones among these calls. */
  ghost function Lines(ops: seq<Op>): seq<Line> {
    if ops == [] then []
    else
      var before := Lines(ops[..|ops| - 1]);
      match ops[|ops| - 1]
      case Replicate => before
      case Write(key, status, observed) => if Knows(before, key, observed) then before + [Line(key, status, observed)] else before
  }

  /** The stored versions are these lines, filed under their positions. */
  ghost predicate Files(lines: seq<Line>, written: Versions) {
    && (forall id :: id in written <==> 1 <= id <= |lines|)
    && forall id :: id in written ==> written[id] == Version(id, lines[id - 1].observed, lines[id - 1].key, lines[id - 1].status)
  }

  /** A write call is accepted exactly if it observes accepted writes of its key only; else the error names all others. */
  ghost predicate Answers(lines: seq<Line>, key: Key, status: string, observed: set<VersionId>, r: Result<Version, StoreError>) {
    if Knows(lines, key, observed) then r == Ok(Version(|lines| + 1, observed, key, status))
    else r == Err(UnknownVersion(set p | p in observed && !(1 <= p <= |lines| && lines[p - 1].key == key)))
  }

  lemma WriteAnswersFrom(c: Config, s: State, written: Versions, lines: seq<Line>, key: Key, status: string, observed: set<VersionId>)
    requires ValidConfig(c) && Inv(c, s, written) && Files(lines, written) && s.next == |lines| + 1
    ensures Answers(lines, key, status, observed, WriteTask(c, s, key, status, observed).1)
    ensures WriteTask(c, s, key, status, observed).0.next == |lines| + 1 + (if Knows(lines, key, observed) then 1 else 0)
  {
    hide ValidConfig, Inv, WriteVersion, OwnersOf, Visible;
    FirstOwnerKnowsAll(c, s, written, key);
    var unknown := Unknown(c, s, key, observed);
    assert unknown == set p | p in observed && !(1 <= p <= |lines| && lines[p - 1].key == key) by {
      assert forall p :: p in OfKey(written, key) <==> 1 <= p <= |lines| && lines[p - 1].key == key;
    }
    assert unknown == {} <==> Knows(lines, key, observed) by {
      if unknown == {} {
        forall p | p in observed ensures 1 <= p <= |lines| && lines[p - 1].key == key {
          assert p !in unknown;
        }
      }
    }
    if Knows(lines, key, observed) {
      WriteChanges(c, s, Version(s.next, observed, key, status));
    }
  }

  /** After any calls the store has filed exactly the accepted writes, under their positions. */
  lemma {:induction false} LinesAreFiled(c: Config, ops: seq<Op>)
    requires ValidConfig(c)
    ensures Files(Lines(ops), Written(c, ops)) && After(c, ops).next == |Lines(ops)| + 1
  {
    hide ValidConfig, Inv, WriteTask, ReplicatePending, Knows;
    if ops != [] {
      var before := ops[..|ops| - 1];
      LinesAreFiled(c, before);
      RunInv(c, before);
      match ops[|ops| - 1] {
        case Replicate => ReplicateFiles(After(c, before), c, Written(c, before));
        case Write(key, status, observed) =>
          WriteAnswersFrom(c, After(c, before), Written(c, before), Lines(before), key, status, observed);
      }
    }
  }

  lemma ReplicateFiles(s: State, c: Config, written: Versions)
    requires ValidConfig(c) && Inv(c, s, written)
    ensures ReplicatePending(s).next == s.next
  {
    ReplicateChanges(s, written);
  }

  /** The answer of a write call after any calls, from those calls alone. */
  lemma WriteAnswers(c: Config, ops: seq<Op>, key: Key, status: string, observed: set<VersionId>)
    requires ValidConfig(c)
    ensures Answers(Lines(ops), key, status, observed, WriteTask(c, After(c, ops), key, status, observed).1)
  {
    hide ValidConfig, Inv, WriteTask, Answers;
    LinesAreFiled(c, ops);
    RunInv(c, ops);
    WriteAnswersFrom(c, After(c, ops), Written(c, ops), Lines(ops), key, status, observed);
  }

  /** Lines observe earlier lines of their own key. */
  lemma {:induction false} LinesLookBack(ops: seq<Op>)
    ensures forall i, p :: 0 <= i < |Lines(ops)| && p in Lines(ops)[i].observed ==>
              1 <= p <= i && Lines(ops)[p - 1].key == Lines(ops)[i].key
  {
    if ops != [] {
      LinesLookBack(ops[..|ops| - 1]);
    }
  }

  // ---------- who builds on whom ----------

  /** Each line of the chain observed the one before it. */
  ghost predicate Chain(lines: seq<Line>, chain: seq<VersionId>) {
    && (forall i :: 0 <= i < |chain| ==> 1 <= chain[i] <= |lines|)
    && forall i :: 0 <= i < |chain| - 1 ==> chain[i] in lines[chain[i + 1] - 1].observed
  }

  /** `b` was written on top of `a`, directly or through others. */
  ghost predicate BuiltOn(lines: seq<Line>, a: VersionId, b: VersionId) {
    exists chain: seq<VersionId> :: Chain(lines, chain) && |chain| >= 2 && chain[0] == a && chain[|chain| - 1] == b
  }

  /** A write of the key that nothing was written on top of. */
  ghost predicate Current(lines: seq<Line>, key: Key, id: VersionId) {
    1 <= id <= |lines| && lines[id - 1].key == key && forall b :: !BuiltOn(lines, id, b)
  }

  /** A read that returns the current writes of the key, each with what its call said; or not-found if there are no writes. */
  ghost predicate Shows(lines: seq<Line>, key: Key, r: Result<ReadResult, StoreError>) {
    if forall i :: 0 <= i < |lines| ==> lines[i].key != key then r == Err(TaskNotFound)
    else
      && r.Ok?
      && (forall id :: id in r.value.heads <==> Current(lines, key, id))
      && forall id :: id in r.value.heads ==>
           1 <= id <= |lines| && r.value.heads[id] == Version(id, lines[id - 1].observed, key, lines[id - 1].status)
  }

  lemma SameChains(lines: seq<Line>, written: Versions, a: VersionId, b: VersionId)
    requires Files(lines, written)
    ensures BuiltOn(lines, a, b) <==> Ancestor(written, a, b)
  {
    if BuiltOn(lines, a, b) {
      var chain: seq<VersionId> :| Chain(lines, chain) && |chain| >= 2 && chain[0] == a && chain[|chain| - 1] == b;
      assert Descent(written, chain);
    }
    if Ancestor(written, a, b) {
      var chain: seq<VersionId> :| Descent(written, chain) && |chain| >= 2 && chain[0] == a && chain[|chain| - 1] == b;
      assert Chain(lines, chain);
    }
  }

  lemma ShowsFromHeads(c: Config, s: State, lines: seq<Line>, written: Versions, key: Key, offset: int, read: nat)
    requires ValidConfig(c) && read <= c.quorum.replicas && Files(lines, written) && ReadsExactly(c, s, written, key, offset, read)
    ensures Shows(lines, key, ReadTask(c, s, key, offset, read))
  {
    hide ReadTask, ValidConfig, AreHeads, Files;
    var r := ReadTask(c, s, key, offset, read);
    if OfKey(written, key) == map[] {
      NoLines(lines, written, key);
    } else {
      HeadsAreCurrent(lines, written, key, r.value.heads);
    }
  }

  lemma NoLines(lines: seq<Line>, written: Versions, key: Key)
    requires Files(lines, written)
    ensures OfKey(written, key) == map[] <==> forall i :: 0 <= i < |lines| ==> lines[i].key != key
  {
    if i :| 0 <= i < |lines| && lines[i].key == key {
      assert i + 1 in OfKey(written, key);
    }
  }

  lemma HeadsAreCurrent(lines: seq<Line>, written: Versions, key: Key, heads: Versions)
    requires Files(lines, written) && AreHeads(written, key, heads) && OfKey(written, key) != map[]
    ensures exists i :: 0 <= i < |lines| && lines[i].key == key
    ensures forall id :: id in heads <==> Current(lines, key, id)
    ensures forall id :: id in heads ==> 1 <= id <= |lines| && heads[id] == Version(id, lines[id - 1].observed, key, lines[id - 1].status)
  {
    NoLines(lines, written, key);
    hide Ancestor, BuiltOn;
    forall a, b ensures BuiltOn(lines, a, b) <==> Ancestor(written, a, b) {
      SameChains(lines, written, a, b);
    }
  }

  /**
   * When read and write quorums overlap, a read at any offset, replication pending or not, returns exactly the accepted
   * writes of the key that no accepted write was built on, with what they said.
   */
  lemma StrongReadIsExact(c: Config, ops: seq<Op>, key: Key, offset: int)
    requires ValidConfig(c) && c.quorum.read + c.quorum.write > c.quorum.replicas
    ensures Shows(Lines(ops), key, ReadTask(c, After(c, ops), key, offset, c.quorum.read))
  {
    hide Shows, ReadTask, After, Written, Lines, ValidRing, ReadsExactly, Files;
    StrongReadShowsHeads(c, ops, key, offset);
    LinesAreFiled(c, ops);
    ShowsFromHeads(c, After(c, ops), Lines(ops), Written(c, ops), key, offset, c.quorum.read);
  }

  /** Once nothing is pending, a read of any size at any offset does the same. */
  lemma ReplicatedReadIsExact(c: Config, ops: seq<Op>, key: Key, offset: int, read: nat)
    requires ValidConfig(c) && 1 <= read <= c.quorum.replicas && After(c, ops).pending == []
    ensures Shows(Lines(ops), key, ReadTask(c, After(c, ops), key, offset, read))
  {
    hide Shows, ReadTask, After, Written, Lines, ValidRing, ReadsExactly, Files;
    ReplicatedReadShowsHeads(c, ops, key, offset, read);
    LinesAreFiled(c, ops);
    ShowsFromHeads(c, After(c, ops), Lines(ops), Written(c, ops), key, offset, read);
  }

  // ---------- a write that settles a conflict ----------

  lemma ChainRises(lines: seq<Line>, chain: seq<VersionId>)
    requires Chain(lines, chain) && |chain| >= 2
    requires forall i, p :: 0 <= i < |lines| && p in lines[i].observed ==> 1 <= p <= i
    ensures chain[0] < chain[1] <= |lines|
  {
    assert chain[0] in lines[chain[1] - 1].observed;
  }

  /** On top of all current writes of its key, a new one is the only current one. */
  lemma OnlyTheNewest(lines: seq<Line>, line: Line)
    requires forall i, p :: 0 <= i < |lines| && p in lines[i].observed ==> 1 <= p <= i
    requires forall p :: p in line.observed ==> 1 <= p <= |lines|
    requires forall id :: Current(lines, line.key, id) ==> id in line.observed
    ensures forall id :: Current(lines + [line], line.key, id) <==> id == |lines| + 1
  {
    var more, n := lines + [line], |lines| + 1;
    forall id: VersionId ensures Current(more, line.key, id) <==> id == n {
      if id in line.observed {
        NewestBuildsOn(lines, line, id);
      }
      if b :| BuiltOn(lines, id, b) {
        StillBuiltOn(lines, line, id, b);
      }
      if b :| id == n && BuiltOn(more, id, b) {
        BuiltOnRises(more, id, b);
      }
    }
  }

  lemma NewestBuildsOn(lines: seq<Line>, line: Line, id: VersionId)
    requires id in line.observed && 1 <= id <= |lines|
    ensures BuiltOn(lines + [line], id, |lines| + 1)
  {
    assert Chain(lines + [line], [id, |lines| + 1]);
  }

  lemma StillBuiltOn(lines: seq<Line>, line: Line, a: VersionId, b: VersionId)
    requires BuiltOn(lines, a, b)
    ensures BuiltOn(lines + [line], a, b)
  {
    var chain: seq<VersionId> :| Chain(lines, chain) && |chain| >= 2 && chain[0] == a && chain[|chain| - 1] == b;
    assert Chain(lines + [line], chain);
  }

  lemma BuiltOnRises(lines: seq<Line>, a: VersionId, b: VersionId)
    requires BuiltOn(lines, a, b) && forall i, p :: 0 <= i < |lines| && p in lines[i].observed ==> 1 <= p <= i
    ensures a < |lines|
  {
    var chain: seq<VersionId> :| Chain(lines, chain) && |chain| >= 2 && chain[0] == a && chain[|chain| - 1] == b;
    ChainRises(lines, chain);
  }

  /**
   * A write that observes all current writes of its key settles them: with overlapping quorums every read afterwards returns
   * just this write and its status.
   */
  lemma MergeSettles(c: Config, ops: seq<Op>, key: Key, status: string, observed: set<VersionId>, offset: int)
    requires ValidConfig(c) && c.quorum.read + c.quorum.write > c.quorum.replicas
    requires forall id :: id in observed <==> Current(Lines(ops), key, id)
    ensures var r := ReadTask(c, After(c, ops + [Write(key, status, observed)]), key, offset, c.quorum.read);
            var id := |Lines(ops)| + 1;
            r.Ok? && r.value.heads == map[id := Version(id, observed, key, status)]
  {
    hide Shows, ReadTask, After, Lines, Current, ValidRing;
    MergeIsAccepted(ops, key, status, observed);
    LinesLookBack(ops);
    OnlyTheNewest(Lines(ops), Line(key, status, observed));
    var more := ops + [Write(key, status, observed)];
    StrongReadIsExact(c, more, key, offset);
    ShowsOne(Lines(ops), Line(key, status, observed), ReadTask(c, After(c, more), key, offset, c.quorum.read));
  }

  lemma MergeIsAccepted(ops: seq<Op>, key: Key, status: string, observed: set<VersionId>)
    requires forall id :: id in observed <==> Current(Lines(ops), key, id)
    ensures Lines(ops + [Write(key, status, observed)]) == Lines(ops) + [Line(key, status, observed)]
    ensures forall p :: p in observed ==> 1 <= p <= |Lines(ops)|
  {
    var more := ops + [Write(key, status, observed)];
    assert more[..|ops|] == ops;
    hide BuiltOn;
    assert Knows(Lines(ops), key, observed);
  }

  lemma ShowsOne(lines: seq<Line>, line: Line, r: Result<ReadResult, StoreError>)
    requires Shows(lines + [line], line.key, r) && forall id :: Current(lines + [line], line.key, id) <==> id == |lines| + 1
    ensures r.Ok? && r.value.heads == map[|lines| + 1 := Version(|lines| + 1, line.observed, line.key, line.status)]
  {
    hide Current;
    assert (lines + [line])[|lines|].key == line.key;
  }

  /** A read names the owners of the key and contacts the asked number of them, from the offset on and round. */
  lemma ReadContacts(c: Config, s: State, key: Key, offset: int, read: nat, j: nat)
    requires ValidConfig(c) && j < read <= c.quorum.replicas && ReadTask(c, s, key, offset, read).Ok?
    ensures var r, n := ReadTask(c, s, key, offset, read).value, c.quorum.replicas;
            var at := offset % n + j;
            && r.owners == OwnersOf(c, key) && |r.contacted| == read
            && r.contacted[j] == r.owners[if at < n then at else at - n]
  {
    ContactedAt(c, key, offset, read, j);
    hide OwnersOf, Contacted, ValidRing, Visible;
  }
}
