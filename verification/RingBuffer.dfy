/** The bounded ring buffer of lab 16: a fixed array refining a first-in-first-out string of bytes. */
module RingBuffer {
  import opened Options
  import opened Framing

  /** The array index of the `i`-th unread byte. */
  function Slot(head: nat, i: nat, capacity: nat): nat
    requires capacity > 0
  {
    (head + i) % capacity
  }

  lemma SlotWraps(head: nat, i: nat, capacity: nat)
    requires head < capacity && i <= capacity
    ensures Slot(head, i, capacity) == if head + i < capacity then head + i else head + i - capacity
  {
  }

  lemma SlotsAdd(head: nat, i: nat, j: nat, capacity: nat)
    requires head < capacity && i + j <= capacity
    ensures Slot(Slot(head, i, capacity), j, capacity) == Slot(head, i + j, capacity)
  {
    SlotWraps(head, i, capacity);
    SlotWraps(Slot(head, i, capacity), j, capacity);
    SlotWraps(head, i + j, capacity);
  }

  /** The unread bytes of a storage. */
  function Unread(storage: Bytes, head: nat, size: nat): (s: Bytes)
    requires head < |storage| && size <= |storage|
    ensures |s| == size
  {
    seq(size, i requires 0 <= i < size => storage[Slot(head, i, |storage|)])
  }

  /** Reading at most two straight pieces reads a stretch of the unread bytes. */
  lemma TwoPieces(storage: Bytes, head: nat, size: nat, offset: nat, count: nat)
    requires head < |storage| && offset + count <= size <= |storage|
    ensures var start := Slot(head, offset, |storage|);
            var first := if count < |storage| - start then count else |storage| - start;
            && start + first <= |storage| && count - first <= |storage|
            && storage[start..start + first] + storage[..count - first] == Unread(storage, head, size)[offset..offset + count]
  {
    var start := Slot(head, offset, |storage|);
    var first := if count < |storage| - start then count else |storage| - start;
    var pieces, stretch := storage[start..start + first] + storage[..count - first], Unread(storage, head, size)[offset..offset + count];
    forall k | 0 <= k < count ensures pieces[k] == stretch[k] {
      SlotsAdd(head, offset, k, |storage|);
      SlotWraps(start, k, |storage|);
    }
  }

  /** Writing at most two straight pieces after the unread bytes appends to them. */
  lemma AppendTwoPieces(before: Bytes, after: Bytes, head: nat, size: nat, raw: Bytes)
    requires |before| == |after| && head < |before| && size + |raw| <= |before|
    requires var tail := Slot(head, size, |before|);
             var first := if |raw| < |before| - tail then |raw| else |before| - tail;
             && (forall k :: 0 <= k < first ==> after[tail + k] == raw[k])
             && (forall k :: first <= k < |raw| ==> after[k - first] == raw[k])
             && forall p :: 0 <= p < |before| && !(tail <= p < tail + first) && !(p < |raw| - first) ==> after[p] == before[p]
    ensures Unread(after, head, size + |raw|) == Unread(before, head, size) + raw
  {
    var capacity := |before|;
    var tail := Slot(head, size, capacity);
    SlotWraps(head, size, capacity);
    forall i | 0 <= i < size + |raw|
      ensures Unread(after, head, size + |raw|)[i] == (Unread(before, head, size) + raw)[i]
    {
      SlotWraps(head, i, capacity);
      if i >= size {
        SlotsAdd(head, size, i - size, capacity);
        SlotWraps(tail, i - size, capacity);
      }
    }
  }

  lemma DropFront(storage: Bytes, head: nat, size: nat, count: nat)
    requires head < |storage| && count <= size <= |storage|
    ensures Slot(head, count, |storage|) < |storage|
    ensures Unread(storage, Slot(head, count, |storage|), size - count) == Unread(storage, head, size)[count..]
  {
    var later, rest := Unread(storage, Slot(head, count, |storage|), size - count), Unread(storage, head, size)[count..];
    forall i | 0 <= i < size - count ensures later[i] == rest[i] {
      SlotsAdd(head, count, i, |storage|);
    }
  }

  class BoundedRingBuffer {
    const storage: array<Byte>
    var head: nat
    var size: nat

    ghost predicate Valid()
      reads this
    {
      head < storage.Length && size <= storage.Length
    }

    /** The bytes written and not yet read, oldest first. */
    ghost function Contents(): (s: Bytes)
      reads this, storage
      requires Valid()
      ensures |s| == size
    {
      Unread(storage[..], head, size)
    }

    constructor (capacity: nat)
      requires capacity >= 1
      ensures Valid() && fresh(storage) && storage.Length == capacity && Contents() == []
    {
      storage := new Byte[capacity](i => 0);
      head, size := 0, 0;
    }

    /** The constructor's check. */
    static method Create(capacity: int) returns (r: Result<BoundedRingBuffer, FrameError>)
      ensures r.Ok? <==> capacity >= 1
      ensures r.Ok? ==> fresh(r.value) && fresh(r.value.storage) && r.value.Valid()
                        && r.value.storage.Length == capacity && r.value.Contents() == []
      ensures r.Err? ==> r.error == InvalidArgument
    {
      if capacity < 1 {
        return Err(InvalidArgument);
      }
      var buffer := new BoundedRingBuffer(capacity);
      return Ok(buffer);
    }

    method Free() returns (n: nat)
      requires Valid()
      ensures n == storage.Length - |Contents()|
    {
      n := storage.Length - size;
    }

    method Write(raw: Bytes) returns (r: Option<FrameError>)
      requires Valid()
      modifies this`size, storage
      ensures Valid()
      ensures r == if |old(Contents())| + |raw| > storage.Length then Some(BufferFull) else None
      ensures Contents() == if r == None then old(Contents()) + raw else old(Contents())
    {
      if |raw| > storage.Length - size {
        return Some(BufferFull);
      }
      ghost var before := storage[..];
      var tail := (head + size) % storage.Length;
      var first := if |raw| < storage.Length - tail then |raw| else storage.Length - tail;
      SlotWraps(head, size, storage.Length);
      forall k | 0 <= k < first {
        storage[tail + k] := raw[k];
      }
      assert forall p :: 0 <= p < storage.Length && !(tail <= p < tail + first) ==> storage[p] == before[p];
      assert forall k :: 0 <= k < first ==> storage[tail + k] == raw[k];
      ghost var between := storage[..];
      forall k | 0 <= k < |raw| - first {
        storage[k] := raw[first + k];
      }
      assert forall k :: 0 <= k < |raw| - first ==> storage[k] == raw[first + k];
      assert forall p :: |raw| - first <= p < storage.Length ==> storage[p] == between[p];
      AppendTwoPieces(before, storage[..], head, size, raw);
      size := size + |raw|;
      return None;
    }

    method Peek(count: int, offset: int) returns (r: Result<Bytes, FrameError>)
      requires Valid()
      ensures r == if count < 0 || offset < 0 then Err(InvalidArgument)
                   else if offset + count > |Contents()| then Err(UnexpectedEof)
                   else Ok(Contents()[offset..offset + count])
    {
      if count < 0 || offset < 0 {
        return Err(InvalidArgument);
      }
      if offset + count > size {
        return Err(UnexpectedEof);
      }
      var start := (head + offset) % storage.Length;
      var first := if count < storage.Length - start then count else storage.Length - start;
      TwoPieces(storage[..], head, size, offset, count);
      assert storage[..][start..start + first] == storage[start..start + first];
      assert storage[..][..count - first] == storage[..count - first];
      return Ok(storage[start..start + first] + storage[..count - first]);
    }

    method Read(count: int) returns (r: Result<Bytes, FrameError>)
      requires Valid()
      modifies this
      ensures Valid()
      ensures r == if count < 0 then Err(InvalidArgument)
                   else if count > |old(Contents())| then Err(UnexpectedEof)
                   else Ok(old(Contents())[..count])
      ensures Contents() == if r.Ok? then old(Contents())[count..] else old(Contents())
    {
      r := Peek(count, 0);
      if r.Err? {
        return;
      }
      DropFront(storage[..], head, size, count);
      head := (head + count) % storage.Length;
      size := size - count;
      if size == 0 {
        head := 0;
      }
    }
  }
}
