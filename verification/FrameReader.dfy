/** The incremental frame reader of lab 16: however a stream is cut into chunks, reading it gives what the whole stream says. */
module FrameReader {
  import opened Options
  import opened Framing
  import opened RingBuffer

  /** Without a complete frame the buffer is never full, unless the frame's length is oversized. */
  lemma FullIsOversized(s: Bytes, maximum: nat)
    requires !HasFrame(s, maximum) && |s| >= HEADER_SIZE + maximum
    ensures Oversized(s, maximum) && Parse(s, maximum) == Parsed([], s, true)
  {
  }

  /** The whole parse is the frames found so far, and then what is still ahead. */
  ghost predicate Remains(whole: Parsed, frames: seq<Bytes>, s: Bytes, maximum: nat) {
    var left := Parse(s, maximum);
    whole == Parsed(frames + left.frames, left.rest, left.oversized)
  }

  lemma NothingFound(s: Bytes, maximum: nat)
    ensures Remains(Parse(s, maximum), [], s, maximum)
  {
  }

  lemma TakeFrame(whole: Parsed, frames: seq<Bytes>, s: Bytes, maximum: nat)
    requires Remains(whole, frames, s, maximum) && HasFrame(s, maximum)
    ensures |s| >= HEADER_SIZE + LengthOf(s)
    ensures Remains(whole, frames + [s[HEADER_SIZE..][..LengthOf(s)]], s[HEADER_SIZE..][LengthOf(s)..], maximum)
  {
    var size := HEADER_SIZE + LengthOf(s);
    assert s[HEADER_SIZE..][LengthOf(s)..] == s[size..];
    assert s[HEADER_SIZE..][..LengthOf(s)] == s[HEADER_SIZE..size];
  }

  lemma NoFrameLeft(whole: Parsed, frames: seq<Bytes>, s: Bytes, maximum: nat)
    requires Remains(whole, frames, s, maximum) && !HasFrame(s, maximum)
    ensures whole == Parsed(frames, s, Oversized(s, maximum))
  {
    ParseStops(s, maximum);
  }

  /** Draining part of a stream leaves the rest of it ahead. */
  lemma DrainedPart(whole: Parsed, frames: seq<Bytes>, a: Bytes, b: Bytes, maximum: nat)
    requires Remains(whole, frames, a + b, maximum)
    ensures var part := Parse(a, maximum);
            && (part.oversized ==> whole.oversized)
            && Remains(whole, frames + part.frames, part.rest + b, maximum)
  {
    hide Parse;
    ParseConcat(a, b, maximum);
    if Parse(a, maximum).oversized {
      OversizedStays(a, b, maximum);
    }
    var part, left := Parse(a, maximum), Parse(Parse(a, maximum).rest + b, maximum);
    assert frames + (part.frames + left.frames) == (frames + part.frames) + left.frames;
  }

  lemma HeaderDecides(s: Bytes, maximum: nat)
    requires |s| >= HEADER_SIZE
    ensures ParseHeader(s[0..0 + HEADER_SIZE], maximum) == if Oversized(s, maximum) then Err(FrameTooLarge) else Ok(LengthOf(s))
    ensures HasFrame(s, maximum) <==> !Oversized(s, maximum) && |s| >= HEADER_SIZE + LengthOf(s)
  {
    assert s == s[0..0 + HEADER_SIZE] + s[HEADER_SIZE..];
    LengthIsLocal(s[0..0 + HEADER_SIZE], s[HEADER_SIZE..]);
  }

  lemma ShortIsNeither(s: Bytes, maximum: nat)
    requires |s| < HEADER_SIZE
    ensures !HasFrame(s, maximum) && !Oversized(s, maximum)
  {
  }

  class IncrementalFrameReader {
    const maximum: nat
    const buffer: BoundedRingBuffer

    ghost predicate Valid()
      reads this, buffer, buffer.storage
    {
      && buffer.Valid()
      && buffer.storage.Length >= HEADER_SIZE + maximum
      && !HasFrame(buffer.Contents(), maximum)
    }

    constructor (maximum: nat, buffer: BoundedRingBuffer)
      requires buffer.Valid() && buffer.Contents() == [] && buffer.storage.Length >= HEADER_SIZE + maximum
      ensures Valid() && this.buffer == buffer && this.maximum == maximum
    {
      this.maximum := maximum;
      this.buffer := buffer;
    }

    /** The constructor's choice of a capacity, zero standing for none given, and its check. */
    static method Create(maximum: nat, bufferCapacity: nat) returns (r: Result<IncrementalFrameReader, FrameError>)
      ensures r.Ok? <==> bufferCapacity == 0 || bufferCapacity >= HEADER_SIZE + maximum
      ensures r.Ok? ==> fresh(r.value) && fresh(r.value.buffer) && fresh(r.value.buffer.storage)
                        && r.value.Valid() && r.value.maximum == maximum && r.value.buffer.Contents() == []
                        && r.value.buffer.storage.Length == if bufferCapacity == 0 then HEADER_SIZE + maximum else bufferCapacity
      ensures r.Err? ==> r.error == InvalidArgument
    {
      var minimumCapacity := HEADER_SIZE + maximum;
      var actualCapacity := if bufferCapacity == 0 then minimumCapacity else bufferCapacity;
      if actualCapacity < minimumCapacity {
        return Err(InvalidArgument);
      }
      var made := BoundedRingBuffer.Create(actualCapacity);
      var reader := new IncrementalFrameReader(maximum, made.value);
      return Ok(reader);
    }

    /** Takes every complete frame out of the buffer; an oversized length stays at its front. */
    method DrainFrames() returns (r: Result<seq<Bytes>, FrameError>)
      requires buffer.Valid() && buffer.storage.Length >= HEADER_SIZE + maximum
      modifies buffer, buffer.storage
      ensures Valid()
      ensures var parsed := Parse(old(buffer.Contents()), maximum);
              && buffer.Contents() == parsed.rest
              && r == if parsed.oversized then Err(FrameTooLarge) else Ok(parsed.frames)
    {
      hide Parse, ParseHeader, HasFrame, Oversized, LengthOf, Remains, Unread, Slot, Concat, ReadAll;
      var frames: seq<Bytes> := [];
      ghost var whole := Parse(buffer.Contents(), maximum);
      NothingFound(buffer.Contents(), maximum);
      while buffer.size >= HEADER_SIZE
        invariant buffer.Valid() && buffer.storage.Length >= HEADER_SIZE + maximum
        invariant Remains(whole, frames, buffer.Contents(), maximum)
        decreases buffer.size
      {
        ghost var s := buffer.Contents();
        var raw := buffer.Peek(HEADER_SIZE, 0);
        HeaderDecides(s, maximum);
        var header := ParseHeader(raw.value, maximum);
        if header.Err? {
          NoFrameLeft(whole, frames, s, maximum);
          return Err(header.error);
        }
        if buffer.size < HEADER_SIZE + header.value {
          NoFrameLeft(whole, frames, s, maximum);
          return Ok(frames);
        }
        TakeFrame(whole, frames, s, maximum);
        var head := buffer.Read(HEADER_SIZE);
        var payload := buffer.Read(header.value);
        frames := frames + [payload.value];
      }
      ShortIsNeither(buffer.Contents(), maximum);
      NoFrameLeft(whole, frames, buffer.Contents(), maximum);
      return Ok(frames);
    }

    method Feed(chunk: Bytes) returns (r: Result<seq<Bytes>, FrameError>)
      requires Valid()
      modifies buffer, buffer.storage
      ensures Valid()
      ensures var parsed := Parse(old(buffer.Contents()) + chunk, maximum);
              if chunk != [] && parsed.oversized then r == Err(FrameTooLarge) && Oversized(buffer.Contents(), maximum)
              else r == Ok(parsed.frames) && buffer.Contents() == parsed.rest
    {
      hide Parse, ParseHeader, HasFrame, Oversized, LengthOf, Remains, Unread, Slot, Concat, ReadAll;
      var frames: seq<Bytes> := [];
      var remaining := chunk;
      ghost var whole := Parse(buffer.Contents() + chunk, maximum);
      NothingFound(buffer.Contents() + chunk, maximum);
      while remaining != []
        invariant buffer.Valid() && buffer.storage.Length >= HEADER_SIZE + maximum && !HasFrame(buffer.Contents(), maximum)
        invariant Remains(whole, frames, buffer.Contents() + remaining, maximum)
        invariant |remaining| <= |chunk| && (|remaining| < |chunk| ==> !Oversized(buffer.Contents(), maximum))
        decreases |remaining|
      {
        ghost var s := buffer.Contents();
        var free := buffer.Free();
        if free == 0 {
          FullIsOversized(s, maximum);
          DrainedPart(whole, frames, s, remaining, maximum);
          var unblocked := DrainFrames();
          if unblocked.Err? {
            return unblocked;
          }
          // Nothing to drain: here the source would raise its buffer-full error.
          assert false;
        }
        var accepted := if |remaining| < free then |remaining| else free;
        assert s + remaining == (s + remaining[..accepted]) + remaining[accepted..];
        DrainedPart(whole, frames, s + remaining[..accepted], remaining[accepted..], maximum);
        ParseSettles(s + remaining[..accepted], maximum);
        var written := buffer.Write(remaining[..accepted]);
        remaining := remaining[accepted..];
        var drained := DrainFrames();
        if drained.Err? {
          return drained;
        }
        frames := frames + drained.value;
      }
      assert buffer.Contents() + remaining == buffer.Contents();
      NoFrameLeft(whole, frames, buffer.Contents(), maximum);
      return Ok(frames);
    }

    method Finish() returns (r: Result<seq<Bytes>, FrameError>)
      requires Valid()
      modifies buffer, buffer.storage
      ensures Valid()
      ensures buffer.Contents() == old(buffer.Contents())
      ensures r == ReadAll(old(buffer.Contents()), maximum)
    {
      r := DrainFrames();
      if r.Ok? && buffer.size != 0 {
        return Err(UnexpectedEof);
      }
    }

    /** The result depends only on the bytes, not on how they are cut into chunks. */
    method ReadChunks(chunks: seq<Bytes>) returns (r: Result<seq<Bytes>, FrameError>)
      requires Valid()
      modifies buffer, buffer.storage
      ensures Valid()
      ensures r == ReadAll(old(buffer.Contents()) + Concat(chunks), maximum)
    {
      var frames: seq<Bytes> := [];
      ghost var start := buffer.Contents();
      ghost var whole := Parse(start + Concat(chunks), maximum);
      hide Parse, ParseHeader, HasFrame, Oversized, LengthOf, Remains, Unread, Slot, Concat, ReadAll;
      NothingFound(start + Concat(chunks), maximum);
      var i := 0;
      assert chunks[0..] == chunks;
      while i < |chunks|
        invariant i <= |chunks| && Valid()
        invariant Remains(whole, frames, buffer.Contents() + Concat(chunks[i..]), maximum)
      {
        ghost var s, later := buffer.Contents(), Concat(chunks[i + 1..]);
        ConcatNext(chunks, i);
        assert s + (chunks[i] + later) == (s + chunks[i]) + later;
        DrainedPart(whole, frames, s + chunks[i], later, maximum);
        var fed := Feed(chunks[i]);
        if fed.Err? {
          OversizedReads(start + Concat(chunks), maximum);
          return fed;
        }
        frames := frames + fed.value;
        i := i + 1;
      }
      ConcatNone(chunks);
      ghost var s := buffer.Contents();
      assert s + Concat(chunks[i..]) == s;
      RestReads(whole, start + Concat(chunks), frames, s, maximum);
      var rest := Finish();
      if rest.Err? {
        return rest;
      }
      return Ok(frames + rest.value);
    }
  }

  lemma ConcatNext(chunks: seq<Bytes>, i: nat)
    requires i < |chunks|
    ensures Concat(chunks[i..]) == chunks[i] + Concat(chunks[i + 1..])
  {
    assert chunks[i..][1..] == chunks[i + 1..];
  }

  lemma ConcatNone(chunks: seq<Bytes>)
    ensures Concat(chunks[|chunks|..]) == []
  {
  }

  lemma OversizedReads(s: Bytes, maximum: nat)
    requires Parse(s, maximum).oversized
    ensures ReadAll(s, maximum) == Err(FrameTooLarge)
  {
  }

  lemma RestReads(whole: Parsed, all: Bytes, frames: seq<Bytes>, s: Bytes, maximum: nat)
    requires whole == Parse(all, maximum) && Remains(whole, frames, s, maximum)
    ensures var rest := ReadAll(s, maximum);
            ReadAll(all, maximum) == if rest.Ok? then Ok(frames + rest.value) else rest
  {
    hide Parse;
  }

  /** Any payloads, encoded one after another and cut anywhere, are read back exactly. */
  method ChunkedRoundTrip(payloads: seq<Bytes>, chunks: seq<Bytes>, maximum: nat) returns (r: Result<seq<Bytes>, FrameError>)
    requires maximum < LENGTH_LIMIT && forall i :: 0 <= i < |payloads| ==> |payloads[i]| <= maximum
    requires Concat(chunks) == EncodeAll(payloads)
    ensures r == Ok(payloads)
  {
    var reader := IncrementalFrameReader.Create(maximum, 0);
    StreamRoundTrip(payloads, maximum);
    assert [] + Concat(chunks) == Concat(chunks);
    r := reader.value.ReadChunks(chunks);
  }
}
