/** Length-prefixed frames and what a byte stream of them says (lab 16). */
module Framing {
  import opened Options

  newtype Byte = b: int | 0 <= b < 256

  type Bytes = seq<Byte>

  const HEADER_SIZE := 4
  const LENGTH_LIMIT := 0x1_0000_0000

  datatype FrameError = FrameTooLarge | UnexpectedEof | BufferFull | LengthOverflow | InvalidArgument

  // ---------- one frame ----------

  /** Four bytes, the most significant first. */
  function Header(n: nat): (h: Bytes)
    requires n < LENGTH_LIMIT
    ensures |h| == HEADER_SIZE
  {
    [(n / 0x100_0000) as Byte, (n / 0x1_0000 % 0x100) as Byte, (n / 0x100 % 0x100) as Byte, (n % 0x100) as Byte]
  }

  function LengthOf(h: Bytes): (n: nat)
    requires |h| >= HEADER_SIZE
    ensures n < LENGTH_LIMIT
  {
    ((h[0] as nat * 0x100 + h[1] as nat) * 0x100 + h[2] as nat) * 0x100 + h[3] as nat
  }

  function ParseHeader(raw: Bytes, maximum: nat): Result<nat, FrameError> {
    if |raw| < HEADER_SIZE then Err(UnexpectedEof)
    else if LengthOf(raw) > maximum then Err(FrameTooLarge)
    else Ok(LengthOf(raw))
  }

  function EncodeFrame(payload: Bytes, maximum: nat): Result<Bytes, FrameError> {
    if |payload| > maximum then Err(FrameTooLarge)
    else if |payload| >= LENGTH_LIMIT then Err(LengthOverflow)
    else Ok(Header(|payload|) + payload)
  }

  function DecodeFrame(frame: Bytes, maximum: nat): Result<Bytes, FrameError> {
    match ParseHeader(frame, maximum)
    case Err(e) => Err(e)
    case Ok(n) => if |frame| - HEADER_SIZE != n then Err(UnexpectedEof) else Ok(frame[HEADER_SIZE..])
  }

  lemma HeaderRoundTrip(n: nat, rest: Bytes)
    requires n < LENGTH_LIMIT
    ensures LengthOf(Header(n) + rest) == n
  {
    var top, high, low := n / 0x100_0000, n / 0x1_0000, n / 0x100;
    assert high / 0x100 == top && low / 0x100 == high;
  }

  lemma HeaderIsCanonical(h: Bytes)
    requires |h| >= HEADER_SIZE
    ensures Header(LengthOf(h)) == h[..HEADER_SIZE]
  {
    var n := LengthOf(h);
    var three := (h[0] as nat * 0x100 + h[1] as nat) * 0x100 + h[2] as nat;
    var two := h[0] as nat * 0x100 + h[1] as nat;
    assert n / 0x100 == three && n % 0x100 == h[3] as nat;
    assert three / 0x100 == two && three % 0x100 == h[2] as nat;
    assert two / 0x100 == h[0] as nat && two % 0x100 == h[1] as nat;
    assert n / 0x1_0000 == two && n / 0x100_0000 == h[0] as nat;
  }

  /** Decoding and encoding undo each other: a frame stands for one payload, and a payload for one frame. */
  lemma FrameRoundTrip(payload: Bytes, frame: Bytes, maximum: nat)
    ensures EncodeFrame(payload, maximum) == Ok(frame) <==> DecodeFrame(frame, maximum) == Ok(payload)
  {
    if EncodeFrame(payload, maximum) == Ok(frame) {
      HeaderRoundTrip(|payload|, payload);
    }
    if DecodeFrame(frame, maximum) == Ok(payload) {
      HeaderIsCanonical(frame);
      assert frame == frame[..HEADER_SIZE] + frame[HEADER_SIZE..];
    }
  }

  // ---------- the byte order on the wire ----------

  /** The number a byte string denotes in base 256, its first byte the most significant. */
  ghost function BigEndian(bytes: Bytes): nat {
    if bytes == [] then 0 else BigEndian(bytes[..|bytes| - 1]) * 0x100 + bytes[|bytes| - 1] as nat
  }

  /** Dictionary order on byte strings of one length. */
  ghost predicate Precedes(a: Bytes, b: Bytes) {
    exists i :: 0 <= i < |a| && i < |b| && a[..i] == b[..i] && a[i] < b[i]
  }

  lemma BigEndianSnoc(front: Bytes, last: Byte)
    ensures BigEndian(front + [last]) == BigEndian(front) * 0x100 + last as nat
  {
    assert (front + [last])[..|front|] == front;
  }

  /** The length field says its length most significant byte first, written and read. */
  lemma HeaderIsBigEndian(n: nat, h: Bytes)
    ensures n < LENGTH_LIMIT ==> BigEndian(Header(n)) == n
    ensures |h| >= HEADER_SIZE ==> LengthOf(h) == BigEndian(h[..HEADER_SIZE])
  {
    if |h| >= HEADER_SIZE {
      LengthIsBigEndian(h);
    }
    if n < LENGTH_LIMIT {
      HeaderRoundTrip(n, []);
      assert Header(n) + [] == Header(n) == Header(n)[..HEADER_SIZE];
      LengthIsBigEndian(Header(n));
    }
  }

  lemma LengthIsBigEndian(h: Bytes)
    requires |h| >= HEADER_SIZE
    ensures LengthOf(h) == BigEndian(h[..HEADER_SIZE])
  {
    assert h[..4] == h[..3] + [h[3]] && h[..3] == h[..2] + [h[2]] && h[..2] == h[..1] + [h[1]] && h[..1] == [] + [h[0]];
    BigEndianSnoc(h[..3], h[3]);
    BigEndianSnoc(h[..2], h[2]);
    BigEndianSnoc(h[..1], h[1]);
    BigEndianSnoc([], h[0]);
  }

  /** Byte strings of one length denote numbers in dictionary order. */
  lemma {:induction false} DictionaryOrder(a: Bytes, b: Bytes)
    requires |a| == |b|
    ensures BigEndian(a) < BigEndian(b) <==> Precedes(a, b)
    ensures BigEndian(a) == BigEndian(b) <==> a == b
  {
    if a != [] {
      var n := |a| - 1;
      DictionaryOrder(a[..n], b[..n]);
      assert a == a[..n] + [a[n]] && b == b[..n] + [b[n]];
      assert forall i :: 0 <= i < n ==> a[..n][..i] == a[..i] && b[..n][..i] == b[..i];
      if Precedes(a[..n], b[..n]) {
        var i :| 0 <= i < n && a[..n][..i] == b[..n][..i] && a[..n][i] < b[..n][i];
        assert a[..i] == b[..i] && a[i] < b[i];
      }
      if Precedes(a, b) {
        var i :| 0 <= i < |a| && a[..i] == b[..i] && a[i] < b[i];
        if i < n {
          assert a[..n][..i] == b[..n][..i] && a[..n][i] < b[..n][i];
        }
      }
      if a[..n] == b[..n] && a[n] < b[n] {
        assert Precedes(a, b);
      }
    }
  }

  /** A shorter payload's header comes first in dictionary order; below 256 bytes only the last byte is used. */
  lemma HeadersInOrder(m: nat, n: nat)
    requires m < LENGTH_LIMIT && n < LENGTH_LIMIT
    ensures m < n <==> Precedes(Header(m), Header(n))
    ensures n < 0x100 ==> Header(n) == [0, 0, 0, n as Byte]
  {
    HeaderIsBigEndian(m, []);
    HeaderIsBigEndian(n, []);
    DictionaryOrder(Header(m), Header(n));
  }

  // ---------- a stream of frames ----------

  /** What a byte string says: its complete frames, the bytes after them, and whether those start with an oversized length. */
  datatype Parsed = Parsed(frames: seq<Bytes>, rest: Bytes, oversized: bool)

  predicate Oversized(s: Bytes, maximum: nat) {
    |s| >= HEADER_SIZE && LengthOf(s) > maximum
  }

  /** The bytes begin with a complete frame. */
  predicate HasFrame(s: Bytes, maximum: nat) {
    |s| >= HEADER_SIZE && LengthOf(s) <= maximum && |s| >= HEADER_SIZE + LengthOf(s)
  }

  function Parse(s: Bytes, maximum: nat): Parsed
    decreases |s|
  {
    if HasFrame(s, maximum) then
      var size := HEADER_SIZE + LengthOf(s);
      var later := Parse(s[size..], maximum);
      Parsed([s[HEADER_SIZE..size]] + later.frames, later.rest, later.oversized)
    else Parsed([], s, Oversized(s, maximum))
  }

  /** What reading a whole stream should return. */
  function ReadAll(s: Bytes, maximum: nat): Result<seq<Bytes>, FrameError> {
    var parsed := Parse(s, maximum);
    if parsed.oversized then Err(FrameTooLarge)
    else if parsed.rest != [] then Err(UnexpectedEof)
    else Ok(parsed.frames)
  }

  lemma {:induction false} ParseSettles(s: Bytes, maximum: nat)
    ensures !HasFrame(Parse(s, maximum).rest, maximum)
    ensures Parse(s, maximum).oversized == Oversized(Parse(s, maximum).rest, maximum)
    decreases |s|
  {
    if HasFrame(s, maximum) {
      ParseSettles(s[HEADER_SIZE + LengthOf(s)..], maximum);
    }
  }

  lemma LengthIsLocal(a: Bytes, b: Bytes)
    requires |a| >= HEADER_SIZE
    ensures LengthOf(a + b) == LengthOf(a)
  {
  }

  /** A complete frame stays the first frame, whatever follows. */
  lemma FirstFrameStays(a: Bytes, b: Bytes, maximum: nat)
    requires HasFrame(a, maximum)
    ensures HasFrame(a + b, maximum) && LengthOf(a + b) == LengthOf(a)
    ensures var size := HEADER_SIZE + LengthOf(a);
            (a + b)[size..] == a[size..] + b && (a + b)[HEADER_SIZE..size] == a[HEADER_SIZE..size]
  {
    LengthIsLocal(a, b);
  }

  lemma ParseStops(s: Bytes, maximum: nat)
    requires !HasFrame(s, maximum)
    ensures Parse(s, maximum) == Parsed([], s, Oversized(s, maximum))
  {
  }

  lemma ParseTakes(s: Bytes, maximum: nat)
    requires HasFrame(s, maximum)
    ensures var size := HEADER_SIZE + LengthOf(s);
            var later := Parse(s[size..], maximum);
            Parse(s, maximum) == Parsed([s[HEADER_SIZE..size]] + later.frames, later.rest, later.oversized)
  {
  }

  /** Parsing resumes where it stopped. */
  lemma {:induction false} ParseConcat(a: Bytes, b: Bytes, maximum: nat)
    ensures var first, whole := Parse(a, maximum), Parse(a + b, maximum);
            var second := Parse(first.rest + b, maximum);
            whole == Parsed(first.frames + second.frames, second.rest, second.oversized)
    decreases |a|
  {
    hide Parse, Oversized, LengthOf;
    if HasFrame(a, maximum) {
      var size := HEADER_SIZE + LengthOf(a);
      FirstFrameStays(a, b, maximum);
      ParseTakes(a, maximum);
      ParseTakes(a + b, maximum);
      ParseConcat(a[size..], b, maximum);
      var p, later := a[HEADER_SIZE..size], Parse(a[size..], maximum);
      var more := Parse(later.rest + b, maximum).frames;
      assert [p] + (later.frames + more) == ([p] + later.frames) + more;
    } else {
      ParseStops(a, maximum);
    }
  }

  /** No bytes mend an oversized length. */
  lemma OversizedStays(a: Bytes, b: Bytes, maximum: nat)
    requires Parse(a, maximum).oversized
    ensures Parse(a + b, maximum).oversized
  {
    ParseConcat(a, b, maximum);
    ParseSettles(a, maximum);
    LengthIsLocal(Parse(a, maximum).rest, b);
  }

  function EncodeAll(payloads: seq<Bytes>): Bytes
    requires forall i :: 0 <= i < |payloads| ==> |payloads[i]| < LENGTH_LIMIT
  {
    if payloads == [] then [] else Header(|payloads[0]|) + payloads[0] + EncodeAll(payloads[1..])
  }

  // ---------- what a stream reads as, and when it does not ----------

  /** The bytes are whole frames of these payloads, none above the maximum, and then the rest. */
  ghost predicate Splits(s: Bytes, payloads: seq<Bytes>, rest: Bytes, maximum: nat) {
    && (forall i :: 0 <= i < |payloads| ==> |payloads[i]| <= maximum && |payloads[i]| < LENGTH_LIMIT)
    && s == EncodeAll(payloads) + rest
  }

  /** A length above the maximum. */
  ghost predicate TooLong(rest: Bytes, maximum: nat) {
    |rest| >= HEADER_SIZE && BigEndian(rest[..HEADER_SIZE]) > maximum
  }

  /** A header or payload that has begun and is not complete. */
  ghost predicate MidFrame(rest: Bytes, maximum: nat) {
    && rest != []
    && (|rest| < HEADER_SIZE
        || (BigEndian(rest[..HEADER_SIZE]) <= maximum && |rest| - HEADER_SIZE < BigEndian(rest[..HEADER_SIZE])))
  }

  /** One frame at the front. */
  lemma FrameAhead(p: Bytes, later: Bytes, maximum: nat)
    requires |p| <= maximum && |p| < LENGTH_LIMIT
    ensures var s := Header(|p|) + p + later;
            && LengthOf(s) == |p| && HasFrame(s, maximum)
            && s[HEADER_SIZE..HEADER_SIZE + |p|] == p && s[HEADER_SIZE + |p|..] == later
  {
    HeaderRoundTrip(|p|, p + later);
    hide Header, LengthOf;
    assert Header(|p|) + p + later == Header(|p|) + (p + later);
  }

  lemma FrameInFront(s: Bytes, maximum: nat)
    requires HasFrame(s, maximum)
    ensures var size := HEADER_SIZE + LengthOf(s); s == Header(LengthOf(s)) + s[HEADER_SIZE..size] + s[size..]
  {
    HeaderIsCanonical(s);
    hide Header, LengthOf;
    var size := HEADER_SIZE + LengthOf(s);
    assert s == s[..HEADER_SIZE] + s[HEADER_SIZE..size] + s[size..];
  }

  lemma SplitsOneMore(p: Bytes, s: Bytes, payloads: seq<Bytes>, rest: Bytes, maximum: nat)
    requires |p| < LENGTH_LIMIT
    ensures Splits(Header(|p|) + p + s, [p] + payloads, rest, maximum) <==> |p| <= maximum && Splits(s, payloads, rest, maximum)
  {
    hide Header;
    var more := [p] + payloads;
    assert more[1..] == payloads;
    assert (forall i :: 0 <= i < |more| ==> |more[i]| <= maximum && |more[i]| < LENGTH_LIMIT)
           <==> |p| <= maximum && forall i :: 0 <= i < |payloads| ==> |payloads[i]| <= maximum && |payloads[i]| < LENGTH_LIMIT by {
      assert more[0] == p;
      assert forall i :: 0 <= i < |payloads| ==> payloads[i] == more[i + 1];
    }
    if forall i :: 0 <= i < |more| ==> |more[i]| < LENGTH_LIMIT {
      assert EncodeAll(more) + rest == Header(|p|) + p + (EncodeAll(payloads) + rest);
      assert (Header(|p|) + p + s)[HEADER_SIZE + |p|..] == s;
      assert (Header(|p|) + p + (EncodeAll(payloads) + rest))[HEADER_SIZE + |p|..] == EncodeAll(payloads) + rest;
    }
  }

  lemma {:induction false} ParseSplits(s: Bytes, maximum: nat)
    ensures Splits(s, Parse(s, maximum).frames, Parse(s, maximum).rest, maximum)
    decreases |s|
  {
    hide Splits, Header, LengthOf, Parse;
    if HasFrame(s, maximum) {
      var size := HEADER_SIZE + LengthOf(s);
      var later := Parse(s[size..], maximum);
      ParseTakes(s, maximum);
      ParseSplits(s[size..], maximum);
      FrameInFront(s, maximum);
      SplitsOneMore(s[HEADER_SIZE..size], s[size..], later.frames, later.rest, maximum);
    } else {
      ParseStops(s, maximum);
      NothingSplits(s, maximum);
    }
  }

  lemma NothingSplits(s: Bytes, maximum: nat)
    ensures forall rest :: Splits(s, [], rest, maximum) <==> rest == s
  {
    assert forall rest: Bytes :: [] + rest == rest;
  }

  lemma {:induction false} SplitsParse(s: Bytes, payloads: seq<Bytes>, rest: Bytes, maximum: nat)
    requires Splits(s, payloads, rest, maximum) && !HasFrame(rest, maximum)
    ensures Parse(s, maximum) == Parsed(payloads, rest, Oversized(rest, maximum))
    decreases |payloads|
  {
    if payloads == [] {
      NothingSplits(s, maximum);
      ParseStops(s, maximum);
    } else {
      var p, later := payloads[0], EncodeAll(payloads[1..]) + rest;
      assert s == Header(|p|) + p + later;
      assert [p] + payloads[1..] == payloads;
      hide Splits, Header, LengthOf, Parse, HasFrame;
      SplitsOneMore(p, later, payloads[1..], rest, maximum);
      SplitsParse(later, payloads[1..], rest, maximum);
      FrameAhead(p, later, maximum);
      ParseTakes(s, maximum);
    }
  }

  lemma ReadsAs(s: Bytes, payloads: seq<Bytes>, rest: Bytes, maximum: nat)
    requires Splits(s, payloads, rest, maximum)
    ensures rest == [] ==> ReadAll(s, maximum) == Ok(payloads)
    ensures TooLong(rest, maximum) ==> ReadAll(s, maximum) == Err(FrameTooLarge)
    ensures MidFrame(rest, maximum) ==> ReadAll(s, maximum) == Err(UnexpectedEof)
  {
    HeaderIsBigEndian(0, rest);
    if !HasFrame(rest, maximum) {
      SplitsParse(s, payloads, rest, maximum);
    }
  }

  /**
   * Reading a stream gives the payloads whose encodings it is; refuses it as too large exactly if a frame's length exceeds
   * the maximum, after whole frames; and as cut off exactly if it ends within a frame, after whole frames.
   */
  lemma ReadAllExactly(s: Bytes, maximum: nat, payloads: seq<Bytes>)
    ensures ReadAll(s, maximum) == Ok(payloads) <==> Splits(s, payloads, [], maximum)
    ensures ReadAll(s, maximum) == Err(FrameTooLarge)
            <==> exists before, rest :: Splits(s, before, rest, maximum) && TooLong(rest, maximum)
    ensures ReadAll(s, maximum) == Err(UnexpectedEof)
            <==> exists before, rest :: Splits(s, before, rest, maximum) && MidFrame(rest, maximum)
  {
    var parsed := Parse(s, maximum);
    ParseSplits(s, maximum);
    ParseSettles(s, maximum);
    HeaderIsBigEndian(0, parsed.rest);
    hide Parse, Splits, TooLong, LengthOf, BigEndian;
    assert parsed.oversized ==> TooLong(parsed.rest, maximum) by { LongRest(parsed.rest, maximum); }
    if Splits(s, payloads, [], maximum) {
      ReadsAs(s, payloads, [], maximum);
    }
    forall before, rest | Splits(s, before, rest, maximum) && (TooLong(rest, maximum) || MidFrame(rest, maximum))
      ensures ReadAll(s, maximum) == if TooLong(rest, maximum) then Err(FrameTooLarge) else Err(UnexpectedEof)
    {
      ReadsAs(s, before, rest, maximum);
    }
  }

  /**
   * One frame: a payload is framed unless it exceeds the maximum or what four bytes can say, in this order; a frame is
   * refused as too large exactly when its length field exceeds the maximum, and as cut off exactly when it has no whole
   * length field or its payload is not as long as the field says.
   */
  lemma FrameErrorsExactly(payload: Bytes, frame: Bytes, maximum: nat)
    ensures EncodeFrame(payload, maximum).Ok? <==> |payload| <= maximum && |payload| < LENGTH_LIMIT
    ensures EncodeFrame(payload, maximum) == Err(LengthOverflow) <==> LENGTH_LIMIT <= |payload| <= maximum
    ensures EncodeFrame(payload, maximum) == Err(FrameTooLarge) <==> |payload| > maximum
    ensures DecodeFrame(frame, maximum) == Err(FrameTooLarge) <==> TooLong(frame, maximum)
    ensures DecodeFrame(frame, maximum) == Err(UnexpectedEof)
            <==> !TooLong(frame, maximum)
                 && (|frame| < HEADER_SIZE || |frame| - HEADER_SIZE != BigEndian(frame[..HEADER_SIZE]))
  {
    HeaderIsBigEndian(0, frame);
  }

  /** Reading what was written, however many frames it is. */
  lemma StreamRoundTrip(payloads: seq<Bytes>, maximum: nat)
    requires maximum < LENGTH_LIMIT && forall i :: 0 <= i < |payloads| ==> |payloads[i]| <= maximum
    ensures ReadAll(EncodeAll(payloads), maximum) == Ok(payloads)
  {
    assert EncodeAll(payloads) == EncodeAll(payloads) + [];
    ReadAllExactly(EncodeAll(payloads), maximum, payloads);
  }

  /** Only the encoding of the payloads reads back as those payloads. */
  lemma StreamIsCanonical(s: Bytes, maximum: nat)
    requires ReadAll(s, maximum).Ok?
    ensures forall i :: 0 <= i < |ReadAll(s, maximum).value| ==> |ReadAll(s, maximum).value[i]| <= maximum
    ensures forall i :: 0 <= i < |ReadAll(s, maximum).value| ==> |ReadAll(s, maximum).value[i]| < LENGTH_LIMIT
    ensures EncodeAll(ReadAll(s, maximum).value) == s
  {
    var payloads := ReadAll(s, maximum).value;
    ReadAllExactly(s, maximum, payloads);
    assert EncodeAll(payloads) == EncodeAll(payloads) + [];
  }

  lemma LongRest(rest: Bytes, maximum: nat)
    ensures Oversized(rest, maximum) <==> TooLong(rest, maximum)
  {
    HeaderIsBigEndian(0, rest);
  }

  function Concat(chunks: seq<Bytes>): Bytes {
    if chunks == [] then [] else chunks[0] + Concat(chunks[1..])
  }
}
