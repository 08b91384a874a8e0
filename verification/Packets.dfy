/** MySQL packets: a payload is split into chunks of at most 2^24-1 bytes, each
    behind a 3-byte length and a 1-byte sequence number.  The writer puts every
    later header in place, over bytes it has already sent; the reader joins the
    chunks again. */
module Packets {
  import opened Bytes

  const MAX_PACKET_SIZE: nat := 0xFF_FFFF

  function Next(sequence: byte): byte { (sequence + 1) % 256 }

  function Header(length: nat, sequence: byte): (r: seq<byte>)
    ensures |r| == 4
  {
    LittleEndian(length, 3) + [sequence]
  }

  /** What goes over the wire for a payload. */
  function Framed(payload: seq<byte>, sequence: byte): seq<byte>
    decreases |payload|
  {
    if |payload| >= MAX_PACKET_SIZE then
      Header(MAX_PACKET_SIZE, sequence) + payload[..MAX_PACKET_SIZE]
      + Framed(payload[MAX_PACKET_SIZE..], Next(sequence))
    else
      Header(|payload|, sequence) + payload
  }

  /** The sequence number after the packets of a payload of `n` bytes. */
  function SequenceAfter(n: nat, sequence: byte): byte {
    (sequence + n / MAX_PACKET_SIZE + 1) % 256
  }

  datatype Joined = Packet(payload: seq<byte>, rest: seq<byte>, sequence: byte) | OutOfSync(ahead: bool) | BadConn

  datatype Taken = Chunk(data: seq<byte>, rest: seq<byte>) | WrongSequence(ahead: bool) | NoChunk

  /** The next chunk of a stream: empty packets are refused. */
  function TakeChunk(stream: seq<byte>, sequence: byte): (r: Taken)
    ensures r.Chunk? ==> 1 <= |r.data| && |r.rest| < |stream|
  {
    if |stream| < 4 then NoChunk
    else
      var length := FromLittleEndian(stream[..3]);
      if length < 1 then NoChunk
      else if stream[3] != sequence then WrongSequence(stream[3] > sequence)
      else if |stream| < 4 + length then NoChunk
      else Chunk(stream[4..4 + length], stream[4 + length..])
  }

  /** What the reader makes of a stream; `before` are the chunks joined so far. */
  function Join(stream: seq<byte>, sequence: byte, before: seq<byte>): Joined
    decreases |stream|
  {
    match TakeChunk(stream, sequence)
    case NoChunk => BadConn
    case WrongSequence(ahead) => OutOfSync(ahead)
    case Chunk(data, rest) =>
      if |data| < MAX_PACKET_SIZE then Packet(before + data, rest, Next(sequence))
      else Join(rest, Next(sequence), before + data)
  }

  // ---------------------------------------------------------------- round trip

  lemma {:induction false} HeaderLength(length: nat, sequence: byte, tail: seq<byte>)
    requires length <= MAX_PACKET_SIZE
    ensures FromLittleEndian((Header(length, sequence) + tail)[..3]) == length
    ensures (Header(length, sequence) + tail)[3] == sequence
    ensures (Header(length, sequence) + tail)[4..] == tail
  {
    assert Power256(3) == 0x100_0000;
    LittleEndianRoundTrip(length, 3);
    assert (Header(length, sequence) + tail)[..3] == LittleEndian(length, 3);
  }

  lemma {:induction false} LongFrame(payload: seq<byte>, sequence: byte, rest: seq<byte>)
    requires |payload| >= MAX_PACKET_SIZE
    ensures Framed(payload, sequence) + rest
      == Header(MAX_PACKET_SIZE, sequence)
         + (payload[..MAX_PACKET_SIZE] + (Framed(payload[MAX_PACKET_SIZE..], Next(sequence)) + rest))
  {}

  lemma {:induction false} ShortFrame(payload: seq<byte>, sequence: byte, rest: seq<byte>)
    requires |payload| < MAX_PACKET_SIZE
    ensures Framed(payload, sequence) + rest == Header(|payload|, sequence) + (payload + rest)
  {}

  /** What reading back a payload is expected to give, behind the chunks `before`. */
  function ReadBack(payload: seq<byte>, sequence: byte, rest: seq<byte>, before: seq<byte>): Joined {
    if |payload| % MAX_PACKET_SIZE == 0 then BadConn
    else Packet(before + payload, rest, SequenceAfter(|payload|, sequence))
  }

  lemma {:induction false} ReadBackStep(payload: seq<byte>, sequence: byte, rest: seq<byte>, before: seq<byte>)
    requires |payload| >= MAX_PACKET_SIZE
    ensures ReadBack(payload[MAX_PACKET_SIZE..], Next(sequence), rest, before + payload[..MAX_PACKET_SIZE])
      == ReadBack(payload, sequence, rest, before)
  {
    SequenceStep(|payload|, sequence);
    assert before + payload[..MAX_PACKET_SIZE] + payload[MAX_PACKET_SIZE..] == before + payload;
  }

  lemma {:induction false} EmptyFrameRefused(sequence: byte, rest: seq<byte>, before: seq<byte>)
    ensures Join(Header(0, sequence) + ([] + rest), sequence, before) == BadConn
  {
    HeaderLength(0, sequence, [] + rest);
  }

  /** Reading what was written returns the payload and stops behind it, except
      when the length is a multiple of 2^24-1: then the writer ends with an empty
      packet, which the reader refuses. */
  lemma {:induction false} RoundTrip(payload: seq<byte>, sequence: byte, rest: seq<byte>, before: seq<byte>)
    ensures Join(Framed(payload, sequence) + rest, sequence, before) ==
      if |payload| % 0xFF_FFFF == 0 then BadConn
      else Packet(before + payload, rest, (sequence + |payload| / 0xFF_FFFF + 1) % 256)
  {
    ReadsBack(Framed(payload, sequence) + rest, payload, sequence, rest, before);
  }

  lemma {:induction false} ReadsBack(stream: seq<byte>, payload: seq<byte>, sequence: byte, rest: seq<byte>, before: seq<byte>)
    requires stream == Framed(payload, sequence) + rest
    ensures Join(stream, sequence, before) == ReadBack(payload, sequence, rest, before)
    decreases |payload|
  {
    if |payload| >= MAX_PACKET_SIZE {
      var chunk, more := payload[..MAX_PACKET_SIZE], payload[MAX_PACKET_SIZE..];
      var tail := Framed(more, Next(sequence)) + rest;
      LongFrame(payload, sequence, rest);
      JoinChunk(MAX_PACKET_SIZE, sequence, chunk, tail, before);
      ReadsBack(tail, more, Next(sequence), rest, before + chunk);
      ReadBackStep(payload, sequence, rest, before);
    } else {
      ShortFrame(payload, sequence, rest);
      if payload == [] {
        EmptyFrameRefused(sequence, rest, before);
      } else {
        JoinChunk(|payload|, sequence, payload, rest, before);
      }
    }
  }

  lemma SequenceStep(n: nat, sequence: byte)
    requires n >= MAX_PACKET_SIZE
    ensures SequenceAfter(n - MAX_PACKET_SIZE, Next(sequence)) == SequenceAfter(n, sequence)
    ensures (n - MAX_PACKET_SIZE) % MAX_PACKET_SIZE == n % MAX_PACKET_SIZE
  {
    assert (n - MAX_PACKET_SIZE) / MAX_PACKET_SIZE == n / MAX_PACKET_SIZE - 1;
  }

  /** The reader's step over one chunk. */
  lemma {:induction false} JoinChunk(length: nat, sequence: byte, chunk: seq<byte>, tail: seq<byte>, before: seq<byte>)
    requires 1 <= length == |chunk| <= MAX_PACKET_SIZE
    ensures
      var stream := Header(length, sequence) + (chunk + tail);
      Join(stream, sequence, before) ==
        if length < MAX_PACKET_SIZE then Packet(before + chunk, tail, Next(sequence))
        else Join(tail, Next(sequence), before + chunk)
  {
    var stream := Header(length, sequence) + (chunk + tail);
    HeaderLength(length, sequence, chunk + tail);
    assert stream[4..4 + length] == chunk && stream[4 + length..] == tail;
  }

  // ---------------------------------------------------------------- what is on the wire

  lemma {:induction false} HeaderIs(length: nat, sequence: byte)
    requires length < 0x100_0000
    ensures Header(length, sequence) == [length % 256, length / 256 % 256, length / 0x1_0000, sequence]
  {
    assert LittleEndian(length / 0x1_0000, 1) == [length / 0x1_0000];
    assert length / 256 / 256 == length / 0x1_0000;
    assert LittleEndian(length / 256, 2) == [length / 256 % 256] + LittleEndian(length / 256 / 256, 1);
  }

  /** The bytes of a packet: three for the length, lowest first, one for the sequence
      number, and the payload; a longer payload goes on in the next packet, whose
      sequence number is one more. */
  lemma {:induction false} FrameIs(payload: seq<byte>, sequence: byte)
    ensures
      var n := |payload|;
      Framed(payload, sequence) ==
        if n < 0xFF_FFFF then [n % 256, n / 256 % 256, n / 0x1_0000, sequence] + payload
        else [255, 255, 255, sequence] + payload[..0xFF_FFFF] + Framed(payload[0xFF_FFFF..], (sequence + 1) % 256)
  {
    if |payload| < 0xFF_FFFF { HeaderIs(|payload|, sequence); } else { HeaderIs(0xFF_FFFF, sequence); }
  }

  /** A packet that comes with another sequence number is refused, and the reader
      tells whether it is ahead. */
  lemma {:induction false} WrongSequenceRefused(payload: seq<byte>, sequence: byte, expected: byte, rest: seq<byte>, before: seq<byte>)
    requires payload != [] && sequence != expected
    ensures Join(Framed(payload, sequence) + rest, expected, before) == OutOfSync(sequence > expected)
  {
    if |payload| >= MAX_PACKET_SIZE {
      LongFrame(payload, sequence, rest);
      HeaderLength(MAX_PACKET_SIZE, sequence, payload[..MAX_PACKET_SIZE] + (Framed(payload[MAX_PACKET_SIZE..], Next(sequence)) + rest));
    } else {
      ShortFrame(payload, sequence, rest);
      HeaderLength(|payload|, sequence, payload + rest);
    }
  }
}
