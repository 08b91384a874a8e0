/** The connection methods that read and write packets, in place, and the
    chunked sending of long parameters. */
module MysqlConn {
  import opened Bytes
  import opened ReadBuffer
  import opened Packets

  datatype Sending = Sent | TooLarge | Broken

  lemma LongestHeader()
    ensures LittleEndian(MAX_PACKET_SIZE, 3) == [255, 255, 255]
  {
    assert LittleEndian(0xFFFF, 2) == [255, 255] by { assert LittleEndian(0xFF, 1) == [255]; }
  }

  lemma HeaderBytes(n: nat)
    requires n < 0x100_0000
    ensures LittleEndian(n, 3) == [n % 256, n / 256 % 256, n / 0x1_0000 % 256]
  {
    assert LittleEndian(n / 0x1_0000, 1) == [n / 0x1_0000 % 256];
    assert n / 256 / 256 == n / 0x1_0000;
    assert LittleEndian(n / 256, 2) == [n / 256 % 256] + LittleEndian(n / 256 / 256, 1);
  }

  lemma {:induction false} BehindHeader(stream: seq<byte>, n: nat)
    requires |stream| >= 4
    ensures 4 + n <= |stream| ==> stream[4..][..n] == stream[4..4 + n] && stream[4..][n..] == stream[4 + n..]
  {}

  class Conn {
    var sequence: byte
    var maxPacketAllowed: int
    var wire: seq<byte>            // everything handed to the network so far
    const buf: Buffer

    constructor (buf: Buffer, maxPacketAllowed: int)
      ensures this.buf == buf && this.maxPacketAllowed == maxPacketAllowed && sequence == 0 && wire == []
    {
      this.buf := buf;
      this.maxPacketAllowed := maxPacketAllowed;
      sequence, wire := 0, [];
    }

    /** netConn.Write: any part of the data may go out, with or without an error. */
    method Write(data: seq<byte>) returns (n: nat, failed: bool)
      modifies this`wire
      ensures n <= |data| && wire == old(wire) + data[..n]
    {
      n :| n <= |data|;
      failed := *;
      wire := wire + data[..n];
    }

    /** The four header bytes of the packet at `off`. */
    method PutHeader(data: array<byte>, off: nat, pktLen: nat)
      requires off + 4 <= data.Length
      modifies data
      ensures data[off..off + 4] == Header(if pktLen >= MAX_PACKET_SIZE then MAX_PACKET_SIZE else pktLen, sequence)
      ensures data[..off] == old(data[..off]) && data[off + 4..] == old(data[off + 4..])
    {
      if pktLen >= MAX_PACKET_SIZE {
        LongestHeader();
        data[off], data[off + 1], data[off + 2] := 0xff, 0xff, 0xff;
      } else {
        HeaderBytes(pktLen);
        data[off], data[off + 1], data[off + 2] := pktLen % 256, pktLen / 256 % 256, pktLen / 0x1_0000 % 256;
      }
      data[off + 3] := sequence;
    }

    /** One turn of writePacket's loop: header in place, then header and chunk to the network. */
    method SendChunk(data: array<byte>, off: nat, pktLen: nat) returns (ok: bool, size: nat)
      requires off + 4 + pktLen <= data.Length
      modifies this`sequence, this`wire, data
      ensures size == if pktLen >= MAX_PACKET_SIZE then MAX_PACKET_SIZE else pktLen
      ensures data[..] == Patched(old(data[..]), off, Header(size, old(sequence)))
      ensures ok ==> sequence == Next(old(sequence))
      ensures ok ==> wire == old(wire) + (Header(size, old(sequence)) + old(data[..])[off + 4..][..size])
    {
      PutHeader(data, off, pktLen);
      size := if pktLen >= MAX_PACKET_SIZE then MAX_PACKET_SIZE else pktLen;
      assert data[..] == data[..off] + data[off..off + 4] + data[off + 4..];
      assert data[off..off + 4 + size] == data[off..off + 4] + data[off + 4..][..size];
      var n, failed := Write(data[off..off + 4 + size]);
      ok := !failed && n == 4 + size;
      if ok { sequence := (sequence + 1) % 256; }
    }

    /** The same turn, seen from what is still to be sent: the bytes behind the
        next header are as they were on entry. */
    method SendNext(data: array<byte>, off: nat, pktLen: nat, ghost start: seq<byte>, ghost from: nat, ghost to: nat,
                    ghost unsent: seq<byte>, ghost goal: seq<byte>, ghost last: byte)
      returns (ok: bool, size: nat)
      requires from <= off && off + 4 + pktLen == to <= |start| && Intact(data[..], start, from, off, to)
      requires unsent == start[off + 4..to] && Ahead(wire, unsent, sequence, goal, last)
      modifies this`sequence, this`wire, data
      ensures size <= pktLen && size == if pktLen >= MAX_PACKET_SIZE then MAX_PACKET_SIZE else pktLen
      ensures Intact(data[..], start, from, off + size, to) && data[..][to..] == start[to..]
      ensures unsent[size..] == start[off + size + 4..to]
      ensures ok && size == MAX_PACKET_SIZE ==> Ahead(wire, unsent[size..], sequence, goal, last)
      ensures ok && size != MAX_PACKET_SIZE ==> wire == goal && sequence == last
    {
      ghost var written, before, d := wire, sequence, data[..];
      ok, size := SendChunk(data, off, pktLen);
      PatchIsIntact(d, start, from, off, to, Header(size, before), size);
      if size == MAX_PACKET_SIZE {
        MoreChunks(written, unsent, before, goal, last);
      } else {
        LastChunk(written, unsent, before, goal, last);
      }
    }

    /** mysqlConn.writePacket on the slice data[from..to].  What goes out is the
        framing of the bytes the slice held on entry: no header overwrites a byte
        that has not been sent. */
    method WritePacket(data: array<byte>, from: nat, to: nat) returns (r: Sending)
      requires from + 4 <= to <= data.Length
      modifies this`sequence, this`wire, data
      ensures r == TooLarge <==> to - from - 4 > maxPacketAllowed
      ensures r == TooLarge ==> wire == old(wire) && sequence == old(sequence)
      ensures r == Sent ==> wire == old(wire) + Framed(old(data[..])[from + 4..to], old(sequence))
      ensures r == Sent ==> sequence == SequenceAfter(to - from - 4, old(sequence))
      ensures data[..][..from] == old(data[..])[..from] && data[..][to..] == old(data[..])[to..]
    {
      var pktLen := to - from - 4;
      if pktLen > maxPacketAllowed { return TooLarge; }
      ghost var start := data[..];
      ghost var payload := start[from + 4..to];
      ghost var unsent := payload;
      ghost var goal, last := wire + Framed(payload, sequence), SequenceAfter(pktLen, sequence);
      var off := from;
      while true
        invariant from <= off && 0 <= pktLen && off + 4 + pktLen == to
        invariant Intact(data[..], start, from, off, to) && unsent == start[off + 4..to]
        invariant Ahead(wire, unsent, sequence, goal, last)
        decreases pktLen
      {
        var ok, size := SendNext(data, off, pktLen, start, from, to, unsent, goal, last);
        if !ok { return Broken; }
        if size != MAX_PACKET_SIZE { return Sent; }
        pktLen := pktLen - size;
        off := off + size;
        unsent := unsent[size..];
      }
    }

    /** The header and body of one packet. */
    method ReadChunk() returns (r: Reading)
      requires buf.Valid()
      modifies this`sequence, buf, buf.buf, buf.rd
      ensures buf.Valid() && buf.rd == old(buf.rd) && (buf.buf == old(buf.buf) || fresh(buf.buf))
      ensures r.Read? ==> sequence == Next(old(sequence))
      ensures r.Read? ==> TakeChunk(old(buf.Unread()), old(sequence)) == Chunk(r.payload, buf.Unread())
      ensures Clean(old(buf.rd.pending)) ==>
        Clean(buf.rd.pending) &&
        match TakeChunk(old(buf.Unread()), old(sequence))
        case Chunk(_, _) => r.Read?
        case WrongSequence(ahead) => r == (if ahead then SyncMul else Sync)
        case NoChunk => r == Bad
    {
      ghost var stream := buf.Unread();
      var data, status := buf.ReadNext(4);
      if status != Nil { return Bad; }
      var pktLen := FromLittleEndian(data[..3]);
      assert data[..3] == stream[..3] && data[3] == stream[3];
      if pktLen < 1 { return Bad; }
      if data[3] != sequence { return if data[3] > sequence then SyncMul else Sync; }
      sequence := (sequence + 1) % 256;
      BehindHeader(stream, pktLen);
      r := ReadBody(pktLen);
    }

    /** The body of a packet. */
    method ReadBody(pktLen: nat) returns (r: Reading)
      requires buf.Valid()
      modifies buf, buf.buf, buf.rd
      ensures buf.Valid() && buf.rd == old(buf.rd) && (buf.buf == old(buf.buf) || fresh(buf.buf))
      ensures r.Read? || r == Bad
      ensures r.Read? ==>
        pktLen <= |old(buf.Unread())| && r.payload == old(buf.Unread())[..pktLen] && buf.Unread() == old(buf.Unread())[pktLen..]
      ensures Clean(old(buf.rd.pending)) ==> Clean(buf.rd.pending) && (pktLen <= |old(buf.Unread())| ==> r.Read?)
    {
      var data, status := buf.ReadNext(pktLen);
      r := if status == Nil then Read(data) else Bad;
    }

    /** mysqlConn.readPacket.  Whatever the chunking of the network, a packet that
        is returned is the one the stream holds; on a connection that does not
        fail, every outcome is the stream's. */
    method ReadPacket() returns (r: Reading)
      requires buf.Valid()
      modifies this`sequence, buf, buf.buf, buf.rd
      ensures buf.Valid()
      ensures r.Read? ==>
        Join(old(buf.Unread()), old(sequence), []) == Packet(r.payload, buf.Unread(), sequence)
      ensures Clean(old(buf.rd.pending)) ==>
        match Join(old(buf.Unread()), old(sequence), [])
        case Packet(payload, rest, next) => r == Read(payload) && buf.Unread() == rest && sequence == next
        case OutOfSync(ahead) => r == (if ahead then SyncMul else Sync)
        case BadConn => r == Bad
    {
      var payload: seq<byte> := [];
      ghost var whole := Join(buf.Unread(), sequence, []);
      while true
        invariant buf.Valid() && buf.rd == old(buf.rd) && (buf.buf == old(buf.buf) || fresh(buf.buf))
        invariant Join(buf.Unread(), sequence, payload) == whole
        invariant Clean(old(buf.rd.pending)) ==> Clean(buf.rd.pending)
        decreases |buf.Unread()|
      {
        r := ReadChunk();
        if !r.Read? { return; }
        var isLastPacket := |r.payload| < MAX_PACKET_SIZE;
        if isLastPacket && payload == [] {
          assert payload + r.payload == r.payload;
          return;
        }
        payload := payload + r.payload;
        if isLastPacket { return Read(payload); }
      }
    }

    /** The 7 bytes in front of each piece of a long parameter: command, statement, parameter. */
    method PutCommand(data: array<byte>, off: nat, command: seq<byte>)
      requires off + 7 <= data.Length && |command| == 7
      modifies data
      ensures data[..] == Patched(old(data[..]), off, command)
    {
      forall i | 0 <= i < 7 { data[off + i] := command[i]; }
      assert data[..] == Patched(old(data[..]), off, command);
    }

    /** One turn of writeCommandLongData's loop: the packet at `off` carries the
        command and the first pktLen-7 bytes of the unsent `rest`. */
    method SendPiece(data: array<byte>, off: nat, pktLen: nat, command: seq<byte>, ghost rest: seq<byte>)
      returns (r: Sending)
      requires |command| == 7
      requires off + 11 + |rest| == data.Length && data[..][off + 11..] == rest && 7 <= pktLen <= 7 + |rest|
      requires pktLen <= maxPacketAllowed
      modifies this`sequence, this`wire, data
      ensures r != TooLarge
      ensures r == Sent ==> wire == old(wire) + Framed(command + rest[..pktLen - 7], 0)
      ensures data[..][off + 4 + pktLen..] == rest[pktLen - 7..]
    {
      sequence := 0;
      ghost var before := data[..];
      PutCommand(data, off + 4, command);
      LongDataSlice(before, off, command, rest, pktLen);
      r := WritePacket(data, off, off + 4 + pktLen);
    }

    /** The same turn, seen from the pieces still to be sent. */
    method SendNextPiece(data: array<byte>, off: nat, pktLen: nat, command: seq<byte>, ghost rest: seq<byte>, ghost goal: seq<byte>)
      returns (r: Sending)
      requires |command| == 7 && maxPacketAllowed > 8 && rest != [] && RestAt(data[..], off, rest)
      requires pktLen == if 7 + |rest| < maxPacketAllowed - 1 then 7 + |rest| else maxPacketAllowed - 1
      requires PiecesAhead(wire, command, rest, maxPacketAllowed - 8, goal)
      modifies this`sequence, this`wire, data
      ensures r != TooLarge
      ensures r == Sent ==> PiecesAhead(wire, command, rest[pktLen - 7..], maxPacketAllowed - 8, goal)
      ensures RestAt(data[..], off + pktLen - 7, rest[pktLen - 7..])
    {
      SentPiece(wire, command, rest, maxPacketAllowed - 8, pktLen - 7, goal);
      r := SendPiece(data, off, pktLen, command, rest);
    }

    /** The array all pieces are sent from: room for a header and a command, then the argument. */
    method LongDataBuffer(arg: seq<byte>) returns (data: array<byte>)
      ensures fresh(data) && data.Length == 11 + |arg| && data[..][11..] == arg
    {
      data := new byte[11 + |arg|](i => if 11 <= i < 11 + |arg| then arg[i - 11] else 0);
    }

    /** The loop of writeCommandLongData, on the array that holds the argument behind 11 free bytes. */
    method SendPieces(data: array<byte>, command: seq<byte>, ghost arg: seq<byte>, ghost goal: seq<byte>) returns (r: Sending)
      requires |command| == 7 && maxPacketAllowed > 8 && RestAt(data[..], 0, arg)
      requires PiecesAhead(wire, command, arg, maxPacketAllowed - 8, goal)
      modifies this`sequence, this`wire, data
      ensures r != TooLarge && (r == Sent ==> wire == goal)
    {
      var maxLen := maxPacketAllowed - 1;
      var pktLen := maxLen;
      var argLen, off := data.Length - 11, 0;
      ghost var rest := arg;
      while argLen > 0
        invariant 0 <= argLen == |rest| && 0 <= off && RestAt(data[..], off, rest)
        invariant argLen > 0 ==> pktLen == maxLen
        invariant PiecesAhead(wire, command, rest, maxLen - 7, goal)
        decreases argLen
      {
        if 7 + argLen < maxLen { pktLen := 7 + argLen; }
        r := SendNextPiece(data, off, pktLen, command, rest, goal);
        if r != Sent { return; }
        off := off + pktLen - 7;
        argLen := argLen - (pktLen - 7);
        rest := rest[pktLen - 7..];
      }
      NoPieces(wire, command, rest, maxLen - 7, goal);
      r := Sent;
    }

    /** mysqlStmt.writeCommandLongData: the argument goes out in pieces, each in a
        packet of its own with sequence number 0, from one array whose headers
        overwrite the piece sent before. */
    method WriteCommandLongData(id: nat, paramID: nat, arg: seq<byte>) returns (r: Sending)
      requires maxPacketAllowed > 8
      modifies this`sequence, this`wire
      ensures r != TooLarge
      ensures r == Sent ==>
        sequence == 0 && wire == old(wire) + SentPieces(Command(id, paramID), Pieces(arg, maxPacketAllowed - 8))
    {
      var data := LongDataBuffer(arg);
      var command := Command(id, paramID);
      ghost var goal := wire + SentPieces(command, Pieces(arg, maxPacketAllowed - 8));
      r := SendPieces(data, command, arg, goal);
      if r == Sent { sequence := 0; }
    }
  }

  /** The bytes still to be sent are intact, behind room for a header and a command. */
  predicate RestAt(d: seq<byte>, off: nat, rest: seq<byte>) {
    off + 11 + |rest| == |d| && d[off + 11..] == rest
  }

  function Command(id: nat, paramID: nat): (r: seq<byte>)
    ensures |r| == 7
  {
    [0x18] + LittleEndian(id, 4) + LittleEndian(paramID, 2)
  }

  /** The bytes in front of each piece: the command, the statement's ID in four bytes
      and the parameter's in two, lowest byte first. */
  lemma {:induction false} CommandIs(id: nat, paramID: nat)
    requires id < 0x1_0000_0000 && paramID < 0x1_0000
    ensures Command(id, paramID) ==
      [24, id % 256, id / 256 % 256, id / 0x1_0000 % 256, id / 0x100_0000, paramID % 256, paramID / 256]
  {
    assert id / 256 / 256 == id / 0x1_0000 && id / 0x1_0000 / 256 == id / 0x100_0000;
    assert LittleEndian(id / 0x100_0000, 1) == [id / 0x100_0000];
    assert LittleEndian(id / 0x1_0000, 2) == [id / 0x1_0000 % 256] + LittleEndian(id / 0x1_0000 / 256, 1);
    assert LittleEndian(id / 256, 3) == [id / 256 % 256] + LittleEndian(id / 256 / 256, 2);
    assert LittleEndian(id, 4) == [id % 256] + LittleEndian(id / 256, 3);
    assert LittleEndian(paramID / 256, 1) == [paramID / 256];
    assert LittleEndian(paramID, 2) == [paramID % 256] + LittleEndian(paramID / 256, 1);
  }

  /** The argument cut into pieces of `size` bytes, the last one possibly shorter. */
  function Pieces(arg: seq<byte>, size: nat): seq<seq<byte>>
    requires size > 0
    decreases |arg|
  {
    if arg == [] then [] else if |arg| <= size then [arg] else [arg[..size]] + Pieces(arg[size..], size)
  }

  function SentPieces(command: seq<byte>, pieces: seq<seq<byte>>): seq<byte> {
    if pieces == [] then [] else Framed(command + pieces[0], 0) + SentPieces(command, pieces[1..])
  }

  /** The pieces are the argument, in order; each fits a packet and none is empty. */
  lemma {:induction false} PiecesAreTheArgument(arg: seq<byte>, size: nat)
    requires size > 0
    ensures Concat(Pieces(arg, size)) == arg
    ensures forall i :: 0 <= i < |Pieces(arg, size)| ==> 1 <= |Pieces(arg, size)[i]| <= size
  {
    PiecesJoin(arg, size, Pieces(arg, size));
    PiecesFit(arg, size, Pieces(arg, size));
  }

  lemma {:induction false} ConcatCons(part: seq<byte>, more: seq<seq<byte>>)
    ensures Concat([part] + more) == part + Concat(more)
  {
    assert ([part] + more)[1..] == more;
  }

  lemma {:induction false} PiecesJoin(arg: seq<byte>, size: nat, pieces: seq<seq<byte>>)
    requires size > 0 && pieces == Pieces(arg, size)
    ensures Concat(pieces) == arg
    decreases |arg|
  {
    if |arg| > size {
      PiecesJoin(arg[size..], size, Pieces(arg[size..], size));
      ConcatCons(arg[..size], Pieces(arg[size..], size));
      assert arg[..size] + arg[size..] == arg;
    } else if arg != [] {
      ConcatCons(arg, []);
      assert [arg] + [] == [arg] && arg + Concat([]) == arg;
    }
  }

  lemma {:induction false} PiecesFit(arg: seq<byte>, size: nat, pieces: seq<seq<byte>>)
    requires size > 0 && pieces == Pieces(arg, size)
    ensures forall i :: 0 <= i < |pieces| ==> 1 <= |pieces[i]| <= size
    decreases |arg|
  {
    if |arg| > size { PiecesFit(arg[size..], size, Pieces(arg[size..], size)); }
  }

  /** What the slice holds once the command bytes are in place. */
  lemma LongDataSlice(d: seq<byte>, off: nat, command: seq<byte>, rest: seq<byte>, pktLen: nat)
    requires |command| == 7 && off + 11 + |rest| == |d| && d[off + 11..] == rest && 7 <= pktLen <= 7 + |rest|
    ensures
      var after := Patched(d, off + 4, command);
      && after[off + 4..off + 4 + pktLen] == command + rest[..pktLen - 7]
      && after[off + 4 + pktLen..] == rest[pktLen - 7..]
  {
    var after := Patched(d, off + 4, command);
    assert after[off + 4..] == command + rest;
    assert after[off + 4..off + 4 + pktLen] == after[off + 4..][..pktLen];
    assert after[off + 4 + pktLen..] == after[off + 4..][pktLen..];
  }

  /** What is on the wire and the pieces still to be sent add up to `goal`. */
  predicate PiecesAhead(wire: seq<byte>, command: seq<byte>, rest: seq<byte>, size: nat, goal: seq<byte>)
    requires size > 0
  {
    wire + SentPieces(command, Pieces(rest, size)) == goal
  }

  lemma {:induction false} NoPieces(wire: seq<byte>, command: seq<byte>, rest: seq<byte>, size: nat, goal: seq<byte>)
    requires size > 0 && rest == [] && PiecesAhead(wire, command, rest, size, goal)
    ensures wire == goal
  {
    assert wire + [] == wire;
  }

  /** One piece more on the wire. */
  lemma {:induction false} SentPiece(wire: seq<byte>, command: seq<byte>, rest: seq<byte>, size: nat, n: nat, goal: seq<byte>)
    requires size > 0 && rest != [] && PiecesAhead(wire, command, rest, size, goal)
    requires n == if |rest| < size then |rest| else size
    ensures PiecesAhead(wire + Framed(command + rest[..n], 0), command, rest[n..], size, goal)
  {
    var head := Framed(command + rest[..n], 0);
    if |rest| <= size {
      assert rest[..n] == rest && rest[n..] == [];
      assert [rest][1..] == [];
    } else {
      assert Pieces(rest, size)[1..] == Pieces(rest[size..], size);
    }
    assert SentPieces(command, Pieces(rest, size)) == head + SentPieces(command, Pieces(rest[n..], size));
    Associative(wire, head, SentPieces(command, Pieces(rest[n..], size)));
  }

  datatype Reading = Read(payload: seq<byte>) | Sync | SyncMul | Bad

  function Patched(d: seq<byte>, off: nat, header: seq<byte>): seq<byte>
    requires off + |header| <= |d|
  {
    d[..off] + header + d[off + |header|..]
  }

  /** Outside the slice nothing changed; inside it, the bytes behind the next header are still there. */
  predicate Intact(d: seq<byte>, start: seq<byte>, from: nat, off: nat, to: nat)
    requires from <= off && off + 4 <= to <= |start|
  {
    |d| == |start| && d[..from] == start[..from] && d[off + 4..] == start[off + 4..]
  }

  lemma PatchIsIntact(d: seq<byte>, start: seq<byte>, from: nat, off: nat, to: nat, header: seq<byte>, size: nat)
    requires from <= off && off + 4 + size <= to <= |start| && |header| == 4
    requires Intact(d, start, from, off, to)
    ensures
      var after := Patched(d, off, header);
      && Intact(after, start, from, off, to) && Intact(after, start, from, off + size, to)
      && after[to..] == start[to..]
      && start[off + size + 4..to] == start[off + 4..to][size..]
      && d[off + 4..][..size] == start[off + 4..to][..size]
  {
    var after := Patched(d, off, header);
    assert after[off + 4..] == d[off + 4..] == start[off + 4..];
    assert after[off + size + 4..] == after[off + 4..][size..];
    assert after[to..] == after[off + 4..][to - off - 4..] == start[off + 4..][to - off - 4..];
    assert after[..from] == d[..off][..from];
  }

  /** What is on the wire and what is still to be sent add up to `goal`. */
  predicate Ahead(wire: seq<byte>, unsent: seq<byte>, sequence: byte, goal: seq<byte>, last: byte) {
    wire + Framed(unsent, sequence) == goal && SequenceAfter(|unsent|, sequence) == last
  }

  lemma {:induction false} LastChunk(wire: seq<byte>, unsent: seq<byte>, sequence: byte, goal: seq<byte>, last: byte)
    requires Ahead(wire, unsent, sequence, goal, last) && |unsent| < MAX_PACKET_SIZE
    ensures wire + (Header(|unsent|, sequence) + unsent[..|unsent|]) == goal && Next(sequence) == last
  {
    assert unsent[..|unsent|] == unsent;
  }

  lemma {:induction false} MoreChunks(wire: seq<byte>, unsent: seq<byte>, sequence: byte, goal: seq<byte>, last: byte)
    requires Ahead(wire, unsent, sequence, goal, last) && |unsent| >= MAX_PACKET_SIZE
    ensures
      var written := wire + (Header(MAX_PACKET_SIZE, sequence) + unsent[..MAX_PACKET_SIZE]);
      Ahead(written, unsent[MAX_PACKET_SIZE..], Next(sequence), goal, last)
  {
    SequenceStep(|unsent|, sequence);
    Associative(wire, Header(MAX_PACKET_SIZE, sequence) + unsent[..MAX_PACKET_SIZE],
                Framed(unsent[MAX_PACKET_SIZE..], Next(sequence)));
  }
}
