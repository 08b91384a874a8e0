/** The read buffer of the MySQL driver.  Unread bytes slide to the front of a
    byte array, the array grows when a request does not fit, and the socket is
    read in whatever chunks it offers; to its caller the buffer is a plain
    stream of bytes. */
module ReadBuffer {
  import opened Bytes

  const DEFAULT_BUF_SIZE := 4096

  datatype Status = Nil | EOF | Failure

  /** What the connection will do: hand over these bytes, ending with this error (if any). */
  datatype Event = Event(data: seq<byte>, status: Status)

  function Stream(events: seq<Event>): seq<byte> {
    if events == [] then [] else events[0].data + Stream(events[1..])
  }

  function Weight(events: seq<Event>): nat {
    if events == [] then 0 else |events[0].data| + 1 + Weight(events[1..])
  }

  /** No error until the stream ends. */
  predicate Clean(events: seq<Event>) {
    forall i :: 0 <= i < |events| ==>
      events[i].status == Nil || (events[i].status == EOF && i == |events| - 1)
  }

  /** An io.Reader: each Read takes a chunk of the reader's choosing, and may
      return bytes together with an error. */
  class Reader {
    var pending: seq<Event>

    constructor (events: seq<Event>)
      ensures pending == events
    {
      pending := events;
    }

    method Read(buf: array<byte>, from: nat) returns (n: nat, status: Status)
      requires from < buf.Length    // an empty read could return nothing forever
      modifies this, buf
      ensures from + n <= buf.Length && n <= |Stream(old(pending))|
      ensures buf[from..from + n] == Stream(old(pending))[..n]
      ensures Stream(pending) == Stream(old(pending))[n..]
      ensures buf[..from] == old(buf[..from])
      ensures status == Nil ==> Weight(pending) < Weight(old(pending))
      ensures Clean(old(pending)) ==> Clean(pending) && status != Failure && (status == EOF ==> Stream(pending) == [])
    {
      if pending == [] {
        return 0, EOF;
      }
      var e := pending[0];
      var room := buf.Length - from;
      if |e.data| <= room {
        n, status := |e.data|, e.status;
        pending := pending[1..];
      } else {
        n, status := room, Nil;
        pending := [Event(e.data[room..], e.status)] + pending[1..];
        assert pending[1..] == old(pending)[1..];
      }
      forall i | 0 <= i < n { buf[from + i] := e.data[i]; }
      assert buf[from..from + n] == e.data[..n];
      assert Stream(old(pending))[..n] == e.data[..n];
      assert Stream(old(pending)) == e.data + Stream(old(pending)[1..]);
      if |e.data| > room {
        assert Stream(pending) == e.data[room..] + Stream(old(pending)[1..]);
      }
    }
  }

  class Buffer {
    var buf: array<byte>
    var rd: Reader
    var idx: nat
    var length: nat

    ghost predicate Valid()
      reads this
    {
      idx + length <= buf.Length
    }

    /** The stream still ahead of the caller. */
    ghost function Unread(): seq<byte>
      requires Valid()
      reads this, buf, rd
    {
      buf[idx..idx + length] + Stream(rd.pending)
    }

    constructor (rd: Reader)
      ensures Valid() && this.rd == rd && fresh(buf) && buf.Length == DEFAULT_BUF_SIZE
      ensures Unread() == Stream(rd.pending)
    {
      buf := new byte[DEFAULT_BUF_SIZE](_ => 0);
      this.rd := rd;
      idx, length := 0, 0;
    }

    /** Move the unread bytes to the front, in a larger array if `need` asks for it. */
    method MakeRoom(need: nat)
      requires Valid()
      modifies this, buf
      ensures Valid() && rd == old(rd) && length == old(length) && idx == 0 && need <= buf.Length
      ensures buf == old(buf) || fresh(buf)
      ensures buf[..length] == old(buf[idx..idx + length])
    {
      if length > 0 && idx > 0 {
        forall i | 0 <= i < length { buf[i] := buf[idx + i]; }
      }
      assert length > 0 ==> buf[..length] == old(buf[idx..idx + length]);
      if need > buf.Length {
        var newBuf := new byte[((need / DEFAULT_BUF_SIZE) + 1) * DEFAULT_BUF_SIZE](_ => 0);
        forall i | 0 <= i < buf.Length { newBuf[i] := buf[i]; }
        assert newBuf[..length] == buf[..length];
        buf := newBuf;
      }
      idx := 0;
    }

    /** One round of fill's loop. */
    method ReadMore() returns (err: Status)
      requires Valid() && idx == 0 && length < buf.Length
      modifies this`length, buf, rd
      ensures Valid() && old(length) <= length
      ensures Unread() == old(Unread())
      ensures err == Nil ==> Weight(rd.pending) < Weight(old(rd.pending))
      ensures Clean(old(rd.pending)) ==>
        Clean(rd.pending) && err != Failure && (err == EOF ==> length == |old(Unread())|)
    {
      ghost var have, stream := buf[..length], Stream(rd.pending);
      var n;
      n, err := rd.Read(buf, length);
      length := length + n;
      assert buf[..length] == have + stream[..n];
      MovedOver(have, stream, n);
    }

    /** buffer.fill */
    method Fill(need: nat) returns (status: Status)
      requires Valid() && length < need
      modifies this, buf, rd
      ensures Valid() && rd == old(rd) && (buf == old(buf) || fresh(buf))
      ensures Unread() == old(Unread())
      ensures status == Nil ==> need <= length
      ensures Clean(old(rd.pending)) ==> Clean(rd.pending) && (need <= |old(Unread())| ==> status == Nil)
    {
      MakeRoom(need);
      assert Unread() == old(Unread());
      while true
        invariant Valid() && idx == 0 && length < need <= buf.Length && rd == old(rd)
        invariant buf == old(buf) || fresh(buf)
        invariant Unread() == old(Unread())
        invariant Clean(old(rd.pending)) ==> Clean(rd.pending)
        decreases Weight(rd.pending)
      {
        var err := ReadMore();
        if err == Nil {
          if length < need { continue; }
          return Nil;
        }
        if length >= need && err == EOF { return Nil; }
        return err;
      }
    }

    /** The next `need` bytes, which are buffered. */
    method Take(need: nat) returns (data: seq<byte>)
      requires Valid() && need <= length
      modifies this`idx, this`length
      ensures Valid() && need <= |old(Unread())|
      ensures data == old(Unread())[..need] && Unread() == old(Unread())[need..]
    {
      TakenFromFront(buf[..], idx, need, idx + length, Stream(rd.pending));
      var offset := idx;
      idx := idx + need;
      length := length - need;
      data := buf[offset..idx];
    }

    /** buffer.readNext: on success the next `need` bytes of the stream, on failure nothing is lost. */
    method ReadNext(need: nat) returns (data: seq<byte>, status: Status)
      requires Valid()
      modifies this, buf, rd
      ensures Valid() && rd == old(rd) && (buf == old(buf) || fresh(buf))
      ensures status == Nil ==>
        need <= |old(Unread())| && data == old(Unread())[..need] && Unread() == old(Unread())[need..]
      ensures status != Nil ==> data == [] && Unread() == old(Unread())
      ensures Clean(old(rd.pending)) ==> Clean(rd.pending) && (status == Nil <==> need <= |old(Unread())|)
    {
      if length < need {
        var err := Fill(need);
        if err != Nil { return [], err; }
      }
      data := Take(need);
      status := Nil;
    }

    /** A run of requests: the slices read are consecutive pieces of the stream. */
    method ReadAll(needs: seq<nat>) returns (slices: seq<seq<byte>>, status: Status)
      requires Valid()
      modifies this, buf, rd
      ensures Valid() && rd == old(rd) && (buf == old(buf) || fresh(buf))
      ensures Concat(slices) + Unread() == old(Unread())
      ensures Sized(slices, needs) && (status == Nil ==> |slices| == |needs|)
    {
      slices, status := [], Nil;
      ghost var all := Unread();
      assert Concat(slices) + Unread() == all;
      while |slices| < |needs|
        invariant Valid() && rd == old(rd) && (buf == old(buf) || fresh(buf)) && status == Nil
        invariant Sized(slices, needs)
        invariant Concat(slices) + Unread() == all
      {
        ghost var before := Unread();
        var data;
        data, status := ReadNext(needs[|slices|]);
        if status != Nil { return; }
        ConcatStep(slices, data, before, Unread(), all);
        slices := slices + [data];
      }
    }

    /** buffer.takeBuffer: room for writing, refused while unread bytes are buffered. */
    method TakeBuffer(size: nat, maxPacketSize: nat) returns (data: array?<byte>)
      requires Valid() && buf.Length >= DEFAULT_BUF_SIZE
      modifies this`buf
      ensures Valid() && buf.Length >= DEFAULT_BUF_SIZE && Unread() == old(Unread())
      ensures data == null <==> length > 0
      ensures data != null ==> size <= data.Length
      ensures data != null && data != buf ==> fresh(data)
    {
      if length > 0 { return null; }
      if size <= DEFAULT_BUF_SIZE || size <= buf.Length { return buf; }
      data := new byte[size](_ => 0);
      if size < maxPacketSize { buf := data; }
    }
  }

  /** Each slice is as long as was asked for. */
  predicate Sized(slices: seq<seq<byte>>, needs: seq<nat>) {
    |slices| <= |needs| && forall i :: 0 <= i < |slices| ==> |slices[i]| == needs[i]
  }

  lemma {:induction false} MovedOver(have: seq<byte>, stream: seq<byte>, n: nat)
    requires n <= |stream|
    ensures have + stream == (have + stream[..n]) + stream[n..]
  {}

  /** Splitting the buffered part splits the stream. */
  lemma {:induction false} TakenFromFront(b: seq<byte>, at: nat, need: nat, end: nat, stream: seq<byte>)
    requires at + need <= end <= |b|
    ensures b[at..at + need] == (b[at..end] + stream)[..need]
    ensures b[at + need..end] + stream == (b[at..end] + stream)[need..]
  {
    assert b[at..end] == b[at..at + need] + b[at + need..end];
  }

  lemma {:induction false} ConcatSnoc(slices: seq<seq<byte>>, last: seq<byte>)
    ensures Concat(slices + [last]) == Concat(slices) + last
  {
    if slices == [] {
      assert slices + [last] == [last] && [last][1..] == [];
    } else {
      assert (slices + [last])[1..] == slices[1..] + [last];
      ConcatSnoc(slices[1..], last);
    }
  }

  /** One more piece of the stream. */
  lemma {:induction false} ConcatStep(slices: seq<seq<byte>>, data: seq<byte>, before: seq<byte>, after: seq<byte>, all: seq<byte>)
    requires Concat(slices) + before == all
    requires |data| <= |before| && data == before[..|data|] && after == before[|data|..]
    ensures Concat(slices + [data]) + after == all
  {
    ConcatSnoc(slices, data);
    assert before == data + after;
    assert Concat(slices) + data + after == Concat(slices) + (data + after);
  }
}
