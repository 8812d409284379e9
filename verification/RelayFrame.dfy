/** The relay handshake: reading one newline-ended frame through a buffered
    reader and handing the rest of the stream to the byte pump. */
module RelayFrame {
  import opened Wrappers

  const NEWLINE: Byte := 10

  /** Index of the first newline, or the length where there is none. */
  function FirstNewline(s: Bytes): (k: nat)
    ensures k <= |s|
    ensures k < |s| ==> s[k] == 10
    ensures forall i :: 0 <= i < k ==> s[i] != 10
  {
    if s == [] || s[0] == NEWLINE then 0 else 1 + FirstNewline(s[1..])
  }

  lemma FirstNewlineAt(s: Bytes, k: nat)
    requires k <= |s| && (k < |s| ==> s[k] == NEWLINE) && forall i :: 0 <= i < k ==> s[i] != NEWLINE
    ensures FirstNewline(s) == k
  {
    var j := FirstNewline(s);
    assert j < |s| ==> s[j] == NEWLINE;
    assert k < |s| ==> s[k] == NEWLINE;
  }

  datatype SliceStatus = Found | BufferFull | Ended

  /** bufio.Reader over a connection: bytes buffered but not consumed, and bytes
      the peer has yet to deliver before the stream ends. */
  class Reader {
    const capacity: nat
    var buffer: Bytes
    var incoming: Bytes
    var ended: bool

    ghost predicate Valid()
      reads this
    {
      capacity > 0 && |buffer| <= capacity && (ended ==> incoming == [])
    }

    /** Everything that can still be read. */
    ghost function Unread(): Bytes
      reads this
    {
      buffer + incoming
    }

    constructor (capacity: nat, stream: Bytes)
      requires capacity > 0
      ensures Valid() && Unread() == stream && buffer == [] && this.capacity == capacity
    {
      this.capacity := capacity;
      buffer, incoming, ended := [], stream, false;
    }

    /** One read from the connection: the peer decides how much arrives. */
    method Fill(arrives: nat)
      requires Valid() && |buffer| < capacity
      modifies this
      ensures Valid() && Unread() == old(Unread()) && buffer == Unread()[..|buffer|]
      ensures if old(incoming) == [] then ended && buffer == old(buffer) else |buffer| > |old(buffer)| && !ended
      ensures |old(buffer)| <= |buffer|
    {
      if incoming == [] {
        ended := true;
        return;
      }
      var n := if arrives < 1 then 1 else arrives;
      if n > capacity - |buffer| { n := capacity - |buffer|; }
      if n > |incoming| { n := |incoming|; }
      buffer, incoming := buffer + incoming[..n], incoming[n..];
    }

    /** ReadSlice: up to the newline, or the full buffer, or what is left at the
        end of the stream. */
    method ReadSlice(arrivals: nat -> nat) returns (line: Bytes, status: SliceStatus)
      requires Valid()
      modifies this
      ensures Valid() && line + Unread() == old(Unread())
      ensures status == Found ==> line != [] && FirstNewline(line) == |line| - 1
      ensures status != Found ==> FirstNewline(line) == |line|
      ensures status == BufferFull ==> |line| == capacity
      ensures status == Ended ==> Unread() == []
    {
      var turn := 0;
      while true
        invariant Valid() && Unread() == old(Unread())
        decreases |incoming|, !ended
      {
        var k := FirstNewline(buffer);
        if k < |buffer| {
          line, buffer := buffer[..k + 1], buffer[k + 1..];
          FirstNewlineAt(line, k);
          return line, Found;
        }
        if ended {
          line, buffer := buffer, [];
          return line, Ended;
        }
        if |buffer| >= capacity {
          line, buffer := buffer, [];
          return line, BufferFull;
        }
        Fill(arrivals(turn));
        turn := turn + 1;
      }
    }

    /** bufferedConn.Read: buffered bytes first, then the connection. */
    method Read(limit: nat, arrives: nat) returns (data: Bytes)
      requires Valid()
      modifies this
      ensures Valid() && data + Unread() == old(Unread()) && |data| <= limit
      ensures limit > 0 && old(Unread()) != [] ==> data != []
    {
      if limit == 0 { return []; }
      if buffer == [] && !ended { Fill(arrives); }
      var n := if limit < |buffer| then limit else |buffer|;
      data, buffer := buffer[..n], buffer[n..];
    }
  }

  datatype FrameResult = Frame(frame: Bytes) | TooLarge | ReadFailed

  /** What the handshake should get from a stream, whatever the packets were. */
  function FrameOf(stream: Bytes, limit: nat): FrameResult {
    var k := FirstNewline(stream);
    if k < |stream| && k + 1 <= limit then Frame(stream[..k + 1])
    else if k < |stream| || |stream| > limit then TooLarge
    else ReadFailed
  }

  lemma NewlineLater(head: Bytes, tail: Bytes)
    requires FirstNewline(head) == |head|
    ensures FirstNewline(head + tail) == |head| + FirstNewline(tail)
  {
    FirstNewlineAt(head + tail, |head| + FirstNewline(tail));
  }

  lemma NewlineInHead(head: Bytes, tail: Bytes)
    requires FirstNewline(head) < |head|
    ensures FirstNewline(head + tail) == FirstNewline(head)
  {
    FirstNewlineAt(head + tail, FirstNewline(head));
  }

  /** readRelayFrame: independent of chunking and of the buffer size, and on
      success nothing after the frame is lost or read twice. */
  method ReadFrame(reader: Reader, limit: nat, arrivals: (nat, nat) -> nat) returns (r: FrameResult)
    requires reader.Valid()
    modifies reader
    ensures reader.Valid()
    ensures r == FrameOf(old(reader.Unread()), limit)
    ensures r.Frame? ==> r.frame + reader.Unread() == old(reader.Unread())
  {
    hide FirstNewline;
    ghost var stream := reader.Unread();
    var frame: Bytes := [];
    var turn := 0;
    while true
      invariant reader.Valid() && frame + reader.Unread() == stream
      invariant FirstNewline(frame) == |frame| && |frame| <= limit
      decreases |reader.Unread()|
    {
      var chunk, status := reader.ReadSlice(step => arrivals(turn, step));
      ghost var rest := reader.Unread();
      assert frame + (chunk + rest) == (frame + chunk) + rest;
      NewlineLater(frame, chunk);
      frame := frame + chunk;
      if status == Found { NewlineInHead(frame, rest); } else { NewlineLater(frame, rest); }
      assert frame + rest == stream;
      if |frame| > limit { return TooLarge; }
      if status == Found {
        assert stream[..|frame|] == frame;
        return Frame(frame);
      }
      if status != BufferFull { return ReadFailed; }
      turn := turn + 1;
    }
  }

  /** Reading to the end through the connection yields exactly what was unread. */
  method Drain(reader: Reader, limits: nat -> nat, arrivals: nat -> nat) returns (all: Bytes)
    requires reader.Valid()
    modifies reader
    ensures reader.Valid() && reader.Unread() == [] && all == old(reader.Unread())
  {
    all := [];
    var turn := 0;
    while reader.buffer != [] || reader.incoming != []
      invariant reader.Valid() && all + reader.Unread() == old(reader.Unread())
      decreases |reader.Unread()|
    {
      var data := reader.Read(1 + limits(turn), arrivals(turn));
      all, turn := all + data, turn + 1;
    }
  }

  /** A handshake of the relay: frame, then everything after it. */
  method Handshake(stream: Bytes, limit: nat, arrivals: (nat, nat) -> nat, limits: nat -> nat, later: nat -> nat)
    returns (r: FrameResult, piped: Bytes)
    ensures r == FrameOf(stream, limit)
    ensures r.Frame? ==> r.frame + piped == stream
  {
    var reader := new Reader(limit + 1, stream);
    r := ReadFrame(reader, limit, arrivals);
    piped := [];
    if r.Frame? { piped := Drain(reader, limits, later); }
  }
}
