/**
 * The length-prefixed wire format: a 4-byte big-endian unsigned length, then
 * that many payload bytes. The payload is the serialised message and is
 * treated here as opaque bytes.
 */
module Framing {
  import opened Wrappers

  newtype byte = b: int | 0 <= b < 256

  /** Width of the length header, in bytes. */
  const HeaderSize: int := 4
  /** One more than the largest length the '!I' header can carry. */
  const LengthBound: int := 0x1_0000_0000

  /** Reads a 4-byte big-endian unsigned header (`struct.unpack('!I', h)[0]`). */
  function UnpackLength(h: seq<byte>): (n: nat)
    requires |h| == HeaderSize
    ensures n < LengthBound
    ensures n == h[0] as int * 0x100_0000 + h[1] as int * 0x1_0000 + h[2] as int * 0x100 + h[3] as int
  {
    ((h[0] as int * 0x100 + h[1] as int) * 0x100 + h[2] as int) * 0x100 + h[3] as int
  }

  /**
   * Writes n as a 4-byte big-endian unsigned header (`struct.pack('!I', n)`);
   * None where struct.pack raises, for n that does not fit in 32 bits.
   */
  function PackLength(n: nat): (r: Option<seq<byte>>)
    ensures r.Some? <==> n < LengthBound
    ensures r.Some? ==> |r.value| == HeaderSize && UnpackLength(r.value) == n
  {
    if n < LengthBound then
      var n1 := n / 0x100;
      var n2 := n1 / 0x100;
      assert n2 < 0x1_0000;
      Some([(n2 / 0x100) as byte, (n2 % 0x100) as byte, (n1 % 0x100) as byte, (n % 0x100) as byte])
    else
      None
  }

  /** Every 4-byte header is the packing of the length it reads as. */
  lemma UnpackThenPack(h: seq<byte>)
    requires |h| == HeaderSize
    ensures PackLength(UnpackLength(h)) == Some(h)
  {
    var n := UnpackLength(h);
    var h0, h1, h2, h3 := h[0] as int, h[1] as int, h[2] as int, h[3] as int;
    assert n == ((h0 * 0x100 + h1) * 0x100 + h2) * 0x100 + h3;
    assert n % 0x100 == h3 && n / 0x100 == (h0 * 0x100 + h1) * 0x100 + h2;
    var n1 := n / 0x100;
    assert n1 % 0x100 == h2 && n1 / 0x100 == h0 * 0x100 + h1;
    var n2 := n1 / 0x100;
    assert n2 % 0x100 == h1 && n2 / 0x100 == h0;
    assert PackLength(n).value == h;
  }

  /**
   * send_msg's frame for an already serialised payload: the header then the
   * payload; None where struct.pack raises.
   */
  function Frame(payload: seq<byte>): (r: Option<seq<byte>>)
    ensures r.Some? <==> |payload| < LengthBound
    ensures r.Some? ==> |r.value| == HeaderSize + |payload|
                        && UnpackLength(r.value[..HeaderSize]) == |payload|
                        && r.value[HeaderSize..] == payload
  {
    match PackLength(|payload|)
    case Some(h) =>
      assert (h + payload)[..HeaderSize] == h;
      Some(h + payload)
    case None => None
  }

  /** One non-empty delivery of bytes by the transport. */
  type Segment = s: seq<byte> | |s| > 0 witness [0]

  /**
   * The receiving end of the connection: the segments the peer's bytes will
   * still arrive in, in order. When none are left the peer has closed.
   */
  datatype Socket = Socket(segments: seq<Segment>)

  /** All bytes still to be received, in order. */
  function Pending(segments: seq<Segment>): (bytes: seq<byte>)
    ensures segments == [] <==> bytes == []
  {
    if segments == [] then [] else segments[0] + Pending(segments[1..])
  }

  /**
   * `sock.recv(k)`: at most k bytes of the next segment, and b'' once the
   * peer has closed (or for k == 0). Returns the bytes and the socket after.
   */
  function Recv(sock: Socket, k: nat): (r: (seq<byte>, Socket))
    ensures r.0 + Pending(r.1.segments) == Pending(sock.segments)
    ensures |r.0| <= k
    ensures r.0 == [] <==> sock.segments == [] || k == 0
  {
    if sock.segments == [] || k == 0 then ([], sock)
    else
      var s := sock.segments[0];
      if |s| <= k then (s, Socket(sock.segments[1..]))
      else
        var rest: Segment := s[k..];
        assert s[..k] + rest == s;
        (s[..k], Socket([rest] + sock.segments[1..]))
  }

  /**
   * recvall(sock, n): read until exactly n bytes have arrived; None when a
   * read comes back empty first. On success the result is the first n
   * pending bytes and the rest stay pending; on failure the peer has closed
   * and fewer than n bytes were pending, all of them consumed.
   */
  method RecvAll(sock: Socket, n: nat) returns (data: Option<seq<byte>>, after: Socket)
    ensures data.Some? <==> n <= |Pending(sock.segments)|
    ensures data.Some? ==> data.value == Pending(sock.segments)[..n]
                           && Pending(after.segments) == Pending(sock.segments)[n..]
    ensures data.None? ==> after.segments == []
  {
    var acc: seq<byte> := [];
    after := sock;
    while |acc| < n
      invariant |acc| <= n
      invariant acc + Pending(after.segments) == Pending(sock.segments)
      decreases n - |acc|
    {
      var got := Recv(after, n - |acc|);
      var packet := got.0;
      after := got.1;
      if packet == [] {
        data := None;
        return;
      }
      acc := acc + packet;
    }
    assert Pending(sock.segments)[..n] == acc;
    data := Some(acc);
  }

  /** What recv_msg yields. */
  datatype Received =
    | Closed                      // the header read failed: recv_msg returns None
    | ShortPayload                // the payload read failed: pickle.loads(None) raises
    | Payload(bytes: seq<byte>)   // the bytes handed to the deserialiser

  /**
   * The frame at the front of a byte stream, and the bytes left after it;
   * a failed read leaves nothing, as the peer has closed.
   */
  function ReadFrame(stream: seq<byte>): (r: (Received, seq<byte>))
    ensures |r.1| <= |stream| && r.1 == stream[|stream| - |r.1|..]
    ensures r.0.Payload? ==> |stream| >= HeaderSize && stream == stream[..HeaderSize] + r.0.bytes + r.1
                             && UnpackLength(stream[..HeaderSize]) == |r.0.bytes|
    ensures !r.0.Payload? ==> r.1 == []
    ensures r.0 == Closed <==> |stream| < HeaderSize
    ensures r.0 == ShortPayload <==> |stream| >= HeaderSize && |stream| - HeaderSize < UnpackLength(stream[..HeaderSize])
  {
    if |stream| < HeaderSize then (Closed, [])
    else
      var len := UnpackLength(stream[..HeaderSize]);
      var body := stream[HeaderSize..];
      if |body| < len then (ShortPayload, [])
      else
        assert stream == stream[..HeaderSize] + body[..len] + body[len..];
        (Payload(body[..len]), body[len..])
  }

  /** recv_msg up to deserialisation: the header, then exactly that many bytes. */
  method RecvMsg(sock: Socket) returns (r: Received, after: Socket)
    ensures (r, Pending(after.segments)) == ReadFrame(Pending(sock.segments))
  {
    var rawLen, afterHeader;
    rawLen, afterHeader := RecvAll(sock, HeaderSize);
    if rawLen.None? {
      return Closed, afterHeader;
    }
    var msgLen := UnpackLength(rawLen.value);
    var body;
    body, after := RecvAll(afterHeader, msgLen);
    assert Pending(afterHeader.segments) == Pending(sock.segments)[HeaderSize..];
    if body.None? {
      return ShortPayload, after;
    }
    r := Payload(body.value);
  }

  /**
   * The receiver reads back exactly what the sender framed, and the bytes
   * after the frame are left for the next message.
   */
  lemma FrameRoundTrip(payload: seq<byte>, more: seq<byte>)
    requires |payload| < LengthBound
    ensures Frame(payload).Some?
    ensures ReadFrame(Frame(payload).value + more) == (Payload(payload), more)
  {
  }
}
