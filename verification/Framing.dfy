/** Receiving framed messages (pycubrid/connection.py, pycubrid/packet.py): the exact-receive
    loop over a socket that delivers its bytes in arbitrary non-empty pieces. */
module Framing {
  import opened Basics
  import opened Wire
  import opened Replies
  import opened PacketObjects

  function Joined(pieces: seq<Bytes>): Bytes {
    if pieces == [] then [] else pieces[0] + Joined(pieces[1..])
  }

  predicate NonEmpty(pieces: seq<Bytes>) {
    forall i :: 0 <= i < |pieces| ==> pieces[i] != []
  }

  /** A connected socket: the pieces still to be delivered, then end of file. */
  class Socket {
    var pieces: seq<Bytes>

    constructor (pieces: seq<Bytes>)
      requires NonEmpty(pieces)
      ensures this.pieces == pieces
    {
      this.pieces := pieces;
    }

    ghost predicate Valid() reads this { NonEmpty(pieces) }

    ghost function Stream(): Bytes reads this { Joined(pieces) }

    /** Up to limit bytes of the next piece into the buffer at pos; zero only at end of file. */
    method RecvInto(buf: array<byte>, pos: nat, limit: nat) returns (n: nat)
      requires Valid() && 0 < limit && pos + limit <= buf.Length
      modifies this, buf
      ensures Valid() && n <= limit && n <= |old(Stream())|
      ensures n == 0 <==> old(Stream()) == []
      ensures Stream() == old(Stream())[n..]
      ensures buf[..pos] == old(buf[..pos]) && buf[pos..pos + n] == old(Stream())[..n]
    {
      if pieces == [] { return 0; }
      var head := pieces[0];
      ghost var stream := Stream();
      assert stream == head + Joined(pieces[1..]);
      n := if |head| <= limit then |head| else limit;
      forall i | 0 <= i < n { buf[pos + i] := head[i]; }
      if n == |head| {
        pieces := pieces[1..];
      } else {
        var rest := pieces[1..];
        pieces := [head[n..]] + rest;
        assert pieces[1..] == rest;
      }
      assert stream[..n] == head[..n] && stream[n..] == head[n..] + Joined(old(pieces)[1..]);
      assert buf[pos..pos + n] == head[..n];
      assert buf[..pos] == old(buf[..pos]);
    }
  }

  /** What receiving ends with; BadSize is Python refusing a buffer of negative size. */
  datatype Received<+T> = Complete(value: T) | ConnectionLost | BadSize

  /** What an exact receive of size bytes does to a stream, however it is cut into pieces. */
  function TakeExact(stream: Bytes, size: int): (r: (Received<Bytes>, Bytes))
    ensures r.0.Complete? <==> 0 <= size <= |stream|
    ensures r.0.Complete? ==> |r.0.value| == size && stream == r.0.value + r.1
  {
    if size < 0 then (BadSize, stream)
    else if size <= |stream| then (Complete(stream[..size]), stream[size..])
    else (ConnectionLost, [])
  }

  method RecvExact(sock: Socket, size: int) returns (r: Received<Bytes>)
    requires sock.Valid()
    modifies sock
    ensures sock.Valid()
    ensures (r, sock.Stream()) == TakeExact(old(sock.Stream()), size)
  {
    if size < 0 { return BadSize; }
    var buf := new byte[size];
    var pos := 0;
    ghost var stream := sock.Stream();
    assert stream[0..] == stream;
    while pos < size
      invariant 0 <= pos <= size && pos <= |stream|
      invariant sock.Valid() && sock.Stream() == stream[pos..] && buf[..pos] == stream[..pos]
    {
      ghost var done := buf[..pos];
      var n := sock.RecvInto(buf, pos, size - pos);
      if n == 0 { return ConnectionLost; }
      assert stream[pos..][n..] == stream[pos + n..];
      assert buf[..pos + n] == done + buf[pos..pos + n];
      assert stream[..pos + n] == stream[..pos] + stream[pos..][..n];
      pos := pos + n;
    }
    assert buf[..] == buf[..size];
    return Complete(buf[..]);
  }

  /** A response: the CAS info and the payload. */
  datatype Response = Response(cas: Bytes, payload: Bytes)

  /** The receive half of a request, on the stream: the length field, then that many bytes
      and the CAS info. */
  function TakeResponse(stream: Bytes): (Received<Response>, Bytes) {
    var (head, rest) := TakeExact(stream, 4);
    match head
    case BadSize => (BadSize, rest)
    case ConnectionLost => (ConnectionLost, rest)
    case Complete(length) =>
      var (body, rest') := TakeExact(rest, ToInt(length) + CAS_INFO_SIZE);
      match body
      case BadSize => (BadSize, rest')
      case ConnectionLost => (ConnectionLost, rest')
      case Complete(b) => (Complete(Response(Slice(b, 0, 4), Slice(b, 4, |b|))), rest')
  }

  method ReceiveResponse(sock: Socket) returns (r: Received<Response>)
    requires sock.Valid()
    modifies sock
    ensures sock.Valid()
    ensures (r, sock.Stream()) == TakeResponse(old(sock.Stream()))
  {
    var length := RecvExact(sock, 4);
    if length.ConnectionLost? { return ConnectionLost; }
    if length.BadSize? { return BadSize; }
    var body := RecvExact(sock, ToInt(length.value) + CAS_INFO_SIZE);
    if body.ConnectionLost? { return ConnectionLost; }
    if body.BadSize? { return BadSize; }
    return Complete(Response(Slice(body.value, 0, 4), Slice(body.value, 4, |body.value|)));
  }

  // ---- The frame stream is self-delimiting --------------------------------------------------

  predicate FitsFrame(f: Response) {
    |f.cas| == 4 && |f.payload| < 0x8000_0000
  }

  /** Frames as Finalize builds them, one after the other. */
  function FrameStream(fs: seq<Response>): Bytes
    requires forall i :: 0 <= i < |fs| ==> FitsFrame(fs[i])
  {
    if fs == [] then [] else assert FitsFrame(fs[0]); Frame(fs[0].cas, fs[0].payload) + FrameStream(fs[1..])
  }

  /** Receiving where a frame starts gives that frame and not a byte of what follows. */
  lemma TakeFrame(f: Response, rest: Bytes)
    requires FitsFrame(f)
    ensures TakeResponse(Frame(f.cas, f.payload) + rest) == (Complete(f), rest)
  {
    var n := |f.payload|;
    var stream := Frame(f.cas, f.payload) + rest;
    assert stream[..4] == Int(n) && stream[4..] == f.cas + f.payload + rest;
    PackUnpack(n);
    var body := stream[4..];
    assert body[..n + 4] == f.cas + f.payload && body[n + 4..] == rest;
    assert (f.cas + f.payload)[0..4] == f.cas && (f.cas + f.payload)[4..] == f.payload;
  }

  /** The answers to count successive receives. */
  function TakeResponses(stream: Bytes, count: nat): (seq<Received<Response>>, Bytes)
    decreases count
  {
    if count == 0 then ([], stream)
    else
      var (r, rest) := TakeResponse(stream);
      var (rs, rest') := TakeResponses(rest, count - 1);
      ([r] + rs, rest')
  }

  /** Concatenated frames are received one by one, in order and whole, and what follows them
      is left untouched. */
  lemma {:induction false} FramesSelfDelimit(fs: seq<Response>, rest: Bytes)
    requires forall i :: 0 <= i < |fs| ==> FitsFrame(fs[i])
    ensures var (rs, left) := TakeResponses(FrameStream(fs) + rest, |fs|);
            left == rest && |rs| == |fs| && forall i :: 0 <= i < |fs| ==> rs[i] == Complete(fs[i])
    decreases |fs|
  {
    if fs == [] {
      assert FrameStream(fs) + rest == rest;
    } else {
      hide TakeResponse;
      var more := FrameStream(fs[1..]) + rest;
      assert FrameStream(fs) + rest == Frame(fs[0].cas, fs[0].payload) + more;
      TakeFrame(fs[0], more);
      FramesSelfDelimit(fs[1..], rest);
    }
  }

  /** Receiving a run of frames from a socket, whatever pieces they arrive in. */
  method ReceiveFrames(sock: Socket, ghost fs: seq<Response>, ghost rest: Bytes, count: nat)
    returns (rs: seq<Response>)
    requires sock.Valid() && count == |fs|
    requires forall i :: 0 <= i < |fs| ==> FitsFrame(fs[i])
    requires sock.Stream() == FrameStream(fs) + rest
    modifies sock
    ensures rs == fs && sock.Stream() == rest
  {
    rs := [];
    assert fs[0..] == fs;
    for i := 0 to count
      invariant sock.Valid() && rs == fs[..i] && sock.Stream() == FrameStream(fs[i..]) + rest
    {
      ghost var more := FrameStream(fs[i + 1..]) + rest;
      assert fs[i..][1..] == fs[i + 1..];
      assert sock.Stream() == Frame(fs[i].cas, fs[i].payload) + more;
      TakeFrame(fs[i], more);
      var r := ReceiveResponse(sock);
      rs := rs + [r.value];
      assert fs[..i + 1] == fs[..i] + [fs[i]];
    }
    assert fs[count..] == [] && FrameStream([]) + rest == rest;
    assert fs[..count] == fs;
  }
}
