/** Message framing (src/SocketIO/Writer.cpp, Reader.cpp, src/Requests/Request.cpp): four bytes
    of length, four of header, then the payload, through buffers that are reused. */
module Framing {
  import opened Cards

  type byte = x: int | 0 <= x < 256
  type uint32 = x: int | 0 <= x < 0x1_0000_0000

  const NUL: byte := 0

  /** `data` is the memory from the request's pointer on; only the first dataLen bytes are sent. */
  datatype Request = Request(header: uint32, dataLen: uint32, data: seq<byte>) {
    ghost predicate Readable() {
      dataLen <= |data|
    }

    ghost function Payload(): seq<byte>
      requires Readable()
    {
      data[..dataLen]
    }

    /** Request::str: the bytes up to the first NUL. */
    function Str(): seq<byte>
      requires NUL in data
    {
      UpToNul(data)
    }
  }

  function UpToNul(data: seq<byte>): (s: seq<byte>)
    requires NUL in data
    ensures s < data && NUL !in s && data[|s|] == NUL
  {
    if data[0] == NUL then [] else [data[0]] + UpToNul(data[1..])
  }

  /** The string constructor: the length is cut to 32 bits, and c_str ends in a NUL. */
  function OfString(header: uint32, s: seq<byte>): Request {
    Request(header, |s| % 0x1_0000_0000, s + [NUL])
  }

  // ---- The format ----

  /** How the host, little-endian, lays a 32-bit integer out in memory. */
  function Bytes4(n: uint32): (b: seq<byte>)
    ensures |b| == 4
  {
    [n % 0x100, n / 0x100 % 0x100, n / 0x1_0000 % 0x100, n / 0x100_0000]
  }

  function Value4(b: seq<byte>): uint32
    requires |b| == 4
  {
    b[0] as int + 0x100 * b[1] as int + 0x1_0000 * b[2] as int + 0x100_0000 * b[3] as int
  }

  lemma IntegerRoundTrip(n: uint32)
    ensures Value4(Bytes4(n)) == n
  {
    assert n / 0x1_0000 == n / 0x100 / 0x100;
    assert n / 0x100_0000 == n / 0x1_0000 / 0x100;
  }

  ghost function Frame(r: Request): seq<byte>
    requires r.Readable()
  {
    Bytes4(r.dataLen) + Bytes4(r.header) + r.Payload()
  }

  /** The layout of a frame: length and header, lowest byte first, and then the payload. */
  lemma FrameLayout(r: Request)
    requires r.Readable()
    ensures var f := Frame(r);
      && |f| == 8 + r.dataLen
      && f[0] as int + 0x100 * f[1] as int + 0x1_0000 * f[2] as int + 0x100_0000 * f[3] as int == r.dataLen
      && f[4] as int + 0x100 * f[5] as int + 0x1_0000 * f[6] as int + 0x100_0000 * f[7] as int == r.header
      && f[8..] == r.data[..r.dataLen]
  {
    IntegerRoundTrip(r.dataLen);
    IntegerRoundTrip(r.header);
    var f := Frame(r);
    assert Bytes4(r.dataLen) == [f[0], f[1], f[2], f[3]];
    assert Bytes4(r.header) == [f[4], f[5], f[6], f[7]];
  }

  datatype Message = Message(header: uint32, payload: seq<byte>)

  /** The first message of a stream and what follows it; None unless all of it is there. */
  function Parse(stream: seq<byte>): Option<(Message, seq<byte>)> {
    if |stream| < 8 then None
    else
      var len := Value4(stream[..4]);
      if |stream| < 8 + len then None
      else Some((Message(Value4(stream[4..8]), stream[8..8 + len]), stream[8 + len..]))
  }

  // ---- The reused buffers ----

  /** vector::resize to a larger size. */
  function Grow(buf: seq<byte>, n: nat): (r: seq<byte>)
    requires n >= |buf|
    ensures |r| == n && buf <= r
  {
    buf + seq(n - |buf|, _ => NUL)
  }

  /** memcpy into a buffer. */
  function Overwrite(buf: seq<byte>, at: nat, data: seq<byte>): (r: seq<byte>)
    requires at + |data| <= |buf|
    ensures |r| == |buf| && r[at..at + |data|] == data && r[..at] == buf[..at]
    ensures r[at + |data|..] == buf[at + |data|..]
  {
    buf[..at] + data + buf[at + |data|..]
  }

  /** One direction of a connection: the bytes written and not yet read. */
  class Socket {
    var stream: seq<byte>

    method Send(data: seq<byte>)
      modifies this
      ensures stream == old(stream) + data
    {
      stream := stream + data;
    }

    /** A read that gets everything it asks for, if that much is there. */
    method Receive(n: nat) returns (data: seq<byte>)
      modifies this
      ensures data + stream == old(stream)
      ensures |data| == if n <= |old(stream)| then n else |old(stream)|
    {
      var m := if n <= |stream| then n else |stream|;
      data, stream := stream[..m], stream[m..];
    }
  }

  class Writer {
    var buf: seq<byte>

    /** Whatever the buffer held before, exactly one frame goes out. */
    method Write(socket: Socket, request: Request)
      requires request.Readable()
      modifies this, socket
      ensures socket.stream == old(socket.stream) + Frame(request)
      ensures |buf| >= |old(buf)|
    {
      var requiredBufLen := request.dataLen + 4 + 4 + 1;
      if |buf| < requiredBufLen {
        buf := Grow(buf, requiredBufLen);
      }
      var data := request.data[..request.dataLen];
      buf := Overwrite(buf, 0, Bytes4(request.dataLen));
      buf := Overwrite(buf, 4, Bytes4(request.header));
      assert buf[..8] == Bytes4(request.dataLen) + Bytes4(request.header);
      buf := Overwrite(buf, 8, data);
      assert buf[..8 + request.dataLen] == buf[..8] + buf[8..8 + |data|];
      socket.Send(buf[..4 + 4 + request.dataLen]);
    }

    /** The same request to every socket, in turn; a socket listed twice gets it twice. */
    method Broadcast(sockets: seq<Socket>, request: Request)
      requires request.Readable()
      modifies this, sockets
      ensures forall s :: s in sockets ==> s.stream == old(s.stream) + Times(Frame(request), multiset(sockets)[s])
    {
      ghost var before := map s | s in sockets :: s.stream;
      for i := 0 to |sockets|
        invariant forall s :: s in sockets ==> s.stream == before[s] + Share(Frame(request), sockets[..i], s)
      {
        assert sockets[..i + 1][..i] == sockets[..i];
        Write(sockets[i], request);
      }
      assert sockets[..|sockets|] == sockets;
      forall s | s in sockets ensures s.stream == before[s] + Times(Frame(request), multiset(sockets)[s]) {
        ShareIsTimes(Frame(request), sockets, s);
      }
    }
  }

  /** What one of these sockets gets when each of them, in turn, is sent the bytes. */
  ghost function Share(bytes: seq<byte>, sockets: seq<Socket>, s: Socket): seq<byte> {
    if sockets == [] then []
    else
      var n := |sockets| - 1;
      if sockets[n] == s then Share(bytes, sockets[..n], s) + bytes else Share(bytes, sockets[..n], s)
  }

  function Times(bytes: seq<byte>, n: nat): seq<byte> {
    if n == 0 then [] else Times(bytes, n - 1) + bytes
  }

  lemma {:induction false} ShareIsTimes(bytes: seq<byte>, sockets: seq<Socket>, s: Socket)
    ensures Share(bytes, sockets, s) == Times(bytes, multiset(sockets)[s])
  {
    if sockets != [] {
      var n := |sockets| - 1;
      ShareIsTimes(bytes, sockets[..n], s);
      assert sockets == sockets[..n] + [sockets[n]];
    }
  }

  class Reader {
    var buf: seq<byte>

    /** Reads one message into a request that may hold anything. 0 means that the other side has
        closed, perhaps in the middle of length and header, or that there is no payload. A payload
        cut short is handed over as far as it came. The data ends in a NUL whatever the buffer
        held before. */
    method Read(socket: Socket, was: Request) returns (code: int, request: Request)
      requires |socket.stream| >= 4 ==> Value4(socket.stream[..4]) < 0x8000_0000
      modifies this, socket
      ensures |buf| >= |old(buf)|
      ensures |old(socket.stream)| < 8 ==> code == 0 && socket.stream == []
      ensures |old(socket.stream)| >= 8 ==>
        && Arrives(old(socket.stream), code, request, socket.stream)
        && code < |request.data| && request.data[code] == NUL
    {
      request := was;
      ghost var all := socket.stream;
      var dataLen, header, got;
      dataLen, got := ReadInteger(socket, request.dataLen);
      if got == 0 {
        return 0, request;
      }
      header, got := ReadInteger(socket, request.header);
      if got == 0 {
        return 0, request.(dataLen := dataLen);
      }
      assert |all| >= 8 ==> all[4..][..4] == all[4..8] && all[4..][4..] == all[8..];
      code := ReadPayload(socket, dataLen);
      request := Request(header, dataLen, buf);
      assert |all| >= 8 ==> all[8..] == buf[..code] + socket.stream;
    }

    /** Four bytes over an integer; if fewer come, only as many of its bytes are replaced. */
    method ReadInteger(socket: Socket, was: uint32) returns (n: uint32, got: nat)
      modifies socket
      ensures got == if |old(socket.stream)| < 4 then |old(socket.stream)| else 4
      ensures socket.stream == old(socket.stream)[got..]
      ensures got == 4 ==> n == Value4(old(socket.stream)[..4])
    {
      var bytes := socket.Receive(4);
      got := |bytes|;
      n := Value4(Overwrite(Bytes4(was), 0, bytes));
      if got == 4 {
        assert Overwrite(Bytes4(was), 0, bytes) == bytes == old(socket.stream)[..4];
      }
    }

    method ReadPayload(socket: Socket, dataLen: uint32) returns (got: nat)
      requires dataLen < 0x8000_0000
      modifies this, socket
      ensures |buf| >= |old(buf)|
      ensures got == if dataLen <= |old(socket.stream)| then dataLen else |old(socket.stream)|
      ensures got < |buf| && buf[got] == NUL
      ensures old(socket.stream) == buf[..got] + socket.stream
    {
      var needed := (dataLen + 1) % 0x1_0000_0000;
      if needed > |buf| {
        buf := Grow(buf, needed);
      }
      var data := socket.Receive(dataLen);
      got := |data|;
      buf := Overwrite(buf, 0, data);
      buf := buf[got := NUL];
      assert buf[..got] == data;
    }
  }

  /** Length and header of the stream's first frame, and as much of the payload as there is. */
  ghost predicate Arrives(stream: seq<byte>, code: int, request: Request, rest: seq<byte>)
    requires |stream| >= 8
  {
    && request.dataLen == Value4(stream[..4]) && request.header == Value4(stream[4..8])
    && code == (if request.dataLen <= |stream| - 8 then request.dataLen else |stream| - 8)
    && code <= |request.data| && stream == stream[..8] + request.data[..code] + rest
  }

  // ---- Round trips ----

  /** The first frame of a stream is read back, and nothing beyond it is touched. */
  lemma {:induction false} FrameRoundTrip(r: Request, rest: seq<byte>)
    requires r.Readable()
    ensures Parse(Frame(r) + rest) == Some((Message(r.header, r.Payload()), rest))
  {
    var s := Frame(r) + rest;
    assert s[..4] == Bytes4(r.dataLen);
    assert s[4..8] == Bytes4(r.header);
    assert s[8..8 + r.dataLen] == r.Payload();
    assert s[8 + r.dataLen..] == rest;
    IntegerRoundTrip(r.dataLen);
    IntegerRoundTrip(r.header);
  }

  ghost predicate AllReadable(rs: seq<Request>) {
    forall i :: 0 <= i < |rs| ==> rs[i].Readable()
  }

  ghost function FrameAll(rs: seq<Request>): seq<byte>
    requires AllReadable(rs)
  {
    if rs == [] then [] else Frame(rs[0]) + FrameAll(rs[1..])
  }

  ghost function Messages(rs: seq<Request>): seq<Message>
    requires AllReadable(rs)
  {
    if rs == [] then [] else [Message(rs[0].header, rs[0].Payload())] + Messages(rs[1..])
  }

  /** Reading n messages off a stream. */
  ghost function ParseMany(stream: seq<byte>, n: nat): Option<(seq<Message>, seq<byte>)> {
    if n == 0 then Some(([], stream))
    else
      match Parse(stream)
      case None => None
      case Some((first, rest)) =>
        match ParseMany(rest, n - 1)
        case None => None
        case Some((more, end)) => Some(([first] + more, end))
  }

  lemma {:induction false} FirstOfMany(r: Request, stream: seq<byte>, n: nat)
    requires r.Readable() && n > 0
    ensures ParseMany(Frame(r) + stream, n) ==
      match ParseMany(stream, n - 1)
      case None => None
      case Some((more, end)) => Some(([Message(r.header, r.Payload())] + more, end))
  {
    FrameRoundTrip(r, stream);
  }

  /** Any requests written one after the other are read back in the same order, and the bytes
      that follow are left alone. */
  lemma {:induction false} StreamRoundTrip(rs: seq<Request>, rest: seq<byte>)
    requires AllReadable(rs)
    ensures ParseMany(FrameAll(rs) + rest, |rs|) == Some((Messages(rs), rest))
  {
    if rs == [] {
      assert FrameAll(rs) + rest == rest;
    } else {
      var stream := FrameAll(rs[1..]) + rest;
      assert FrameAll(rs) + rest == Frame(rs[0]) + stream;
      StreamRoundTrip(rs[1..], rest);
      FirstOfMany(rs[0], stream, |rs|);
    }
  }

  lemma Regroup(a: seq<byte>, b: seq<byte>, c: seq<byte>)
    ensures a + (b + c) == a + b + c
  {}

  lemma {:induction false} FrameAllAppend(rs: seq<Request>, r: Request)
    requires AllReadable(rs) && r.Readable()
    ensures FrameAll(rs + [r]) == FrameAll(rs) + Frame(r)
  {
    var all := rs + [r];
    if rs == [] {
      assert all[1..] == [];
      assert FrameAll(all) == Frame(r) + FrameAll([]);
    } else {
      assert all[1..] == rs[1..] + [r];
      FrameAllAppend(rs[1..], r);
      Regroup(Frame(rs[0]), FrameAll(rs[1..]), Frame(r));
    }
  }

  lemma {:induction false} MessagesAppend(rs: seq<Request>, r: Request)
    requires AllReadable(rs) && r.Readable()
    ensures Messages(rs + [r]) == Messages(rs) + [Message(r.header, r.Payload())]
  {
    var all := rs + [r];
    if rs == [] {
      assert all[1..] == [];
    } else {
      assert all[1..] == rs[1..] + [r];
      MessagesAppend(rs[1..], r);
    }
  }

  /** What the reader makes of the first frame when the whole of it is there. */
  lemma WholeFrameArrives(r: Request, more: seq<byte>, code: int, request: Request, rest: seq<byte>)
    requires r.Readable() && Arrives(Frame(r) + more, code, request, rest)
    ensures code == request.dataLen == r.dataLen && request.header == r.header
    ensures request.Readable() && request.Payload() == r.Payload() && rest == more
  {
    var stream := Frame(r) + more;
    FrameRoundTrip(r, more);
    assert stream[8..] == request.data[..code] + rest;
    assert stream[8..8 + code] == request.data[..code] && stream[8 + code..] == rest;
  }

  lemma FrameBegins(r: Request, more: seq<byte>)
    requires r.Readable()
    ensures |Frame(r) + more| >= 8 && Value4((Frame(r) + more)[..4]) == r.dataLen
  {
    assert (Frame(r) + more)[..4] == Bytes4(r.dataLen);
    IntegerRoundTrip(r.dataLen);
  }

  /** Requests the reader tells from a closed connection, and whose length is no negative int. */
  ghost predicate AllProper(rs: seq<Request>) {
    AllReadable(rs) && forall i :: 0 <= i < |rs| ==> 0 < rs[i].dataLen < 0x8000_0000
  }

  method WriteAll(writer: Writer, socket: Socket, requests: seq<Request>)
    requires AllReadable(requests)
    modifies writer, socket
    ensures socket.stream == old(socket.stream) + FrameAll(requests)
  {
    assert FrameAll(requests[..0]) == [];
    for i := 0 to |requests|
      invariant socket.stream == old(socket.stream) + FrameAll(requests[..i])
    {
      FrameAllAppend(requests[..i], requests[i]);
      assert requests[..i + 1] == requests[..i] + [requests[i]];
      writer.Write(socket, requests[i]);
    }
    assert requests[..|requests|] == requests;
  }

  /** The string is the request's payload exactly if that has no NUL in it. */
  ghost predicate Recovers(s: seq<byte>, request: Request)
    requires request.Readable()
  {
    s == request.Payload() <==> NUL !in request.Payload()
  }

  method ReadString(request: Request) returns (s: seq<byte>)
    requires request.Readable() && request.dataLen < |request.data| && request.data[request.dataLen] == NUL
    ensures Recovers(s, request)
  {
    StrUpToNul(request);
    s := request.Str();
  }

  /** Reads the next of the requests on the stream, or nothing if there is none. The data lies in the
      reader's buffer, so it is copied out before the next one is read: as it is, and as the string
      it stands for. */
  method ReadNext(reader: Reader, socket: Socket, was: Request, ghost left: seq<Request>)
    returns (code: int, request: Request, message: Message, s: seq<byte>)
    requires AllProper(left) && socket.stream == FrameAll(left)
    modifies reader, socket
    ensures code == 0 <==> left == []
    ensures left == [] ==> socket.stream == []
    ensures left != [] ==>
      message == Message(left[0].header, left[0].Payload()) && Recovers(s, left[0]) && socket.stream == FrameAll(left[1..])
  {
    if left != [] {
      FrameBegins(left[0], FrameAll(left[1..]));
    }
    code, request := reader.Read(socket, was);
    message, s := Message(0, []), [];
    if code != 0 {
      WholeFrameArrives(left[0], FrameAll(left[1..]), code, request, socket.stream);
      s := ReadString(request);
      message := Message(request.header, request.data[..request.dataLen]);
    }
  }

  lemma OneMoreRead(requests: seq<Request>, i: nat)
    requires AllReadable(requests) && i < |requests|
    ensures requests[i..][1..] == requests[i + 1..]
    ensures Messages(requests[..i + 1]) == Messages(requests[..i]) + [Message(requests[i].header, requests[i].Payload())]
  {
    MessagesAppend(requests[..i], requests[i]);
    assert requests[..i + 1] == requests[..i] + [requests[i]];
  }

  /** Reads until the reader answers 0. */
  method ReadAll(reader: Reader, socket: Socket, ghost requests: seq<Request>)
    returns (messages: seq<Message>, strings: seq<seq<byte>>)
    requires AllProper(requests) && socket.stream == FrameAll(requests)
    modifies reader, socket
    ensures messages == Messages(requests) && socket.stream == []
    ensures |strings| == |requests|
    ensures forall j :: 0 <= j < |requests| ==> Recovers(strings[j], requests[j])
  {
    messages, strings := [], [];
    ghost var i := 0;
    var code, request := 1, Request(0, 0, []);
    while code != 0
      invariant 0 <= i <= |requests|
      invariant messages == Messages(requests[..i]) && socket.stream == FrameAll(requests[i..])
      invariant |strings| == i
      invariant forall j :: 0 <= j < i ==> Recovers(strings[j], requests[j])
      invariant code == 0 ==> i == |requests|
      decreases |requests| - i, code != 0
    {
      var message, s;
      code, request, message, s := ReadNext(reader, socket, request, requests[i..]);
      if code != 0 {
        OneMoreRead(requests, i);
        messages, strings := messages + [message], strings + [s];
        i := i + 1;
      }
    }
    assert requests[..|requests|] == requests;
  }

  /** Any requests with a payload written one after the other through the writer's buffer are read
      back through the reader's buffer, all of them and in order, whatever both buffers held. */
  method Exchange(writer: Writer, reader: Reader, socket: Socket, requests: seq<Request>)
    returns (messages: seq<Message>, strings: seq<seq<byte>>)
    requires AllProper(requests) && socket.stream == []
    modifies writer, reader, socket
    ensures messages == Messages(requests) && socket.stream == []
    ensures |strings| == |requests|
    ensures forall j :: 0 <= j < |requests| ==> Recovers(strings[j], requests[j])
  {
    WriteAll(writer, socket, requests);
    messages, strings := ReadAll(reader, socket, requests);
  }

  lemma {:induction false} MessageAt(rs: seq<Request>, j: nat)
    requires AllReadable(rs) && j < |rs|
    ensures |Messages(rs)| == |rs| && Messages(rs)[j] == Message(rs[j].header, rs[j].Payload())
    decreases |rs|
  {
    if j > 0 {
      MessageAt(rs[1..], j - 1);
    } else if |rs| > 1 {
      MessageAt(rs[1..], 0);
    }
  }

  datatype Text = Text(header: uint32, text: seq<byte>)

  function OfTexts(texts: seq<Text>): (rs: seq<Request>)
    ensures |rs| == |texts| && forall j :: 0 <= j < |texts| ==> rs[j] == OfString(texts[j].header, texts[j].text)
  {
    seq(|texts|, j requires 0 <= j < |texts| => OfString(texts[j].header, texts[j].text))
  }

  /** String requests sent over a connection come back with their own headers and bytes, and as
      the strings they were where these have no NUL in them. */
  method ExchangeTexts(writer: Writer, reader: Reader, socket: Socket, texts: seq<Text>)
    returns (messages: seq<Message>, strings: seq<seq<byte>>)
    requires (forall j :: 0 <= j < |texts| ==> 0 < |texts[j].text| < 0x8000_0000) && socket.stream == []
    modifies writer, reader, socket
    ensures |messages| == |strings| == |texts| && socket.stream == []
    ensures forall j :: 0 <= j < |texts| ==>
      && messages[j] == Message(texts[j].header, texts[j].text)
      && (strings[j] == texts[j].text <==> NUL !in texts[j].text)
  {
    var requests := OfTexts(texts);
    forall j | 0 <= j < |texts|
      ensures requests[j].Readable() && requests[j].dataLen == |texts[j].text| && requests[j].Payload() == texts[j].text
    {
      assert requests[j] == OfString(texts[j].header, texts[j].text);
    }
    messages, strings := Exchange(writer, reader, socket, requests);
    assert forall j :: 0 <= j < |texts| ==> Recovers(strings[j], requests[j]);
    if texts != [] {
      MessageAt(requests, 0);
    }
    forall j | 0 <= j < |texts| ensures |messages| == |texts| && messages[j] == Message(texts[j].header, texts[j].text) {
      MessageAt(requests, j);
    }
  }

  lemma {:induction false} SomethingOnTheWire(rs: seq<Request>)
    requires AllReadable(rs)
    ensures FrameAll(rs) == [] <==> rs == []
  {
    if rs != [] {
      assert |Frame(rs[0])| >= 8;
    }
  }

  /** Two lists of requests look the same on the wire only if they carry the same messages. */
  lemma {:induction false} WireDeterminesMessages(a: seq<Request>, b: seq<Request>)
    requires AllReadable(a) && AllReadable(b) && FrameAll(a) == FrameAll(b)
    ensures Messages(a) == Messages(b)
    decreases |a|
  {
    SomethingOnTheWire(a);
    SomethingOnTheWire(b);
    if a != [] {
      FrameRoundTrip(a[0], FrameAll(a[1..]));
      FrameRoundTrip(b[0], FrameAll(b[1..]));
      WireDeterminesMessages(a[1..], b[1..]);
    }
  }

  /** A buffer with a NUL after the payload reads as the payload exactly if that has no NUL. */
  lemma StrUpToNul(r: Request)
    requires r.Readable() && r.dataLen < |r.data| && r.data[r.dataLen] == NUL
    ensures r.Str() == r.Payload() <==> NUL !in r.Payload()
  {
    var stale := r.data[r.dataLen + 1..];
    assert r.data == r.Payload() + [NUL] + stale;
  }

  /** A string sent through the string constructor keeps its header and bytes on the wire, and
      comes back from str exactly when it has no NUL in it, whatever stale bytes follow the
      terminator in the reader's buffer. */
  lemma StringRoundTrip(header: uint32, s: seq<byte>, received: Request, rest: seq<byte>)
    requires |s| < 0x1_0000_0000
    requires received.Readable() && received.Payload() == s
    requires received.dataLen < |received.data| && received.data[received.dataLen] == NUL
    ensures OfString(header, s).Readable()
    ensures Parse(Frame(OfString(header, s)) + rest) == Some((Message(header, s), rest))
    ensures received.Str() == s <==> NUL !in s
  {
    assert OfString(header, s).Payload() == s;
    FrameRoundTrip(OfString(header, s), rest);
    StrUpToNul(received);
  }
}
