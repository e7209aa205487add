/**
 The PinPoint driver's frame reader: a header, a little-endian size of 0, 1, 2 or 4 bytes
 and a body, read from a byte stream by three handlers that each wait for an exact number of
 bytes, and the same frame read from a datagram.
 */
module PinPointReader {
  import opened Bytes

  datatype Header = Header(control: byte, flag: nat, kind: nat, code: nat, id: byte)

  /** `extract_message_header`. */
  function HeaderOf(control: byte, id: byte): (h: Header)
    ensures h.code < 4
    ensures HeaderMeans(control, id, h)
  {
    Header(control, control / 128, control / 8 % 16, control % 4, id)
  }

  /** From the top bit down the control byte holds one flag bit, four bits of message type, a spare bit
      of either value and two bits of size code. */
  predicate HeaderMeans(control: byte, id: byte, h: Header) {
    && h.control == control && h.id == id
    && h.flag < 2 && h.kind < 16 && h.code < 4
    && control as int - (128 * h.flag + 8 * h.kind + h.code) in {0, 4}
  }

  /** That determines the header. */
  lemma HeaderUnique(control: byte, id: byte, h: Header, k: Header)
    requires HeaderMeans(control, id, h) && HeaderMeans(control, id, k)
    ensures h == k
  {
  }

  /** How many size bytes follow a header with the given size code. */
  function Width(code: nat): nat {
    if code == 0 then 0 else if code == 1 then 1 else if code == 2 then 2 else 4
  }

  /** `extract_size_to_read`. */
  function SizeOf(code: nat, s: seq<byte>): nat
    requires |s| >= Width(code)
  {
    if code == 0 then 0
    else if code == 1 then s[0]
    else if code == 2 then Word(s[1], s[0])
    else Word(s[3], s[2]) * 65536 + Word(s[1], s[0])
  }

  // ----- the reader -------------------------------------------------------------------------------------

  datatype Phase = ReadHeader | ReadSize | ReadBody(size: nat)

  datatype Received = Received(header: Header, data: seq<byte>)

  datatype State = State(phase: Phase, rx: seq<byte>, header: Header, queue: seq<Received>)

  /** How many bytes the pending read transfers. */
  function Need(s: State): nat {
    match s.phase
    case ReadHeader => 2
    case ReadSize => Width(s.header.code)
    case ReadBody(n) => n
  }

  /** The handler of the pending read, run on the bytes it transferred. */
  function Handled(s: State): State
    requires |s.rx| == Need(s)
  {
    match s.phase
    case ReadHeader =>
      var h := HeaderOf(s.rx[0], s.rx[1]);
      if h.code != 0 then State(ReadSize, [], h, s.queue)
      else State(ReadHeader, [], h, s.queue + [Received(h, [])])
    case ReadSize => s.(phase := ReadBody(SizeOf(s.header.code, s.rx)), rx := [])
    case ReadBody(_) => State(ReadHeader, [], s.header, s.queue + [Received(s.header, s.rx)])
  }

  /** A read of no bytes completes at once. */
  function Settled(s: State): State
    requires |s.rx| == Need(s)
  {
    var t := Handled(s);
    if t.phase == ReadBody(0) then Handled(t) else t
  }

  predicate Waiting(s: State) {
    |s.rx| < Need(s)
  }

  function Fed(s: State, b: byte): (t: State)
    requires Waiting(s)
    ensures Waiting(t)
  {
    var t := s.(rx := s.rx + [b]);
    if |t.rx| == Need(t) then Settled(t) else t
  }

  function Stream(s: State, bs: seq<byte>): (t: State)
    requires Waiting(s)
    ensures Waiting(t)
  {
    if bs == [] then s else Fed(Stream(s, bs[..|bs| - 1]), bs[|bs| - 1])
  }

  class Reader {
    var phase: Phase
    var tcpRx: seq<byte>
    var msgHeader: Header
    var recvQ: seq<Received>

    ghost function Model(): State
      reads this
    {
      State(phase, tcpRx, msgHeader, recvQ)
    }

    ghost predicate Valid()
      reads this
    {
      Waiting(Model())
    }

    constructor ()
      ensures Valid() && phase == ReadHeader && tcpRx == [] && recvQ == []
    {
      phase, tcpRx, msgHeader, recvQ := ReadHeader, [], HeaderOf(0, 0), [];
    }

    method HandleReadHeader()
      requires phase == ReadHeader && |tcpRx| == 2
      modifies this
      ensures Model() == Handled(old(Model()))
      ensures HeaderMeans(old(tcpRx)[0], old(tcpRx)[1], msgHeader)
    {
      var data := tcpRx;
      tcpRx := [];
      msgHeader := HeaderOf(data[0], data[1]);
      if msgHeader.code != 0 {
        phase := ReadSize;
      } else {
        recvQ := recvQ + [Received(msgHeader, [])];
        phase := ReadHeader;
      }
    }

    method HandleReadSize()
      requires phase == ReadSize && |tcpRx| == Width(msgHeader.code)
      modifies this
      ensures Model() == Handled(old(Model()))
    {
      var data := tcpRx;
      tcpRx := [];
      phase := ReadBody(SizeOf(msgHeader.code, data));
    }

    method HandleReadMsg()
      requires phase.ReadBody? && |tcpRx| == phase.size
      modifies this
      ensures Model() == Handled(old(Model()))
    {
      var data := tcpRx;
      tcpRx := [];
      recvQ := recvQ + [Received(msgHeader, data)];
      phase := ReadHeader;
    }

    /** One byte off the socket: the pending read's handler runs when it has all of its own. */
    method Feed(b: byte)
      requires Valid()
      modifies this
      ensures Valid() && Model() == Fed(old(Model()), b)
    {
      tcpRx := tcpRx + [b];
      if phase == ReadHeader {
        if |tcpRx| == 2 { HandleReadHeader(); }
      } else if phase == ReadSize {
        if |tcpRx| == Width(msgHeader.code) {
          HandleReadSize();
          if phase == ReadBody(0) { HandleReadMsg(); }
        }
      } else if |tcpRx| == phase.size {
        HandleReadMsg();
      }
    }
  }

  // ----- the encoder -----------------------------------------------------------------------------------------

  datatype Frame = Frame(control: byte, id: byte, payload: seq<byte>)

  function SizeBytes(code: nat, n: nat): (s: seq<byte>)
    requires code < 4 && Announces(code, n)
    ensures |s| == Width(code) && SizeOf(code, s) == n
  {
    if code == 0 then []
    else if code == 1 then [n]
    else if code == 2 then [n % 256, n / 256]
    else
      FourBytes(n);
      [n % 256, n / 256 % 256, n / 65536 % 256, n / 16777216]
  }

  lemma FourBytes(n: nat)
    requires n < 4294967296
    ensures n / 16777216 < 256
    ensures Word(n / 16777216, n / 65536 % 256) * 65536 + Word(n / 256 % 256, n % 256) == n
  {
    var hi, lo := n / 65536, n % 65536;
    var b3, b2, b1, b0 := hi / 256, hi % 256, lo / 256, lo % 256;
    TopByte(b3, 65536 * b2 + lo);
    LowBytes(hi, b1, b0);
  }

  lemma TopByte(q: nat, r: nat)
    requires r < 16777216
    ensures (16777216 * q + r) / 16777216 == q
  {
  }

  lemma LowBytes(hi: nat, b1: nat, b0: nat)
    requires b1 < 256 && b0 < 256
    ensures var n := 65536 * hi + 256 * b1 + b0; n / 256 % 256 == b1 && n % 256 == b0
  {
    var n := 65536 * hi + 256 * b1 + b0;
    assert n / 256 == 256 * hi + b1;
  }

  /** The size code can announce a body of `n` bytes. */
  predicate Announces(code: nat, n: nat) {
    if code == 0 then n == 0
    else if code == 1 then n < 256
    else if code == 2 then n < 65536
    else n < 4294967296
  }

  predicate Encodable(f: Frame) {
    Announces(f.control % 4, |f.payload|)
  }

  function Encoded(f: Frame): (s: seq<byte>)
    requires Encodable(f)
  {
    [f.control, f.id] + SizeBytes(f.control % 4, |f.payload|) + f.payload
  }

  function ReceivedOf(f: Frame): Received {
    Received(HeaderOf(f.control, f.id), f.payload)
  }

  // ----- one frame ------------------------------------------------------------------------------------------------

  lemma {:induction false} StreamConcat(s: State, a: seq<byte>, b: seq<byte>)
    requires Waiting(s)
    ensures Stream(s, a + b) == Stream(Stream(s, a), b)
  {
    if b == [] {
      assert a + b == a;
    } else {
      hide Fed, Waiting;
      var n := |b| - 1;
      assert (a + b)[..|a| + n] == a + b[..n];
      assert (a + b)[|a| + n] == b[n];
      StreamConcat(s, a, b[..n]);
    }
  }

  /** Bytes that do not complete the pending read are only collected. */
  lemma {:induction false} Collects(s: State, bs: seq<byte>)
    requires Waiting(s) && |s.rx| + |bs| < Need(s)
    ensures Stream(s, bs) == s.(rx := s.rx + bs)
  {
    if bs == [] {
      assert s.rx + bs == s.rx;
    } else {
      var n := |bs| - 1;
      Collects(s, bs[..n]);
      assert s.rx + bs[..n] + [bs[n]] == s.rx + bs;
    }
  }

  /** Bytes that exactly complete the pending read run its handler on all of them. */
  lemma Completes(s: State, bs: seq<byte>)
    requires Waiting(s) && s.rx == [] && |bs| == Need(s)
    ensures Stream(s, bs) == Settled(s.(rx := bs))
  {
    hide Settled, Stream, Fed;
    var n := |bs| - 1;
    Collects(s, bs[..n]);
    StreamSnoc(s, bs);
    assert s.rx + bs[..n] == bs[..n];
    LastFed(s, bs);
  }

  lemma StreamSnoc(s: State, bs: seq<byte>)
    requires Waiting(s) && bs != []
    ensures Stream(s, bs) == Fed(Stream(s, bs[..|bs| - 1]), bs[|bs| - 1])
  {
  }

  lemma LastFed(s: State, bs: seq<byte>)
    requires bs != [] && |bs| == Need(s)
    ensures Fed(s.(rx := bs[..|bs| - 1]), bs[|bs| - 1]) == Settled(s.(rx := bs))
  {
    hide Settled;
    assert bs[..|bs| - 1] + [bs[|bs| - 1]] == bs;
  }

  /** The state between frames. */
  predicate Ready(s: State) {
    s.phase == ReadHeader && s.rx == []
  }

  function After(s: State, f: Frame): State {
    State(ReadHeader, [], HeaderOf(f.control, f.id), s.queue + [ReceivedOf(f)])
  }

  lemma AfterHeader(s: State, f: Frame)
    requires Ready(s)
    ensures Stream(s, [f.control, f.id]) ==
            var h := HeaderOf(f.control, f.id);
            if h.code == 0 then State(ReadHeader, [], h, s.queue + [Received(h, [])])
            else State(ReadSize, [], h, s.queue)
  {
    hide Stream;
    Completes(s, [f.control, f.id]);
  }

  lemma AfterSize(s: State, f: Frame)
    requires Encodable(f) && f.control % 4 != 0
    requires s.phase == ReadSize && s.rx == [] && s.header == HeaderOf(f.control, f.id)
    ensures Waiting(s)
    ensures Stream(s, SizeBytes(f.control % 4, |f.payload|)) ==
            if f.payload == [] then After(s, f) else State(ReadBody(|f.payload|), [], s.header, s.queue)
  {
    hide Stream, SizeBytes, SizeOf;
    Completes(s, SizeBytes(f.control % 4, |f.payload|));
  }

  lemma AfterBody(s: State, f: Frame)
    requires s.phase == ReadBody(|f.payload|) && s.rx == [] && s.header == HeaderOf(f.control, f.id)
    requires f.payload != []
    ensures Waiting(s) && Stream(s, f.payload) == After(s, f)
  {
    hide Stream;
    Completes(s, f.payload);
  }

  lemma OneFrame(s: State, f: Frame)
    requires Ready(s) && Encodable(f)
    ensures Stream(s, Encoded(f)) == After(s, f)
  {
    hide Stream, SizeBytes, HeaderOf;
    var head, size := [f.control, f.id], SizeBytes(f.control % 4, |f.payload|);
    CodeOf(f);
    StreamConcat(s, head + size, f.payload);
    StreamConcat(s, head, size);
    AfterHeader(s, f);
    if f.control % 4 == 0 {
      assert size == [] && f.payload == [];
      StreamNone(Stream(s, head));
    } else {
      AfterSize(Stream(s, head), f);
      if f.payload == [] {
        StreamNone(Stream(s, head + size));
      } else {
        AfterBody(Stream(s, head + size), f);
      }
    }
  }

  lemma CodeOf(f: Frame)
    ensures HeaderOf(f.control, f.id).code == f.control % 4
  {
  }

  lemma StreamNone(s: State)
    requires Waiting(s)
    ensures Stream(s, []) == s
  {
  }

  // ----- any sequence of frames ---------------------------------------------------------------------------------------

  predicate AllEncodable(fs: seq<Frame>) {
    forall i :: 0 <= i < |fs| ==> Encodable(fs[i])
  }

  function EncodedAll(fs: seq<Frame>): seq<byte>
    requires AllEncodable(fs)
  {
    if fs == [] then [] else EncodedAll(fs[..|fs| - 1]) + Encoded(fs[|fs| - 1])
  }

  function ReceivedAll(fs: seq<Frame>): (r: seq<Received>)
    ensures |r| == |fs| && forall i :: 0 <= i < |fs| ==> r[i] == ReceivedOf(fs[i])
  {
    seq(|fs|, i requires 0 <= i < |fs| => ReceivedOf(fs[i]))
  }

  lemma ReceivedSnoc(q: seq<Received>, fs: seq<Frame>)
    requires fs != []
    ensures q + ReceivedAll(fs) == q + ReceivedAll(fs[..|fs| - 1]) + [ReceivedOf(fs[|fs| - 1])]
  {
  }

  /** For every sequence of frames the reader, run over their concatenated encodings, queues
      exactly that sequence of headers and payloads and stands between frames again. */
  lemma {:induction false} StreamReadsBack(s: State, fs: seq<Frame>)
    requires Ready(s) && AllEncodable(fs)
    ensures Ready(Stream(s, EncodedAll(fs)))
    ensures Stream(s, EncodedAll(fs)).queue == s.queue + ReceivedAll(fs)
  {
    hide Encoded, Stream, ReceivedOf;
    if fs == [] {
      StreamNone(s);
      assert s.queue + ReceivedAll(fs) == s.queue;
    } else {
      var n := |fs| - 1;
      StreamReadsBack(s, fs[..n]);
      StreamConcat(s, EncodedAll(fs[..n]), Encoded(fs[n]));
      OneFrame(Stream(s, EncodedAll(fs[..n])), fs[n]);
      ReceivedSnoc(s.queue, fs);
    }
  }

  /** A stream cut anywhere inside a frame has queued exactly the frames before it. */
  lemma CutStream(s: State, fs: seq<Frame>, f: Frame, k: nat)
    requires Ready(s) && AllEncodable(fs) && Encodable(f) && k < |Encoded(f)|
    ensures Stream(s, EncodedAll(fs) + Encoded(f)[..k]).queue == s.queue + ReceivedAll(fs)
  {
    hide Stream, Encoded;
    StreamReadsBack(s, fs);
    StreamConcat(s, EncodedAll(fs), Encoded(f)[..k]);
    PartialFrame(Stream(s, EncodedAll(fs)), f, k);
  }

  lemma PartialFrame(s: State, f: Frame, k: nat)
    requires Ready(s) && Encodable(f) && k < |Encoded(f)|
    ensures Stream(s, Encoded(f)[..k]).queue == s.queue
  {
    hide Stream, SizeBytes, HeaderOf;
    var head, size := [f.control, f.id], SizeBytes(f.control % 4, |f.payload|);
    var w := |size|;
    CodeOf(f);
    if k < 2 {
      Collects(s, Encoded(f)[..k]);
    } else {
      AfterHeader(s, f);
      var t := Stream(s, head);
      if k < 2 + w {
        assert Encoded(f)[..k] == head + size[..k - 2];
        StreamConcat(s, head, size[..k - 2]);
        Collects(t, size[..k - 2]);
      } else {
        assert Encoded(f)[..k] == head + size + f.payload[..k - 2 - w];
        StreamConcat(s, head + size, f.payload[..k - 2 - w]);
        StreamConcat(s, head, size);
        AfterSize(t, f);
        Collects(Stream(t, size), f.payload[..k - 2 - w]);
      }
    }
  }

  // ----- datagrams ---------------------------------------------------------------------------------------------------------

  const BUFFER: nat := 2048

  /** Where the code takes the body of a datagram to end: behind as many bytes as the size code
      says, not as the size field has. */
  function BodyEnd(buffer: seq<byte>): nat
    requires |buffer| == BUFFER
  {
    2 + buffer[0] % 4 + SizeOf(buffer[0] % 4, buffer[2..])
  }

  /** A datagram is ignored, queued, or makes the code read outside its buffer. */
  datatype UdpRead = Ignored | Queued(message: Received) | ReadOutside

  /** What `handle_udp_read` does with a datagram of `n` bytes. */
  method HandleUdpRead(n: nat, buffer: seq<byte>) returns (r: UdpRead)
    requires |buffer| == 2048
    ensures r == Ignored <==> n == 0
    ensures r == ReadOutside <==> n > 0 && BodyEnd(buffer) > 2048
    ensures r.Queued? ==> r.message == Datagram(buffer) && HeaderMeans(buffer[0], buffer[1], r.message.header)
  {
    if n == 0 {
      return Ignored;
    }
    var h := HeaderOf(buffer[0], buffer[1]);
    var size := SizeOf(h.code, buffer[2..]);
    if 2 + h.code + size > |buffer| {
      return ReadOutside;
    }
    r := Queued(Received(h, buffer[2 + h.code..2 + h.code + size]));
  }

  function Datagram(buffer: seq<byte>): Received
    requires |buffer| == BUFFER && BodyEnd(buffer) <= BUFFER
  {
    var h := HeaderOf(buffer[0], buffer[1]);
    Received(h, buffer[2 + h.code..BodyEnd(buffer)])
  }

  /** The number of bytes that arrived is not compared with the announced size: what is missing
      at the end of a datagram comes from what the buffer held before. */
  lemma DatagramBytes(d: seq<byte>, stale: seq<byte>)
    requires |d| > 0 && |d + stale| == BUFFER && BodyEnd(d + stale) <= BUFFER
    ensures var start, end, n := 2 + d[0] % 4, BodyEnd(d + stale), |d|;
            Datagram(d + stale).data ==
            if end <= n then d[start..end]
            else if start <= n then d[start..] + stale[..end - n]
            else stale[start - n..end - n]
  {
    hide SizeOf;
    SliceOfJoin(d, stale, 2 + d[0] % 4, BodyEnd(d + stale));
  }

  lemma SliceOfJoin(d: seq<byte>, stale: seq<byte>, start: nat, end: nat)
    requires start <= end <= |d + stale|
    ensures (d + stale)[start..end] ==
            if end <= |d| then d[start..end]
            else if start <= |d| then d[start..] + stale[..end - |d|]
            else stale[start - |d|..end - |d|]
  {
  }

  /** Header and size field are complete. */
  predicate SizeArrived(d: seq<byte>) {
    |d| > 0 && 2 + Width(d[0] % 4) <= |d|
  }

  lemma OwnSize(d: seq<byte>, stale: seq<byte>, stale': seq<byte>)
    requires SizeArrived(d) && |d + stale| == BUFFER && |d + stale'| == BUFFER
    ensures BodyEnd(d + stale) == BodyEnd(d + stale')
  {
    hide SizeOf;
    var code := d[0] % 4;
    SizeInFront(d, stale, code);
    SizeInFront(d, stale', code);
  }

  lemma SizeInFront(d: seq<byte>, stale: seq<byte>, code: nat)
    requires code < 4 && 2 + Width(code) <= |d|
    ensures SizeOf(code, (d + stale)[2..]) == SizeOf(code, d[2..2 + Width(code)])
  {
    hide SizeOf;
    var w := Width(code);
    JoinTail(d, stale, w);
    SizePrefix(code, d[2..2 + w], d[2 + w..] + stale);
  }

  lemma JoinTail(d: seq<byte>, stale: seq<byte>, w: nat)
    requires 2 + w <= |d|
    ensures (d + stale)[2..] == d[2..2 + w] + (d[2 + w..] + stale)
  {
  }

  /** The same message whatever the buffer held before. */
  ghost predicate OwnMessage(d: seq<byte>, stale: seq<byte>)
    requires |d + stale| == BUFFER && BodyEnd(d + stale) <= BUFFER
  {
    forall other: seq<byte> :: |other| == |stale| && BodyEnd(d + other) <= BUFFER ==>
      Datagram(d + other) == Datagram(d + stale)
  }

  /** A datagram with a complete size field determines what is queued if and only if it is as
      long as it announces. */
  lemma OwnMessageIff(d: seq<byte>, stale: seq<byte>)
    requires SizeArrived(d) && |d + stale| == BUFFER && BodyEnd(d + stale) <= BUFFER
    ensures OwnMessage(d, stale) <==> BodyEnd(d + stale) <= |d|
  {
    hide SizeOf, BodyEnd, Datagram;
    var n, end := |d|, BodyEnd(d + stale);
    if end <= n {
      forall other: seq<byte> | |other| == |stale| && BodyEnd(d + other) <= BUFFER
        ensures Datagram(d + other) == Datagram(d + stale)
      {
        OwnSize(d, stale, other);
        DatagramBytes(d, stale);
        DatagramBytes(d, other);
        DatagramHeader(d, stale);
        DatagramHeader(d, other);
      }
    } else {
      var e := end - 1 - n;
      var other := stale[e := if stale[e] == 0 then 1 else 0];
      OwnSize(d, stale, other);
      LastByte(d, stale);
      LastByte(d, other);
      assert Datagram(d + other) != Datagram(d + stale);
    }
  }

  lemma DatagramHeader(d: seq<byte>, stale: seq<byte>)
    requires |d| >= 2 && |d + stale| == BUFFER && BodyEnd(d + stale) <= BUFFER
    ensures Datagram(d + stale).header == HeaderOf(d[0], d[1])
  {
  }

  lemma LastByte(d: seq<byte>, stale: seq<byte>)
    requires SizeArrived(d) && |d + stale| == BUFFER && |d| < BodyEnd(d + stale) <= BUFFER
    ensures var data := Datagram(d + stale).data;
            |data| > 0 && data[|data| - 1] == stale[BodyEnd(d + stale) - 1 - |d|]
  {
    hide SizeOf;
  }

  lemma SizePrefix(code: nat, s: seq<byte>, t: seq<byte>)
    requires code < 4 && |s| == Width(code)
    ensures SizeOf(code, s + t) == SizeOf(code, s)
  {
  }

  lemma BufferSize(f: Frame, stale: seq<byte>)
    requires Encodable(f) && |Encoded(f) + stale| == BUFFER
    ensures var b := Encoded(f) + stale;
            && b[0] == f.control && b[1] == f.id
            && SizeOf(b[0] % 4, b[2..]) == |f.payload|
            && 2 + b[0] % 4 + |f.payload| <= BUFFER
  {
    hide SizeBytes, SizeOf;
    var b := Encoded(f) + stale;
    var size := SizeBytes(f.control % 4, |f.payload|);
    assert b[2..] == size + (f.payload + stale);
    SizePrefix(f.control % 4, size, f.payload + stale);
  }

  /** For size codes 0 to 2 a datagram, whatever the buffer held behind it, yields what the
      stream reader yields for the same frame. */
  lemma DatagramMatchesStream(f: Frame, stale: seq<byte>)
    requires Encodable(f) && f.control % 4 <= 2 && |Encoded(f) + stale| == BUFFER
    ensures var b := Encoded(f) + stale;
            && BodyEnd(b) <= BUFFER
            && Datagram(b) == ReceivedOf(f)
  {
    hide SizeBytes, SizeOf;
    var b, w := Encoded(f) + stale, f.control % 4;
    BufferSize(f, stale);
    assert b[2 + w..2 + w + |f.payload|] == f.payload;
  }

  lemma TopByteZero(n: nat)
    requires n <= BUFFER && Announces(3, n)
    ensures SizeBytes(3, n)[3] == 0
  {
  }

  /** The body as read: the top byte of the size, then the payload without its last byte. */
  lemma EarlyBody(f: Frame, stale: seq<byte>)
    requires Encodable(f) && f.control % 4 == 3 && |Encoded(f) + stale| == BUFFER
    ensures (Encoded(f) + stale)[5..5 + |f.payload|] == ([0] + f.payload)[..|f.payload|]
  {
    hide SizeBytes, SizeOf;
    var n := |f.payload|;
    var size := SizeBytes(3, n);
    TopByteZero(n);
    OneByteEarly([f.control, f.id] + size, f.payload, stale);
    assert Encoded(f) == [f.control, f.id] + size + f.payload;
  }

  lemma OneByteEarly(head: seq<byte>, payload: seq<byte>, stale: seq<byte>)
    requires |head| == 6
    ensures (head + payload + stale)[5..5 + |payload|] == ([head[5]] + payload)[..|payload|]
  {
  }

  /** Shifting a zero in leaves a payload as it is exactly when it is all zero. */
  lemma ShiftedIff(s: seq<byte>)
    ensures ([0] + s)[..|s|] == s <==> forall i :: 0 <= i < |s| ==> s[i] == 0
  {
    var t := ([0] + s)[..|s|];
    if t == s {
      forall i | 0 <= i < |s|
        ensures s[i] == 0
      {
        assert forall k :: 1 <= k < |s| ==> s[k] == t[k] == s[k - 1];
        assert s[0] == t[0] == 0;
        ZeroAt(s, i);
      }
    }
  }

  lemma {:induction false} ZeroAt(s: seq<byte>, k: nat)
    requires k < |s| && s[0] == 0
    requires forall i :: 1 <= i < |s| ==> s[i] == s[i - 1]
    ensures s[k] == 0
  {
    if k > 0 {
      ZeroAt(s, k - 1);
    }
  }

  /** For size code 3 the body is read one byte early, so it comes out right exactly when every
      byte of the payload is zero, as the top byte of its size is. */
  lemma DatagramOfCodeThree(f: Frame, stale: seq<byte>)
    requires Encodable(f) && f.control % 4 == 3 && |Encoded(f) + stale| == BUFFER
    ensures var b := Encoded(f) + stale;
            && BodyEnd(b) <= BUFFER
            && (Datagram(b) == ReceivedOf(f) <==> forall i :: 0 <= i < |f.payload| ==> f.payload[i] == 0)
  {
    hide SizeOf, SizeBytes, Encoded;
    BufferSize(f, stale);
    EarlyBody(f, stale);
    ShiftedIff(f.payload);
  }
}
