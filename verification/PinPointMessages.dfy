/**
 PinPoint messages by their meaning: flag, type, size code and identifier of every message sent
 come back from the stream and from datagrams, whatever the spare bit.
 */
module PinPointMessages {
  import opened Bytes
  import opened PinPointReader

  datatype Message = Message(flag: nat, kind: nat, spare: nat, code: nat, id: byte, payload: seq<byte>)

  predicate Sendable(m: Message) {
    m.flag < 2 && m.kind < 16 && m.spare < 2 && m.code < 4 && Announces(m.code, |m.payload|)
  }

  function FrameOf(m: Message): (f: Frame)
    requires Sendable(m)
    ensures Encodable(f)
  {
    Frame(128 * m.flag + 8 * m.kind + 4 * m.spare + m.code, m.id, m.payload)
  }

  /** `r` is the message as received. */
  predicate Delivered(m: Message, r: Received) {
    && r.header.flag == m.flag && r.header.kind == m.kind && r.header.code == m.code
    && r.header.id == m.id && r.data == m.payload
  }

  lemma FieldsComeBack(m: Message)
    requires Sendable(m)
    ensures Delivered(m, ReceivedOf(FrameOf(m)))
  {
    hide HeaderOf;
    var f := FrameOf(m);
    HeaderUnique(f.control, f.id, HeaderOf(f.control, f.id), Header(f.control, m.flag, m.kind, m.code, m.id));
  }

  /** `n` in no, one, two or four bytes, the lowest first. */
  predicate LowestFirst(code: nat, n: nat, s: seq<byte>) {
    if code == 0 then |s| == 0 && n == 0
    else if code == 1 then |s| == 1 && n == s[0]
    else if code == 2 then |s| == 2 && n == s[0] as int + 256 * s[1] as int
    else
      && |s| == 4
      && n == s[0] as int + 256 * s[1] as int + 65536 * s[2] as int + 16777216 * s[3] as int
  }

  lemma SizeLowestFirst(code: nat, n: nat)
    requires code < 4 && Announces(code, n)
    ensures LowestFirst(code, n, SizeBytes(code, n))
  {
    var s := SizeBytes(code, n);
    hide SizeBytes;
    assert |s| == Width(code) && SizeOf(code, s) == n;
  }

  /** The bytes of a message: the control byte with its fields, the identifier, the payload's length
      and the payload. */
  lemma WireFormat(m: Message) returns (size: seq<byte>)
    requires Sendable(m)
    ensures Encoded(FrameOf(m)) ==
            [128 * m.flag + 8 * m.kind + 4 * m.spare + m.code, m.id] + size + m.payload
    ensures LowestFirst(m.code, |m.payload|, size)
  {
    hide SizeBytes, LowestFirst;
    size := SizeBytes(m.code, |m.payload|);
    CodeOfControl(m);
    SizeLowestFirst(m.code, |m.payload|);
  }

  function FramesOf(ms: seq<Message>): (fs: seq<Frame>)
    requires forall i :: 0 <= i < |ms| ==> Sendable(ms[i])
    ensures |fs| == |ms| && forall i :: 0 <= i < |ms| ==> fs[i] == FrameOf(ms[i])
    ensures AllEncodable(fs)
  {
    seq(|ms|, i requires 0 <= i < |ms| => FrameOf(ms[i]))
  }

  /** For every sequence of messages, the reader queues them all, in order, with their flags, types,
      codes, identifiers and payloads. */
  lemma StreamDelivers(s: State, ms: seq<Message>)
    requires Ready(s) && forall i :: 0 <= i < |ms| ==> Sendable(ms[i])
    ensures var q := Stream(s, EncodedAll(FramesOf(ms))).queue;
            && |q| == |s.queue| + |ms| && q[..|s.queue|] == s.queue
            && forall i :: 0 <= i < |ms| ==> Delivered(ms[i], q[|s.queue| + i])
  {
    hide Stream, Delivered, FrameOf, ReceivedOf;
    var fs := FramesOf(ms);
    StreamReadsBack(s, fs);
    var q := Stream(s, EncodedAll(fs)).queue;
    assert q == s.queue + ReceivedAll(fs);
    forall i | 0 <= i < |ms|
      ensures Delivered(ms[i], q[|s.queue| + i])
    {
      FieldsComeBack(ms[i]);
      assert q[|s.queue| + i] == ReceivedAll(fs)[i] == ReceivedOf(FrameOf(ms[i]));
    }
  }

  /** So does a datagram with a size code of 0 to 2, whatever its buffer held before. */
  lemma DatagramDelivers(m: Message, stale: seq<byte>)
    requires Sendable(m) && m.code <= 2 && |Encoded(FrameOf(m)) + stale| == 2048
    ensures var b := Encoded(FrameOf(m)) + stale;
            BodyEnd(b) <= 2048 && Delivered(m, Datagram(b))
  {
    hide Encoded, Delivered, ReceivedOf, Datagram, BodyEnd;
    FieldsComeBack(m);
    CodeOfControl(m);
    DatagramMatchesStream(FrameOf(m), stale);
  }

  lemma CodeOfControl(m: Message)
    requires Sendable(m)
    ensures FrameOf(m).control % 4 == m.code
  {
  }
}
