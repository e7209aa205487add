/**
 `DSRCOBUClient::process`: scans a packet for the first offset at which two identifier
 bytes, a one- or two-byte length determinant (section 11.9 of ITU-T X.691) and the body
 it announces fit.
 */
module DsrcScanner {
  import opened Bytes
  import opened Options

  datatype Message = Message(id: nat, frame: seq<byte>)

  /** Two identifier bytes, a length determinant and exactly the body it announces. */
  predicate IsFrame(f: seq<byte>) {
    || (|f| >= 3 && 1 <= f[2] < 128 && |f| == 3 + f[2])
    || (|f| >= 4 && 128 <= f[2] < 192 && |f| == 4 + Word(f[2] - 128, f[3]))
  }

  function IdOf(f: seq<byte>): nat
    requires |f| >= 2
  {
    Word(f[0], f[1])
  }

  /** A frame of `n` bytes starts at offset `i`. */
  predicate FrameAt(p: seq<byte>, i: nat, n: nat) {
    i + n <= |p| && IsFrame(p[i..i + n])
  }

  ghost predicate StartsAt(p: seq<byte>, i: nat) {
    exists n: nat :: FrameAt(p, i, n)
  }

  lemma FrameLengthUnique(p: seq<byte>, i: nat, n: nat, m: nat)
    requires FrameAt(p, i, n) && FrameAt(p, i, m)
    ensures n == m
  {
    var f, g := p[i..i + n], p[i..i + m];
    assert f[2] == p[i + 2] == g[2];
    if f[2] >= 128 {
      assert f[3] == p[i + 3] == g[3];
    }
  }

  /** What the scan delivers: the frame at the least offset where one starts, if any. */
  ghost predicate Delivers(p: seq<byte>, r: Option<Message>) {
    match r
    case None => forall i: nat :: !StartsAt(p, i)
    case Some(m) => exists i: nat, n: nat :: IsFirst(p, i, n) && m == Message(IdOf(p[i..i + n]), p[i..i + n])
  }

  ghost predicate IsFirst(p: seq<byte>, i: nat, n: nat) {
    FrameAt(p, i, n) && |p[i..i + n]| >= 2 && forall k: nat :: k < i ==> !StartsAt(p, k)
  }

  lemma NoFrameBeyond(p: seq<byte>, i: nat)
    requires i + 3 >= |p|
    ensures !StartsAt(p, i)
  {
  }

  /** At an offset with three bytes after it, whether and how long a frame starts there. */
  lemma FrameAtIff(p: seq<byte>, i: nat, n: nat)
    requires i + 3 < |p|
    ensures FrameAt(p, i, n) <==>
            && i + n <= |p|
            && (|| (1 <= p[i + 2] < 128 && n == 3 + p[i + 2])
                || (128 <= p[i + 2] < 192 && n == 4 + Word(p[i + 2] - 128, p[i + 3])))
  {
    if i + n <= |p| {
      var f := p[i..i + n];
      assert n > 2 ==> f[2] == p[i + 2];
      assert n > 3 ==> f[3] == p[i + 3];
    }
  }

  /** A scan comes to its end, or reads outside the packet. */
  datatype Scan = Scanned(delivered: Option<Message>) | ReadOutside

  const SIZE_SPAN: nat := 0x1_0000_0000_0000_0000

  /** The scan of the source.  Its bound is an unsigned difference, which wraps around for
      packets of fewer than three bytes; those, and only those, are read outside. */
  method Process(p: seq<byte>) returns (r: Scan)
    ensures r == ReadOutside <==> |p| < 3
    ensures r.Scanned? ==> Delivers(p, r.delivered)
  {
    var bound := if |p| < 3 then SIZE_SPAN + |p| - 3 else |p| - 3;
    var i := 0;
    while i < bound
      invariant |p| < 3 ==> i == 0
      invariant |p| >= 3 ==> 0 <= i <= |p| - 3
      invariant forall k: nat :: k < i ==> !StartsAt(p, k)
    {
      if i + 2 >= |p| {
        return ReadOutside;
      }
      var id := Word(p[i], p[i + 1]);
      var len, lenBytes := 0, 0;
      var first := p[i + 2];
      if first < 128 {
        len, lenBytes := first, 1;
        if first == 0 {
          NotHere(p, i);
          i := i + 1;
          continue;
        }
      } else if first < 192 {
        if i + 3 < |p| {
          len, lenBytes := Word(first % 64, p[i + 3]), 2;
        }
      } else {
        NotHere(p, i);
        i := i + 1;
        continue;
      }
      if i + 1 + len + lenBytes < |p| {
        var end := i + 2 + len + lenBytes;
        FrameAtIff(p, i, end - i);
        assert IsFirst(p, i, end - i);
        return Scanned(Some(Message(id, p[i..end])));
      }
      NotHere(p, i);
      i := i + 1;
    }
    forall k: nat
      ensures !StartsAt(p, k)
    {
      if k >= i {
        NoFrameBeyond(p, k);
      }
    }
    r := Scanned(None);
  }

  lemma LowSix(x: byte)
    requires 128 <= x < 192
    ensures x % 64 == x - 128
  {
  }

  /** No frame starts where the determinant is empty, too long or announces too much. */
  lemma NotHere(p: seq<byte>, i: nat)
    requires i + 3 < |p|
    requires p[i + 2] == 0 || p[i + 2] >= 192 ||
             i + 2 + (if p[i + 2] < 128 then 1 + p[i + 2] else 2 + Word(p[i + 2] % 64, p[i + 3])) > |p|
    ensures !StartsAt(p, i)
  {
    hide FrameAt, Word;
    var first := p[i + 2];
    if 128 <= first < 192 {
      LowSix(first);
    }
    forall n: nat
      ensures !FrameAt(p, i, n)
    {
      FrameAtIff(p, i, n);
    }
  }

  lemma FirstUnique(p: seq<byte>, i: nat, n: nat, j: nat, m: nat)
    requires IsFirst(p, i, n) && IsFirst(p, j, m)
    ensures i == j && n == m
  {
    hide FrameAt;
    assert StartsAt(p, i) && StartsAt(p, j);
    FrameLengthUnique(p, i, n, m);
  }

  lemma FirstStarts(p: seq<byte>, i: nat, n: nat)
    requires IsFirst(p, i, n)
    ensures StartsAt(p, i)
  {
  }

  /** At most one message is delivered, and it is determined by the packet. */
  lemma DeliveryUnique(p: seq<byte>, r: Option<Message>, s: Option<Message>)
    requires Delivers(p, r) && Delivers(p, s)
    ensures r == s
  {
    hide IdOf, IsFrame;
    if r.Some? && s.Some? {
      var i: nat, n: nat :| IsFirst(p, i, n) && r.value == Message(IdOf(p[i..i + n]), p[i..i + n]);
      var j: nat, m: nat :| IsFirst(p, j, m) && s.value == Message(IdOf(p[j..j + m]), p[j..j + m]);
      FirstUnique(p, i, n, j, m);
    } else if r.Some? {
      var i: nat, n: nat :| IsFirst(p, i, n) && r.value == Message(IdOf(p[i..i + n]), p[i..i + n]);
      FirstStarts(p, i, n);
    } else if s.Some? {
      var j: nat, m: nat :| IsFirst(p, j, m) && s.value == Message(IdOf(p[j..j + m]), p[j..j + m]);
      FirstStarts(p, j, m);
    }
  }

  // ----- the encoder -----------------------------------------------------------------------------------

  function Determinant(n: nat): (d: seq<byte>)
    requires n < 16384
  {
    if n < 128 then [n] else [128 + n / 256, n % 256]
  }

  function Encoded(id: nat, body: seq<byte>): (f: seq<byte>)
    requires id < 65536 && 1 <= |body| < 16384
  {
    [id / 256, id % 256] + Determinant(|body|) + body
  }

  lemma EncodedIsFrame(id: nat, body: seq<byte>)
    requires id < 65536 && 1 <= |body| < 16384
    ensures IsFrame(Encoded(id, body)) && IdOf(Encoded(id, body)) == id
  {
  }

  /** Any identifier and any body of 1 to 16383 bytes, encoded and followed by anything, is
      delivered as exactly that identifier and that frame. */
  lemma RoundTrip(id: nat, body: seq<byte>, trailing: seq<byte>, r: Option<Message>)
    requires id < 65536 && 1 <= |body| < 16384
    requires Delivers(Encoded(id, body) + trailing, r)
    ensures r == Some(Message(id, Encoded(id, body)))
  {
    hide Encoded, IsFrame;
    var f := Encoded(id, body);
    var p := f + trailing;
    EncodedIsFrame(id, body);
    assert p[0..0 + |f|] == f;
    assert FrameAt(p, 0, |f|);
    AtLeastTwo(f);
    assert IsFirst(p, 0, |f|);
    assert Delivers(p, Some(Message(id, f)));
    DeliveryUnique(p, r, Some(Message(id, f)));
  }

  lemma AtLeastTwo(f: seq<byte>)
    requires IsFrame(f)
    ensures |f| >= 2
  {
  }
}
