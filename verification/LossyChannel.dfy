/**
 Frames numbered by a peer with `getNextCounter`, some of them lost on the way, against the
 receiver's counter check.
 */
module LossyChannel {
  import opened Bytes
  import opened Crc8
  import opened TruckFrames

  type FrameData = d: seq<byte> | |d| == 8 witness [0, 0, 0, 0, 0, 0, 0, 0]

  /** The counter of the `k`-th frame sent by a peer that started at counter `c`. */
  function SentCounter(c: nat, k: nat): (r: nat)
    ensures r < 16
  {
    if k == 0 then NextCounter(c) else NextCounter(SentCounter(c, k - 1))
  }

  lemma {:induction false} SentCounterAt(c: nat, k: nat)
    requires c < 16
    ensures SentCounter(c, k) == (c + k + 1) % 16
  {
    if k > 0 {
      SentCounterAt(c, k - 1);
      NextOfModulo(c + k);
    }
  }

  lemma NextOfModulo(a: nat)
    ensures NextCounter(a % 16) == (a + 1) % 16
  {
    assert a + 1 == 16 * (a / 16) + (a % 16 + 1);
  }

  /** CRC-good frames numbered consecutively from counter `c` on. */
  predicate Numbered(frames: seq<FrameData>, c: nat) {
    forall k :: 0 <= k < |frames| ==> CrcOk(frames[k]) && CounterOf(frames[k][6]) == SentCounter(c, k)
  }

  /** The frames that arrive, by their index in what was sent. */
  predicate Arrivals(arrive: seq<nat>, sent: nat) {
    && (forall i :: 0 <= i < |arrive| ==> arrive[i] < sent)
    && forall i :: 1 <= i < |arrive| ==> arrive[i - 1] < arrive[i]
  }

  /** The receiver's counter after the arrivals: that of the last frame, accepted or not. */
  function ReceiverCounter(start: nat, frames: seq<FrameData>, arrive: seq<nat>): nat
    requires forall i :: 0 <= i < |arrive| ==> arrive[i] < |frames|
  {
    if arrive == [] then start else CounterOf(frames[arrive[|arrive| - 1]][6])
  }

  predicate AcceptedAt(start: nat, frames: seq<FrameData>, arrive: seq<nat>, i: nat)
    requires i < |arrive| && forall j :: 0 <= j < |arrive| ==> arrive[j] < |frames|
  {
    Accepts(ReceiverCounter(start, frames, arrive[..i]), frames[arrive[i]])
  }

  lemma AheadOfGap(c: nat, n: nat, g: nat)
    requires c < 16
    ensures Ahead(SentCounter(c, n + g), SentCounter(c, n)) == g % 16
  {
    hide SentCounter;
    SentCounterAt(c, n);
    SentCounterAt(c, n + g);
    ModGap(c + n + 1, g);
  }

  lemma ModGap(a: nat, g: nat)
    ensures ((a + g) % 16 - a % 16) % 16 == g % 16
  {
    var q, r := a / 16, g / 16;
    assert a == 16 * q + a % 16 && g == 16 * r + g % 16;
    var s := a % 16 + g % 16;
    assert a + g == 16 * (q + r) + s;
    assert (a + g) % 16 == if s < 16 then s else s - 16;
  }

  /** The counter the receiver holds when the `i`-th frame arrives. */
  function Held(start: nat, c: nat, arrive: seq<nat>, i: nat): nat
    requires i < |arrive|
  {
    if i == 0 then start else SentCounter(c, arrive[i - 1])
  }

  /** How far that frame is ahead in numbering. */
  function Gap(start: nat, c: nat, arrive: seq<nat>, i: nat): int
    requires i < |arrive|
  {
    if i == 0 then c + 1 + arrive[0] - start else arrive[i] as int - arrive[i - 1]
  }

  lemma AheadOfHeld(start: nat, c: nat, arrive: seq<nat>, i: nat)
    requires c < 16 && start < 16 && i < |arrive| && (i > 0 ==> arrive[i - 1] < arrive[i])
    ensures Ahead(SentCounter(c, arrive[i]), Held(start, c, arrive, i)) == Gap(start, c, arrive, i) % 16
  {
    hide SentCounter;
    if i == 0 {
      SentCounterAt(c, arrive[0]);
      ModDifference(c + 1 + arrive[0], start);
    } else {
      AheadOfGap(c, arrive[i - 1], arrive[i] - arrive[i - 1]);
    }
  }

  lemma ModDifference(a: nat, b: nat)
    ensures (a % 16 - b) % 16 == (a - b) % 16
  {
    assert a - b == 16 * (a / 16) + (a % 16 - b);
  }

  /** From any receiver state: the receiver accepts a frame exactly when the distance in
      numbering is, modulo 16, one to seven, or eight from the upper half. */
  lemma AcceptedIffGap(start: nat, frames: seq<FrameData>, c: nat, arrive: seq<nat>, i: nat)
    requires c < 16 && start < 16 && Numbered(frames, c) && Arrivals(arrive, |frames|) && i < |arrive|
    ensures var g := Gap(start, c, arrive, i) % 16;
            AcceptedAt(start, frames, arrive, i) <==>
            1 <= g <= 7 || (g == 8 && Held(start, c, arrive, i) >= 8)
  {
    hide CrcOk, SentCounter, CounterAccepted, Gap;
    assert ReceiverCounter(start, frames, arrive[..i]) == Held(start, c, arrive, i);
    AheadOfHeld(start, c, arrive, i);
    AcceptedExactly(SentCounter(c, arrive[i]), Held(start, c, arrive, i));
  }

  /** If never more than six consecutive frames are lost, every arrival is accepted: the first
      one by a receiver that starts in step with its peer, the later ones whatever the
      receiver's counter was before. */
  lemma NoneRefused(start: nat, frames: seq<FrameData>, c: nat, arrive: seq<nat>, i: nat)
    requires c < 16 && start < 16 && Numbered(frames, c) && Arrivals(arrive, |frames|) && i < |arrive|
    requires if i == 0 then start == c && arrive[0] <= 6 else arrive[i] - arrive[i - 1] - 1 <= 6
    ensures AcceptedAt(start, frames, arrive, i)
  {
    hide AcceptedAt, Numbered, SentCounter;
    AcceptedIffGap(start, frames, c, arrive, i);
  }

  /** A frame that repeats the counter the receiver holds is refused. */
  lemma RepeatRefused(counter: nat, data: FrameData)
    requires CounterOf(data[6]) == counter
    ensures !Accepts(counter, data)
  {
    OneDirection(counter, counter);
  }
}
