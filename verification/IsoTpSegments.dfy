/**
 * ISO 15765-2 segmentation of a payload into 8-byte CAN frames, and a receiver
 * written from the frame formats alone (section 9.6 of ISO 15765-2:2016).
 */
module IsoTpSegments {
  import opened Words

  type Bytes = seq<U8>

  const FRAME: nat := 8
  const MAX_LENGTH: nat := 4095

  function Zeros(n: nat): Bytes { seq(n, _ => 0) }

  // ---- the frames of a payload -----------------------------------------------------

  function SingleFrame(p: Bytes): (f: Bytes)
    requires |p| <= 7
    ensures |f| == FRAME
  {
    [|p|] + p + Zeros(7 - |p|)
  }

  function FirstFrame(p: Bytes): (f: Bytes)
    requires 7 < |p| <= MAX_LENGTH
    ensures |f| == FRAME
  {
    [0x10 + |p| / 0x100, |p| % 0x100] + p[..6]
  }

  /** Payload bytes sent with the first frame and k consecutive ones. */
  function Covered(length: nat, k: nat): nat { Min(length, 6 + 7 * k) }

  /** Consecutive frame k, counted from 1. */
  function ConsecutiveFrame(p: Bytes, k: nat): (f: Bytes)
    requires k >= 1
    ensures |f| == FRAME
  {
    var part := p[Covered(|p|, k - 1)..Covered(|p|, k)];
    [0x20 + k % 16] + part + Zeros(7 - |part|)
  }

  function ConsecutiveCount(length: nat): nat
    requires length > 7
  {
    (length - 6 + 6) / 7
  }

  /** The whole segmentation: a single frame, or a first frame and its successors. */
  function Segment(p: Bytes): (fs: seq<Bytes>)
    requires 1 <= |p| <= MAX_LENGTH
  {
    if |p| <= 7 then [SingleFrame(p)]
    else
      [FirstFrame(p)] + seq(ConsecutiveCount(|p|), i requires 0 <= i => ConsecutiveFrame(p, i + 1))
  }

  // ---- a receiver --------------------------------------------------------------------

  datatype Rx = Waiting | Collecting(length: nat, next: nat, data: Bytes) | Complete(data: Bytes) | Broken

  /** One frame into the receiver: the protocol nibble, then the fields it calls for. */
  function Feed(rx: Rx, f: Bytes): Rx
    requires |f| == FRAME
  {
    match f[0] / 16
    case 0 =>
      var length := f[0] % 16;
      if rx.Waiting? && 1 <= length <= 7 then Complete(f[1..1 + length]) else Broken
    case 1 =>
      var length := (f[0] % 16 as int) * 0x100 + f[1];
      if rx.Waiting? && length > 7 then Collecting(length, 1, f[2..]) else Broken
    case 2 =>
      if rx.Collecting? && |rx.data| < rx.length && f[0] % 16 == rx.next then
        var data := rx.data + f[1..1 + Min(7, rx.length - |rx.data|)];
        if |data| == rx.length then Complete(data) else Collecting(rx.length, (rx.next + 1) % 16, data)
      else Broken
    case _ => Broken
  }

  function Reassemble(fs: seq<Bytes>): Rx
    requires forall i :: 0 <= i < |fs| ==> |fs[i]| == FRAME
  {
    if fs == [] then Waiting else Feed(Reassemble(fs[..|fs| - 1]), fs[|fs| - 1])
  }

  // ---- both together -----------------------------------------------------------------

  lemma SegmentShape(p: Bytes)
    requires 1 <= |p| <= MAX_LENGTH
    ensures forall i :: 0 <= i < |Segment(p)| ==> |Segment(p)[i]| == FRAME
    ensures |p| > 7 ==>
              && |Segment(p)| == 1 + ConsecutiveCount(|p|)
              && Segment(p)[0] == FirstFrame(p)
              && (forall k :: 1 <= k < |Segment(p)| ==> Segment(p)[k] == ConsecutiveFrame(p, k))
  {
  }

  /** The last frame, and only the last, completes the payload. */
  lemma CoverageEnds(length: nat, k: nat)
    requires length > 7
    ensures Covered(length, k) == length <==> k >= ConsecutiveCount(length)
  {
    var n := ConsecutiveCount(length);
    assert length == 7 * n + length % 7;
  }

  /** After the first frame and k consecutive ones the receiver holds exactly
      the covered part of the payload, and is complete only after the last. */
  lemma {:induction false} ReceiverFollows(p: Bytes, k: nat)
    requires 7 < |p| <= MAX_LENGTH && k < |Segment(p)|
    ensures forall i :: 0 <= i < |Segment(p)| ==> |Segment(p)[i]| == FRAME
    ensures Reassemble(Segment(p)[..k + 1]) ==
            if k + 1 == |Segment(p)| then Complete(p)
            else Collecting(|p|, (k + 1) % 16, p[..Covered(|p|, k)])
    decreases k
  {
    hide Segment, Feed, FirstFrame, ConsecutiveFrame, ConsecutiveCount;
    SegmentShape(p);
    CoverageEnds(|p|, k);
    var fs := Segment(p)[..k + 1];
    assert fs[..|fs| - 1] == Segment(p)[..k];
    if k == 0 {
      assert Segment(p)[..0] == [];
      FirstIsRead(p);
    } else {
      ReceiverFollows(p, k - 1);
      CoverageEnds(|p|, k - 1);
      ConsecutiveIsRead(p, k);
    }
  }

  lemma FirstIsRead(p: Bytes)
    requires 7 < |p| <= MAX_LENGTH
    ensures Feed(Waiting, FirstFrame(p)) == Collecting(|p|, 1, p[..6])
  {
    var f := FirstFrame(p);
    assert f[0] / 16 == 1 && f[0] % 16 == |p| / 0x100;
    assert |p| == 0x100 * (|p| / 0x100) + |p| % 0x100;
    assert f[2..] == p[..6];
  }

  lemma ConsecutiveIsRead(p: Bytes, k: nat)
    requires 7 < |p| && 1 <= k && Covered(|p|, k - 1) < |p|
    ensures Feed(Collecting(|p|, k % 16, p[..Covered(|p|, k - 1)]), ConsecutiveFrame(p, k)) ==
            if Covered(|p|, k) == |p| then Complete(p) else Collecting(|p|, (k + 1) % 16, p[..Covered(|p|, k)])
  {
    var f := ConsecutiveFrame(p, k);
    var from, to := Covered(|p|, k - 1), Covered(|p|, k);
    assert f[0] / 16 == 2 && f[0] % 16 == k % 16;
    assert Min(7, |p| - from) == to - from;
    assert f[1..1 + (to - from)] == p[from..to];
    assert p[..from] + p[from..to] == p[..to];
    assert p[..|p|] == p;
    NextNumber(k);
  }

  lemma NextNumber(k: nat)
    ensures (k % 16 + 1) % 16 == (k + 1) % 16
  {
  }

  lemma SingleIsRead(p: Bytes)
    requires 1 <= |p| <= 7
    ensures Feed(Waiting, SingleFrame(p)) == Complete(p)
  {
    var f := SingleFrame(p);
    assert f[0] / 16 == 0 && f[0] % 16 == |p|;
    assert f[1..1 + |p|] == p;
  }

  /** Round trip: every payload of 1 to 4095 bytes comes back, and a proper part
      of its frames never completes one. */
  lemma SegmentsReassemble(p: Bytes, n: nat)
    requires 1 <= |p| <= MAX_LENGTH && n <= |Segment(p)|
    ensures forall i :: 0 <= i < |Segment(p)| ==> |Segment(p)[i]| == FRAME
    ensures Reassemble(Segment(p)) == Complete(p)
    ensures Reassemble(Segment(p)[..n]).Complete? <==> n == |Segment(p)|
  {
    hide Feed, SingleFrame, FirstFrame, ConsecutiveFrame, ConsecutiveCount;
    SegmentShape(p);
    var fs := Segment(p);
    assert fs[..|fs|] == fs;
    if |p| <= 7 {
      SingleIsRead(p);
      var f := SingleFrame(p);
      assert fs == [f] && fs[..0] == [] && fs[..1] == [f];
    } else {
      hide Segment;
      ReceiverFollows(p, |fs| - 1);
      if n > 0 {
        ReceiverFollows(p, n - 1);
      } else {
        assert fs[..0] == [];
      }
    }
  }
}
