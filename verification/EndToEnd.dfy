/**
 * From the sender's frame numbers to the receiver's loss counts: the receiver
 * sees one byte of each frame, and still its books count the frames the sender
 * attempted and the receiver never got.
 */
module EndToEnd {
  import C = CanSchedule
  import L = LossAccounting

  /** Every frame received is one the sender attempted, by its place in the
      order of attempts. */
  predicate Carries(evs: seq<L.Event>, attempts: seq<C.Attempt>) {
    forall j :: 0 <= j < |evs| && evs[j].EvFrame? ==> 0 <= evs[j].t < |attempts|
  }

  /** The attempts delivered by the first k events. */
  function Delivered(evs: seq<L.Event>, k: nat): (d: set<int>)
    requires k <= |evs|
  {
    if k == 0 then {}
    else if evs[k - 1].EvFrame? then Delivered(evs, k - 1) + {evs[k - 1].t}
    else Delivered(evs, k - 1)
  }

  lemma {:induction false} MissingShift(lo: int, hi: int, d: int, s: set<int>, shifted: set<int>)
    requires forall m :: m in shifted <==> m - d in s
    ensures L.Missing(lo + d, hi + d, shifted) == L.Missing(lo, hi, s)
    decreases hi - lo
  {
    if lo <= hi {
      MissingShift(lo, hi - 1, d, s, shifted);
      assert hi + d - 1 == hi - 1 + d;
    }
  }

  /** What the receiver holds as received is what was delivered, renumbered from
      the first frame. */
  ghost predicate Renumbered(s: L.State, delivered: set<int>) {
    if s.rx.known then forall m :: m in s.h.received <==> m - (s.h.t0 % 256 - s.h.t0) in delivered
    else s.h.received == {} && delivered == {}
  }

  lemma StepRenumbers(s: L.State, ev: L.Event, delivered: set<int>)
    requires Renumbered(s, delivered)
    ensures Renumbered(L.Step(s, ev), if ev.EvFrame? then delivered + {ev.t} else delivered)
  {
    hide L.Publish, L.CountLate, L.ChargeBook, L.Unwrap;
    if ev.EvFrame? {
      assert L.Step(s, ev).rx.known;
    } else if ev.EvPublish? {
      assert L.Publish(s.rx, ev.free).0.known == s.rx.known by { PublishKeepsKnown(s.rx, ev.free); }
    }
  }

  lemma PublishKeepsKnown(rx: L.Rx, free: bool)
    ensures L.Publish(rx, free).0.known == rx.known
  {
  }

  lemma {:induction false} RunRenumbers(evs: seq<L.Event>, ss: seq<L.State>, k: nat)
    requires L.IsRun(evs, ss) && k < |ss|
    ensures Renumbered(ss[k], Delivered(evs, k))
    decreases k
  {
    hide L.Step, L.Admissible;
    if k > 0 {
      var ev := evs[k - 1];
      RunRenumbers(evs, ss, k - 1);
      StepRenumbers(ss[k - 1], ev, Delivered(evs, k - 1));
    }
  }

  /** The receiver's step depends on the frame only through its first byte. */
  lemma ReceiverSeesTheByte(sevs: seq<C.Event>, sss: seq<C.State>, n: nat, evs: seq<L.Event>, ss: seq<L.State>, j: nat)
    requires C.IsRun(sevs, sss) && n < |sss|
    requires L.IsRun(evs, ss) && Carries(evs, sss[n].attempts)
    requires j < |evs| && evs[j].EvFrame?
    ensures var data := sss[n].attempts[evs[j].t].data;
            |data| == C.FRAME && ss[j + 1].rx == L.OnFrame(ss[j].rx, data[0])
  {
    hide L.OnFrame, C.Step;
    C.NumbersAreConsecutive(sevs, sss, n, evs[j].t);
  }

  /** The ends of the accounted range are numbers that arrived. */
  ghost predicate EndsArrived(s: L.State) {
    s.rx.known ==>
      && s.h.t0 % 256 in s.h.received
      && (s.rx.accounted == s.h.t0 % 256 - 1 || s.rx.accounted in s.h.received)
      && (s.rx.window.frames > s.rx.window.late ==> s.rx.window.lastSeq in s.h.received)
  }

  lemma StepEnds(s: L.State, ev: L.Event)
    requires L.Inv(s) && EndsArrived(s) && L.Admissible(s, ev)
    ensures EndsArrived(L.Step(s, ev))
  {
    hide L.Inv;
    match ev
    case EvFrame(t) => FrameEnds(s, t);
    case EvPublish(free) => PublishEnds(s, free);
    case EvTaken =>
  }

  lemma FrameEnds(s: L.State, t: int)
    requires L.Inv(s) && EndsArrived(s) && L.Admissible(s, L.EvFrame(t))
    ensures EndsArrived(L.Step(s, L.EvFrame(t)))
  {
    hide L.Inv, L.ChargeBook, L.CountLate, L.Unwrap, L.Publish;
    if s.rx.known {
      L.UnwrapTracks(s.h, t);
      NumberKept(s);
      L.CountLateFrames(s.rx.window, s.rx.history, L.Numbered(s.h, t));
      LateKeepsLast(s.rx.window, s.rx.history, L.Numbered(s.h, t));
    } else {
      UnknownWindow(s);
    }
  }

  lemma NumberKept(s: L.State)
    requires L.Inv(s) && s.rx.known
    ensures s.rx.number == L.Numbered(s.h, s.h.t)
  {
  }

  lemma UnknownWindow(s: L.State)
    requires L.Inv(s) && !s.rx.known
    ensures s.rx.window == L.EMPTY_WINDOW
  {
  }

  lemma LateKeepsLast(w: L.Window, history: seq<L.Accounted>, n: int)
    ensures L.CountLate(w, history, n).lastSeq == w.lastSeq && L.CountLate(w, history, n).late == w.late + 1
  {
  }

  lemma PublishEnds(s: L.State, free: bool)
    requires EndsArrived(s) && L.Inv(s)
    ensures EndsArrived(L.Step(s, L.EvPublish(free)))
  {
    hide L.Inv, L.Shift;
    PublishKeepsKnown(s.rx, free);
    FramesCover(s);
  }

  lemma FramesCover(s: L.State)
    requires L.Inv(s)
    ensures s.rx.window.late <= s.rx.window.frames
  {
    hide L.HistoryInv, L.LateInv, L.BooksInv;
  }

  lemma {:induction false} RunEnds(evs: seq<L.Event>, ss: seq<L.State>, k: nat)
    requires L.IsRun(evs, ss) && k < |ss|
    ensures EndsArrived(ss[k])
    decreases k
  {
    hide L.Step, L.Admissible, L.Inv, EndsArrived;
    if k == 0 {
      BeginEnds();
    } else {
      var ev := evs[k - 1];
      RunEnds(evs, ss, k - 1);
      L.RunInv(evs, ss, k - 1);
      StepEnds(ss[k - 1], ev);
    }
  }

  lemma BeginEnds()
    ensures EndsArrived(L.BEGIN)
  {
  }

  lemma {:induction false} DeliveredAreAttempts(evs: seq<L.Event>, attempts: seq<C.Attempt>, k: nat)
    requires Carries(evs, attempts) && k <= |evs|
    ensures forall t :: t in Delivered(evs, k) ==> 0 <= t < |attempts|
    decreases k
  {
    if k > 0 {
      DeliveredAreAttempts(evs, attempts, k - 1);
      var ev := evs[k - 1];
    }
  }

  /** End to end: frames of all kinds that some run of the sender attempted,
      delivered in any order that keeps neighbours near and duplicates none, each
      seen by the receiver through its first byte only. The published losses, less
      the late frames numbered from the first one on, are the sender's attempts
      from the first delivered one to the last accounted one that were not
      delivered, whether they failed at the sender or on the bus. */
  lemma LossesAreUndeliveredAttempts(sevs: seq<C.Event>, sss: seq<C.State>, n: nat,
                                     evs: seq<L.Event>, ss: seq<L.State>, k: nat)
    requires C.IsRun(sevs, sss) && n < |sss|
    requires L.IsRun(evs, ss) && Carries(evs, sss[n].attempts) && k < |ss| && ss[k].rx.known
    ensures forall j :: 0 <= j < k && evs[j].EvFrame? ==> SeesByte(sss[n].attempts, ss[j].rx, evs[j].t, ss[j + 1].rx)
    ensures forall t :: t in Delivered(evs, k) ==> 0 <= t < |sss[n].attempts|
    ensures var (h, accounted) := (ss[k].h, ss[k].rx.accounted);
            var last := h.t0 + accounted - h.t0 % 256;
            && h.t0 in Delivered(evs, k)
            && 0 <= h.t0 && last < |sss[n].attempts|
            && (last == h.t0 - 1 || last in Delivered(evs, k))
            && h.lost - h.lateSince == L.Missing(h.t0, last, Delivered(evs, k))
  {
    hide L.Missing, L.Step, L.Admissible, L.OnFrame, C.Step, C.Admissible;
    var h := ss[k].h;
    L.LossConservation(evs, ss, k);
    RunRenumbers(evs, ss, k);
    RunEnds(evs, ss, k);
    DeliveredAreAttempts(evs, sss[n].attempts, k);
    var d := h.t0 % 256 - h.t0;
    MissingShift(h.t0, h.t0 + ss[k].rx.accounted - h.t0 % 256, d, Delivered(evs, k), h.received);
    assert h.t0 % 256 - d in Delivered(evs, k);
    assert ss[k].rx.accounted in h.received ==> ss[k].rx.accounted - d in Delivered(evs, k);
    forall j | 0 <= j < k && evs[j].EvFrame? ensures SeesByte(sss[n].attempts, ss[j].rx, evs[j].t, ss[j + 1].rx) {
      ReceiverSeesTheByte(sevs, sss, n, evs, ss, j);
    }
  }

  /** The receiver went from one state to the next by the first byte of attempt t. */
  predicate SeesByte(attempts: seq<C.Attempt>, rx: L.Rx, t: int, rx': L.Rx) {
    && 0 <= t < |attempts| && |attempts[t].data| == C.FRAME
    && rx' == L.OnFrame(rx, attempts[t].data[0])
  }
}
