/**
 * The receiver's accounts of numbered frames: unwrapping the 8-bit number,
 * charging losses to reports, and giving late frames back to the report that
 * counted them as lost.
 */
module LossAccounting {
  import opened Options
  import opened Words

  const HISTORY: nat := 4

  datatype Late = Late(window: nat, count: nat)

  datatype Accounted = Accounted(window: nat, first: int, last: int)

  /** The counters of the window being collected. */
  datatype Window = Window(frames: nat, late: nat, lastSeq: int, lateFrom: seq<Late>, lateOld: nat)

  const EMPTY_WINDOW := Window(0, 0, 0, [], 0)

  datatype Rx = Rx(
    known: bool,
    number: int,
    accounted: int,
    window: Window,
    reportIndex: nat,
    history: seq<Accounted>,
    pending: bool)

  datatype Report = Report(index: nat, lost: nat, window: Window)

  const START := Rx(false, 0, 0, EMPTY_WINDOW, 0, [], false)

  // ---- the receiver -------------------------------------------------------------------

  /** The signed value of a byte. */
  function Int8(b: U8): (i: int)
    ensures -128 <= i < 128
  {
    if b < 128 then b else b - 256
  }

  /** The 8-bit number as the nearest continuation of the unwrapped one. */
  function Unwrap(number: int, received: U8): int {
    number + Int8((received - number) % 256)
  }

  /** The first report of the history, from entry i on, whose range holds a number. */
  function FindReport(history: seq<Accounted>, n: int, i: nat): (r: nat)
    requires i <= |history|
    ensures i <= r <= |history|
    ensures r < |history| ==> history[r].first <= n <= history[r].last
    ensures forall j :: i <= j < r ==> !(history[j].first <= n <= history[j].last)
    decreases |history| - i
  {
    if i == |history| || history[i].first <= n <= history[i].last then i
    else FindReport(history, n, i + 1)
  }

  function FindLate(lates: seq<Late>, window: nat, i: nat): (r: nat)
    requires i <= |lates|
    ensures i <= r <= |lates|
    ensures r < |lates| ==> lates[r].window == window
    ensures forall j :: i <= j < r ==> lates[j].window != window
    decreases |lates| - i
  {
    if i == |lates| || lates[i].window == window then i else FindLate(lates, window, i + 1)
  }

  /** countLateFrame */
  function CountLate(w: Window, history: seq<Accounted>, n: int): (w': Window) {
    var w1 := w.(late := w.late + 1);
    var r := FindReport(history, n, 0);
    if r == |history| then w1.(lateOld := w.lateOld + 1)
    else w1.(lateFrom := Charge(w.lateFrom, history[r].window))
  }

  /** One more late frame for a report, in its entry or in a new one. */
  function Charge(lates: seq<Late>, window: nat): seq<Late> {
    var j := FindLate(lates, window, 0);
    if j < |lates| then lates[j := lates[j].(count := lates[j].count + 1)] else lates + [Late(window, 1)]
  }

  /** timingDiagCanFrame, for a frame of the ECU. */
  function OnFrame(rx: Rx, received: U8): (rx': Rx) {
    var rx1 :=
      if rx.known then rx.(number := Unwrap(rx.number, received))
      else rx.(known := true, number := received, accounted := received - 1);
    var w := rx1.window;
    var w1 :=
      if rx1.number <= rx1.accounted then CountLate(w, rx1.history, rx1.number)
      else if w.frames == w.late || rx1.number > w.lastSeq then w.(lastSeq := rx1.number)
      else w;
    rx1.(window := w1.(frames := w1.frames + 1))
  }

  /** publishCanWindow; `free` says whether the report lock was free. */
  function Publish(rx: Rx, free: bool): (r: (Rx, Option<Report>)) {
    if !free || rx.pending then (rx, None)
    else
      var w := rx.window;
      var received := w.frames - w.late;
      var counts := received != 0 && w.lastSeq > rx.accounted;
      var expected := if counts then w.lastSeq - rx.accounted else 0;
      var lost: nat := if expected > received then expected - received else 0;
      var entry := Accounted(rx.reportIndex, rx.accounted + 1, w.lastSeq);
      var history := if counts then Shift(rx.history, entry) else rx.history;
      (rx.(window := EMPTY_WINDOW, reportIndex := rx.reportIndex + 1, history := history, pending := true,
           accounted := if counts then w.lastSeq else rx.accounted),
       Some(Report(rx.reportIndex, lost, w)))
  }

  /** The newest report in front; the fifth falls off. */
  function Shift(history: seq<Accounted>, entry: Accounted): (h: seq<Accounted>) {
    [entry] + (if |history| < HISTORY then history else history[..HISTORY - 1])
  }

  // ---- runs: what was sent, and what the books say ---------------------------------------

  /** A report that accounted numbers, with what it counted as lost and what was
      given back to it since. */
  datatype Book = Book(window: nat, first: int, last: int, lost: nat, charged: nat)

  /** The true number of the first and of the latest frame; the unwrapped
      numbers received; all published losses; the late frames numbered from the
      first one on; the books. */
  datatype Hist = Hist(t0: int, t: int, received: set<int>, lost: nat, lateSince: nat, books: seq<Book>)

  datatype State = State(rx: Rx, h: Hist)

  const BEGIN := State(START, Hist(0, 0, {}, 0, 0, []))

  datatype Event =
    | EvFrame(t: int)          // frame number t arrives, carrying t modulo 256
    | EvPublish(free: bool)
    | EvTaken                  // the other core took the report

  /** The unwrapped number a true number stands for. */
  function Numbered(h: Hist, t: int): int { h.t0 % 256 + (t - h.t0) }

  function ChargeBook(books: seq<Book>, history: seq<Accounted>, n: int): (b: seq<Book>) {
    var r := FindReport(history, n, 0);
    if r == |history| || r >= |books| then books
    else
      var k := |books| - 1 - r;
      books[k := books[k].(charged := books[k].charged + 1)]
  }

  function Step(s: State, ev: Event): (s': State) {
    match ev
    case EvFrame(t) =>
      var h := if s.rx.known then s.h.(t := t) else s.h.(t0 := t, t := t);
      var n := Numbered(h, t);
      var rx := OnFrame(s.rx, t % 256);
      var late := s.rx.known && n <= s.rx.accounted;
      State(rx, h.(received := h.received + {n},
                   lateSince := if late && n >= h.t0 % 256 then h.lateSince + 1 else h.lateSince,
                   books := if late then ChargeBook(h.books, s.rx.history, n) else h.books))
    case EvPublish(free) =>
      var (rx, report) := Publish(s.rx, free);
      if report.None? then s
      else
        var lost := report.value.lost;
        var h := s.h.(lost := s.h.lost + lost);
        State(rx, if rx.accounted == s.rx.accounted then h
                  else h.(books := h.books + [Book(report.value.index, s.rx.accounted + 1, rx.accounted, lost, 0)]))
    case EvTaken => s.(rx := s.rx.(pending := false))
  }

  /** Frames are not duplicated, and each is numbered near the one before. */
  predicate Admissible(s: State, ev: Event) {
    ev.EvFrame? && s.rx.known ==> -128 <= ev.t - s.h.t < 128 && Numbered(s.h, ev.t) !in s.h.received
  }

  ghost predicate IsRun(evs: seq<Event>, ss: seq<State>) {
    && |ss| == |evs| + 1
    && ss[0] == BEGIN
    && (forall k {:trigger evs[k]} :: 0 <= k < |evs| ==> Admissible(ss[k], evs[k]) && ss[k + 1] == Step(ss[k], evs[k]))
  }

  // ---- counting -----------------------------------------------------------------------------

  /** How many of the numbers lo..hi are in a set. */
  function Got(lo: int, hi: int, s: set<int>): (n: nat)
    decreases hi - lo
  {
    if hi < lo then 0 else Got(lo, hi - 1, s) + (if hi in s then 1 else 0)
  }

  /** How many are not. */
  function Missing(lo: int, hi: int, s: set<int>): (n: nat)
    decreases hi - lo
  {
    if hi < lo then 0 else Missing(lo, hi - 1, s) + (if hi in s then 0 else 1)
  }

  lemma {:induction false} GotAndMissing(lo: int, hi: int, s: set<int>)
    requires lo <= hi + 1
    ensures Got(lo, hi, s) + Missing(lo, hi, s) == hi - lo + 1
    decreases hi - lo
  {
    if lo <= hi {
      GotAndMissing(lo, hi - 1, s);
    }
  }

  lemma {:induction false} MissingSplits(lo: int, mid: int, hi: int, s: set<int>)
    requires lo <= mid + 1 && mid <= hi
    ensures Missing(lo, hi, s) == Missing(lo, mid, s) + Missing(mid + 1, hi, s)
    decreases hi - mid
  {
    if mid < hi {
      MissingSplits(lo, mid, hi - 1, s);
    }
  }

  lemma {:induction false} MissingAdd(lo: int, hi: int, s: set<int>, n: int)
    ensures n !in s && lo <= n <= hi ==> Missing(lo, hi, s + {n}) == Missing(lo, hi, s) - 1
    ensures !(lo <= n <= hi) ==> Missing(lo, hi, s + {n}) == Missing(lo, hi, s)
    decreases hi - lo
  {
    if lo <= hi {
      MissingAdd(lo, hi - 1, s, n);
    }
  }

  lemma {:induction false} GotAdd(lo: int, hi: int, s: set<int>, n: int)
    ensures n !in s && lo <= n <= hi ==> Got(lo, hi, s + {n}) == Got(lo, hi, s) + 1
    ensures !(lo <= n <= hi) ==> Got(lo, hi, s + {n}) == Got(lo, hi, s)
    decreases hi - lo
  {
    if lo <= hi {
      GotAdd(lo, hi - 1, s, n);
    }
  }

  lemma {:induction false} GotExtends(lo: int, hi: int, hi': int, s: set<int>)
    requires hi <= hi' && forall n :: n in s ==> n <= hi
    ensures Got(lo, hi', s) == Got(lo, hi, s)
    decreases hi' - hi
  {
    if hi < hi' {
      GotExtends(lo, hi, hi' - 1, s);
    }
  }

  lemma {:induction false} GotNone(lo: int, hi: int, s: set<int>)
    requires forall n :: n in s ==> n < lo
    ensures Got(lo, hi, s) == 0
    decreases hi - lo
  {
    if lo <= hi {
      GotNone(lo, hi - 1, s);
    }
  }

  // ---- the invariant ---------------------------------------------------------------------------

  predicate Matches(b: Book, a: Accounted) { b.window == a.window && b.first == a.first && b.last == a.last }

  /** The latest accounts lie one above the other, newest first, up to the last
      accounted number; `first` is the number of the first frame. */
  ghost predicate HistoryInv(first: int, rx: Rx, books: seq<Book>) {
    && Bounded(first, rx, |books|)
    && Descending(rx.history)
    && Mirrored(rx.history, books)
  }

  ghost predicate Bounded(first: int, rx: Rx, books: nat) {
    var hs := rx.history;
    && |hs| <= HISTORY
    && (if hs == [] then books == 0 && rx.accounted == first - 1 else hs[0].last == rx.accounted)
    && (forall i :: 0 <= i < |hs| ==> first <= hs[i].first <= hs[i].last && hs[i].window < rx.reportIndex)
  }

  ghost predicate Descending(hs: seq<Accounted>) {
    forall i, j :: 0 <= i < j < |hs| ==> hs[j].last < hs[i].first && hs[j].window < hs[i].window
  }

  ghost predicate Mirrored(hs: seq<Accounted>, books: seq<Book>) {
    && |hs| <= |books|
    && (forall i :: 0 <= i < |hs| ==> Matches(books[|books| - 1 - i], hs[i]))
  }

  predicate InHistory(window: nat, history: seq<Accounted>) {
    exists r :: 0 <= r < |history| && history[r].window == window
  }

  /** The late table: distinct reports of the history, as many late frames. */
  ghost predicate LateInv(w: Window, history: seq<Accounted>) {
    && (forall i, j :: 0 <= i < j < |w.lateFrom| ==> w.lateFrom[i].window != w.lateFrom[j].window)
    && (forall i :: 0 <= i < |w.lateFrom| ==> InHistory(w.lateFrom[i].window, history))
    && w.late == Sum(w.lateFrom) + w.lateOld
  }

  function Sum(lates: seq<Late>): nat {
    if lates == [] then 0 else Sum(lates[..|lates| - 1]) + lates[|lates| - 1].count
  }

  /** Frames above the accounted ones are those of the window. */
  ghost predicate WindowInv(w: Window, accounted: int, r: set<int>) {
    && w.late <= w.frames
    && (w.frames == w.late ==> forall n :: n in r ==> n <= accounted)
    && (w.frames > w.late ==>
          accounted < w.lastSeq
          && (forall n :: n in r ==> n <= w.lastSeq)
          && w.frames - w.late == Got(accounted + 1, w.lastSeq, r))
  }

  /** Every book, of the newest `kept` exactly, of the older ones at least. */
  ghost predicate BooksInv(books: seq<Book>, kept: nat, r: set<int>) {
    forall k :: 0 <= k < |books| ==> Balanced(books[k], k + kept >= |books|, r)
  }

  ghost predicate Balanced(b: Book, exactly: bool, r: set<int>) {
    && b.lost - b.charged >= Missing(b.first, b.last, r)
    && (exactly ==> b.lost - b.charged == Missing(b.first, b.last, r))
  }

  ghost predicate Unknown(s: State) {
    s.rx == START.(reportIndex := s.rx.reportIndex, pending := s.rx.pending) && s.h == BEGIN.h
  }

  ghost predicate Inv(s: State) {
    if !s.rx.known then Unknown(s)
    else
      && s.rx.number == Numbered(s.h, s.h.t)
      && HistoryInv(s.h.t0 % 256, s.rx, s.h.books)
      && LateInv(s.rx.window, s.rx.history)
      && WindowInv(s.rx.window, s.rx.accounted, s.h.received)
      && BooksInv(s.h.books, |s.rx.history|, s.h.received)
      && s.rx.accounted >= s.h.t0 % 256 - 1
      && s.h.lost - s.h.lateSince == Missing(s.h.t0 % 256, s.rx.accounted, s.h.received)
  }

  // ---- one frame ---------------------------------------------------------------------------------

  /** The unwrapped number tracks the true one while neighbours are near. */
  lemma UnwrapTracks(h: Hist, t: int)
    requires -128 <= t - h.t < 128
    ensures Unwrap(Numbered(h, h.t), t % 256) == Numbered(h, t)
  {
    var n, d := Numbered(h, h.t), t - h.t;
    assert t % 256 - n == 256 * (h.t0 / 256 - t / 256) + d;
    DivisionUnique(t % 256 - n, 256, h.t0 / 256 - t / 256 + d / 256, d % 256);
    assert Int8(d % 256) == d;
  }

  lemma {:induction false} SumUpdate(lates: seq<Late>, j: nat)
    requires j < |lates|
    ensures Sum(lates[j := lates[j].(count := lates[j].count + 1)]) == Sum(lates) + 1
    decreases |lates|
  {
    var n := |lates| - 1;
    var updated := lates[j := lates[j].(count := lates[j].count + 1)];
    if j == n {
      assert updated[..n] == lates[..n];
    } else {
      SumUpdate(lates[..n], j);
      assert updated[..n] == lates[..n][j := lates[j].(count := lates[j].count + 1)];
    }
  }

  lemma SumAppend(lates: seq<Late>, late: Late)
    ensures Sum(lates + [late]) == Sum(lates) + late.count
  {
    assert (lates + [late])[..|lates|] == lates;
  }

  /** A late frame keeps the late table an account of all late frames. */
  lemma CountLateInv(w: Window, history: seq<Accounted>, n: int, frames: nat)
    requires LateInv(w, history)
    ensures LateInv(CountLate(w, history, n).(frames := frames), history)
  {
    hide Sum, InHistory, FindReport, FindLate;
    var r := FindReport(history, n, 0);
    if r < |history| {
      var window := history[r].window;
      var j := FindLate(w.lateFrom, window, 0);
      assert InHistory(window, history) by { Holds(history, r); }
      if j < |w.lateFrom| {
        SumUpdate(w.lateFrom, j);
      } else {
        SumAppend(w.lateFrom, Late(window, 1));
      }
    }
  }

  lemma Holds(history: seq<Accounted>, r: nat)
    requires r < |history|
    ensures InHistory(history[r].window, history)
  {
  }

  /** The books when one more number is received: the report that holds it
      gets it back, all others are as before. */
  lemma LateFrameBooks(first: int, rx: Rx, bs: seq<Book>, r: set<int>, n: int)
    requires HistoryInv(first, rx, bs) && BooksInv(bs, |rx.history|, r) && n !in r
    ensures BooksInv(ChargeBook(bs, rx.history, n), |rx.history|, r + {n})
  {
    var hs := rx.history;
    var books := ChargeBook(bs, hs, n);
    var f := FindReport(hs, n, 0);
    forall k | 0 <= k < |bs| ensures Balanced(books[k], k + |hs| >= |bs|, r + {n}) {
      hide HistoryInv, Missing, FindReport;
      assert Balanced(bs[k], k + |hs| >= |bs|, r);
      MissingAdd(bs[k].first, bs[k].last, r, n);
      if k + |hs| >= |bs| {
        var i := |bs| - 1 - k;
        assert Matches(bs[k], hs[i]) by { HistoryMatches(first, rx, bs, i); }
        if i < f {
          assert !(hs[i].first <= n <= hs[i].last);
        } else if f < i {
          HistoryOrdered(rx.history, f, i);
        }
      }
    }
  }

  lemma HistoryOrdered(hs: seq<Accounted>, i: nat, j: nat)
    requires Descending(hs) && i < j < |hs|
    ensures hs[j].last < hs[i].first && hs[j].window < hs[i].window
  {
  }

  lemma HistoryMatches(first: int, rx: Rx, books: seq<Book>, i: nat)
    requires HistoryInv(first, rx, books) && i < |rx.history|
    ensures i < |books| && Matches(books[|books| - 1 - i], rx.history[i])
  {
  }

  lemma LateFrameHistory(first: int, rx: Rx, bs: seq<Book>, n: int)
    requires HistoryInv(first, rx, bs)
    ensures HistoryInv(first, rx, ChargeBook(bs, rx.history, n))
  {
    hide FindReport;
    var books := ChargeBook(bs, rx.history, n);
    forall i | 0 <= i < |rx.history| ensures Matches(books[|books| - 1 - i], rx.history[i]) {
      assert Matches(bs[|bs| - 1 - i], rx.history[i]);
    }
  }

  /** A number above the accounted ones touches no book. */
  lemma NewFrameBooks(first: int, rx: Rx, bs: seq<Book>, r: set<int>, n: int)
    requires HistoryInv(first, rx, bs) && BooksInv(bs, |rx.history|, r) && n > rx.accounted && n !in r
    ensures BooksInv(bs, |rx.history|, r + {n})
  {
    var hs := rx.history;
    forall k | 0 <= k < |bs| ensures Balanced(bs[k], k + |hs| >= |bs|, r + {n}) {
      hide HistoryInv, Missing;
      assert Balanced(bs[k], k + |hs| >= |bs|, r);
      MissingAdd(bs[k].first, bs[k].last, r, n);
      if k + |hs| >= |bs| {
        var i := |bs| - 1 - k;
        HistoryMatches(first, rx, bs, i);
        BelowAccounted(first, rx, bs, i);
      }
    }
  }

  lemma BelowAccounted(first: int, rx: Rx, books: seq<Book>, i: nat)
    requires HistoryInv(first, rx, books) && i < |rx.history|
    ensures rx.history[i].last <= rx.accounted
  {
    if i > 0 {
      HistoryOrdered(rx.history, 0, i);
      assert rx.history[0].first <= rx.history[0].last;
    }
  }

  lemma FirstFrameInv(s: State, t: int)
    requires Inv(s) && !s.rx.known
    ensures Inv(Step(s, EvFrame(t)))
  {
    var s' := Step(s, EvFrame(t));
    var n := t % 256;
    assert s'.h.received == {n};
    assert Got(n, n, {n}) == Got(n, n - 1, {n}) + 1;
    assert s'.rx.window == Window(1, 0, n, [], 0);
  }

  lemma LateFrameWindow(w: Window, history: seq<Accounted>, accounted: int, r: set<int>, n: int)
    requires WindowInv(w, accounted, r) && n <= accounted
    ensures WindowInv(CountLate(w, history, n).(frames := w.frames + 1), accounted, r + {n})
  {
    hide Got, FindReport, FindLate;
    var w' := CountLate(w, history, n).(frames := w.frames + 1);
    assert w'.late == w.late + 1 && w'.lastSeq == w.lastSeq;
    if w.frames > w.late {
      GotAdd(accounted + 1, w.lastSeq, r, n);
    }
  }

  lemma LateFrameInv(s: State, t: int)
    requires Inv(s) && s.rx.known && Admissible(s, EvFrame(t)) && Numbered(s.h, t) <= s.rx.accounted
    ensures Inv(Step(s, EvFrame(t)))
  {
    hide Missing, Got, FindReport, FindLate, Sum, HistoryInv, LateInv, WindowInv, BooksInv, CountLate, ChargeBook, Unwrap;
    var n, first := Numbered(s.h, t), s.h.t0 % 256;
    UnwrapTracks(s.h, t);
    var s' := Step(s, EvFrame(t));
    CountLateInv(s.rx.window, s.rx.history, n, s.rx.window.frames + 1);
    CountLateFrames(s.rx.window, s.rx.history, n);
    LateFrameBooks(first, s.rx, s.h.books, s.h.received, n);
    LateFrameHistory(first, s.rx, s.h.books, n);
    LateFrameWindow(s.rx.window, s.rx.history, s.rx.accounted, s.h.received, n);
    MissingAdd(first, s.rx.accounted, s.h.received, n);
    HistoryFrame(first, s.rx, s'.rx, s'.h.books);
  }

  lemma CountLateFrames(w: Window, history: seq<Accounted>, n: int)
    ensures CountLate(w, history, n).frames == w.frames
  {
  }

  /** The history reads only these fields. */
  lemma HistoryFrame(first: int, rx: Rx, rx': Rx, books: seq<Book>)
    requires HistoryInv(first, rx, books)
    requires rx'.history == rx.history && rx'.accounted == rx.accounted && rx'.reportIndex == rx.reportIndex
    ensures HistoryInv(first, rx', books)
  {
  }

  lemma NewFrameWindow(w: Window, accounted: int, r: set<int>, n: int)
    requires WindowInv(w, accounted, r) && n > accounted && n !in r
    ensures WindowInv(w.(lastSeq := if w.frames == w.late || n > w.lastSeq then n else w.lastSeq,
                         frames := w.frames + 1), accounted, r + {n})
  {
    hide Got;
    var last := if w.frames == w.late || n > w.lastSeq then n else w.lastSeq;
    if w.frames == w.late {
      GotNone(accounted + 1, n, r);
    } else if n > w.lastSeq {
      GotExtends(accounted + 1, w.lastSeq, n, r);
    }
    GotAdd(accounted + 1, last, r, n);
  }

  lemma NewFrameInv(s: State, t: int)
    requires Inv(s) && s.rx.known && Admissible(s, EvFrame(t)) && Numbered(s.h, t) > s.rx.accounted
    ensures Inv(Step(s, EvFrame(t)))
  {
    hide Missing, Got, FindReport, FindLate, Sum, HistoryInv, LateInv, WindowInv, BooksInv, CountLate, ChargeBook, Unwrap;
    var n, first := Numbered(s.h, t), s.h.t0 % 256;
    UnwrapTracks(s.h, t);
    var s' := Step(s, EvFrame(t));
    NewFrameBooks(first, s.rx, s.h.books, s.h.received, n);
    NewFrameWindow(s.rx.window, s.rx.accounted, s.h.received, n);
    MissingAdd(first, s.rx.accounted, s.h.received, n);
    HistoryFrame(first, s.rx, s'.rx, s.h.books);
    LateFrame(s.rx.window, s'.rx.window, s.rx.history);
  }

  lemma LateFrame(w: Window, w': Window, history: seq<Accounted>)
    requires LateInv(w, history) && w'.late == w.late && w'.lateFrom == w.lateFrom && w'.lateOld == w.lateOld
    ensures LateInv(w', history)
  {
  }

  // ---- a report -----------------------------------------------------------------------------------

  /** What a report counts as lost is exactly what is missing of its range. */
  lemma LostIsMissing(w: Window, accounted: int, r: set<int>)
    requires WindowInv(w, accounted, r) && w.frames > w.late
    ensures w.lastSeq - accounted - (w.frames - w.late) == Missing(accounted + 1, w.lastSeq, r)
  {
    GotAndMissing(accounted + 1, w.lastSeq, r);
  }

  lemma PublishInv(s: State, free: bool)
    requires Inv(s)
    ensures Inv(Step(s, EvPublish(free)))
  {
    hide Missing, Got, HistoryInv, BooksInv, Shift, WindowInv, LateInv;
    if free && !s.rx.pending && s.rx.known {
      var s' := Step(s, EvPublish(free));
      var w, a, r := s.rx.window, s.rx.accounted, s.h.received;
      var first := s.h.t0 % 256;
      EmptyWindow(w, a, r, s'.rx.history);
      if w.frames > w.late {
        LostIsMissing(w, a, r);
        MissingSplits(first, a, w.lastSeq, r);
        PublishHistory(s, s');
        PublishBooks(s, s');
      } else {
        assert s'.h == s.h && s'.rx.history == s.rx.history;
        LaterReport(first, s.rx, s'.rx, s.h.books);
      }
    }
  }

  lemma EmptyWindow(w: Window, accounted: int, r: set<int>, history: seq<Accounted>)
    requires WindowInv(w, accounted, r)
    ensures WindowInv(EMPTY_WINDOW, if w.frames > w.late then w.lastSeq else accounted, r)
    ensures LateInv(EMPTY_WINDOW, history)
    ensures w.late <= w.frames && (w.frames > w.late ==> w.lastSeq > accounted)
  {
  }

  lemma EmptyTable(history: seq<Accounted>)
    ensures LateInv(EMPTY_WINDOW, history)
  {
  }

  lemma LaterReport(first: int, rx: Rx, rx': Rx, books: seq<Book>)
    requires HistoryInv(first, rx, books)
    requires rx'.history == rx.history && rx'.accounted == rx.accounted && rx'.reportIndex >= rx.reportIndex
    ensures HistoryInv(first, rx', books)
  {
  }

  /** The book a report opens. */
  function NewBook(s: State): Book {
    Book(s.rx.reportIndex, s.rx.accounted + 1, s.rx.window.lastSeq,
         Missing(s.rx.accounted + 1, s.rx.window.lastSeq, s.h.received), 0)
  }

  lemma ShiftDescends(first: int, rx: Rx, books: nat, entry: Accounted)
    requires Bounded(first, rx, books) && Descending(rx.history)
    requires entry.first == rx.accounted + 1 && entry.window == rx.reportIndex
    ensures Descending(Shift(rx.history, entry))
  {
    var hs, hs' := rx.history, Shift(rx.history, entry);
    forall i, j | 0 <= i < j < |hs'| ensures hs'[j].last < hs'[i].first && hs'[j].window < hs'[i].window {
      assert hs'[j] == hs[j - 1];
      if i > 0 {
        assert hs'[i] == hs[i - 1];
      } else if j > 1 {
        HistoryOrdered(hs, 0, j - 1);
        assert hs[0].first <= hs[0].last;
      }
    }
  }

  lemma ShiftMirrors(hs: seq<Accounted>, books: seq<Book>, entry: Accounted, book: Book)
    requires Mirrored(hs, books) && Matches(book, entry)
    ensures Mirrored(Shift(hs, entry), books + [book])
  {
    var hs', bs := Shift(hs, entry), books + [book];
    forall i | 0 <= i < |hs'| ensures Matches(bs[|bs| - 1 - i], hs'[i]) {
      if i > 0 {
        assert Matches(books[|books| - 1 - (i - 1)], hs[i - 1]);
      }
    }
  }

  lemma ShiftBounded(first: int, rx: Rx, rx': Rx, books: nat, entry: Accounted)
    requires Bounded(first, rx, books)
    requires first - 1 <= rx.accounted < rx'.accounted
    requires entry == Accounted(rx.reportIndex, rx.accounted + 1, rx'.accounted)
    requires rx'.reportIndex == rx.reportIndex + 1 && rx'.history == Shift(rx.history, entry)
    ensures Bounded(first, rx', books + 1)
  {
    forall i | 0 < i < |rx'.history| ensures rx'.history[i] == rx.history[i - 1] {
    }
  }

  lemma PublishHistory(s: State, s': State)
    requires s.rx.known && Inv(s) && s.rx.window.frames > s.rx.window.late
    requires s' == Step(s, EvPublish(true)) && !s.rx.pending
    ensures s'.h.books == s.h.books + [NewBook(s)]
    ensures HistoryInv(s'.h.t0 % 256, s'.rx, s'.h.books)
  {
    hide Missing, Got, BooksInv, LateInv, Bounded, Descending, Mirrored, Shift;
    LostIsMissing(s.rx.window, s.rx.accounted, s.h.received);
    var first := s.h.t0 % 256;
    var entry := Accounted(s.rx.reportIndex, s.rx.accounted + 1, s.rx.window.lastSeq);
    ShiftDescends(first, s.rx, |s.h.books|, entry);
    ShiftMirrors(s.rx.history, s.h.books, entry, NewBook(s));
    ShiftBounded(first, s.rx, s'.rx, |s.h.books|, entry);
  }

  lemma PublishBooks(s: State, s': State)
    requires s.rx.known && Inv(s) && s.rx.window.frames > s.rx.window.late
    requires s' == Step(s, EvPublish(true)) && !s.rx.pending
    ensures BooksInv(s'.h.books, |s'.rx.history|, s'.h.received)
  {
    hide Missing, Got, HistoryInv, LateInv, WindowInv;
    PublishHistory(s, s');
    var bs, r := s'.h.books, s.h.received;
    forall k | 0 <= k < |bs| ensures Balanced(bs[k], k + |s'.rx.history| >= |bs|, r) {
      if k < |s.h.books| {
        assert Balanced(s.h.books[k], k + |s.rx.history| >= |s.h.books|, r);
      }
    }
  }

  lemma StepInv(s: State, ev: Event)
    requires Inv(s) && Admissible(s, ev)
    ensures Inv(Step(s, ev))
  {
    hide Missing, Got, HistoryInv, BooksInv, LateInv, WindowInv, OnFrame, Publish, ChargeBook;
    match ev
    case EvFrame(t) =>
      if !s.rx.known {
        FirstFrameInv(s, t);
      } else if Numbered(s.h, t) <= s.rx.accounted {
        LateFrameInv(s, t);
      } else {
        NewFrameInv(s, t);
      }
    case EvPublish(free) => PublishInv(s, free);
    case EvTaken =>
      if s.rx.known {
        HistoryFrame(s.h.t0 % 256, s.rx, Step(s, ev).rx, s.h.books);
      }
  }

  lemma {:induction false} RunInv(evs: seq<Event>, ss: seq<State>, k: nat)
    requires IsRun(evs, ss) && k < |ss|
    ensures Inv(ss[k])
    decreases k
  {
    hide Step, Inv, Admissible;
    if k == 0 {
      BeginInv();
    } else {
      RunInv(evs, ss, k - 1);
      StepInv(ss[k - 1], evs[k - 1]);
    }
  }

  lemma BeginInv()
    ensures Inv(BEGIN)
  {
  }

  // ---- main results ----------------------------------------------------------------------------------

  /** Conservation: at every moment of every run, the published losses less the
      late frames numbered from the first one on are exactly the accounted
      numbers not received so far. */
  lemma LossConservation(evs: seq<Event>, ss: seq<State>, k: nat)
    requires IsRun(evs, ss) && k < |ss| && ss[k].rx.known
    ensures ss[k].h.lost - ss[k].h.lateSince
         == Missing(ss[k].h.t0 % 256, ss[k].rx.accounted, ss[k].h.received)
  {
    RunInv(evs, ss, k);
  }

  /** The unwrapped number is the true number, counted from the first frame. */
  lemma NumberIsTrue(evs: seq<Event>, ss: seq<State>, k: nat)
    requires IsRun(evs, ss) && k < |ss| && ss[k].rx.known
    ensures ss[k].rx.number == ss[k].h.t0 % 256 + (ss[k].h.t - ss[k].h.t0)
  {
    RunInv(evs, ss, k);
  }

  /** Report by report: while a report is in the history, its loss less the late
      frames charged to it is what is still missing of its range; later it may
      only be too high. */
  lemma EachReportConserved(evs: seq<Event>, ss: seq<State>, k: nat, i: nat)
    requires IsRun(evs, ss) && k < |ss| && ss[k].rx.known && i < |ss[k].h.books|
    ensures var b := ss[k].h.books[i];
            && b.lost - b.charged >= Missing(b.first, b.last, ss[k].h.received)
            && (i + |ss[k].rx.history| >= |ss[k].h.books| ==>
                  b.lost - b.charged == Missing(b.first, b.last, ss[k].h.received))
  {
    RunInv(evs, ss, k);
    assert Balanced(ss[k].h.books[i], i + |ss[k].rx.history| >= |ss[k].h.books|, ss[k].h.received);
  }

  /** A late frame is charged to the one report of the history whose range holds
      it, or to no report; the table of late frames never holds more reports
      than the history, and accounts for every late frame. */
  lemma LateFramesAttributed(evs: seq<Event>, ss: seq<State>, k: nat, n: int)
    requires IsRun(evs, ss) && k < |ss| && ss[k].rx.known
    ensures var rx := ss[k].rx;
            && |rx.window.lateFrom| <= |rx.history| <= HISTORY
            && rx.window.late == Sum(rx.window.lateFrom) + rx.window.lateOld
            && (forall i, j :: 0 <= i < j < |rx.history| ==>
                  !(rx.history[i].first <= n <= rx.history[i].last && rx.history[j].first <= n <= rx.history[j].last))
    ensures var rx := ss[k].rx;
            var charged := CountLate(rx.window, rx.history, n);
            && charged.late == rx.window.late + 1
            && (charged.lateOld == rx.window.lateOld + 1 <==>
                  forall i :: 0 <= i < |rx.history| ==> !(rx.history[i].first <= n <= rx.history[i].last))
            && (forall i :: 0 <= i < |rx.history| ==>
                  LateOf(charged.lateFrom, rx.history[i].window) == LateOf(rx.window.lateFrom, rx.history[i].window)
                    + (if rx.history[i].first <= n <= rx.history[i].last then 1 else 0))
  {
    hide Sum, LateOf, Missing, Got, WindowInv, BooksInv, Step;
    RunInv(evs, ss, k);
    var rx := ss[k].rx;
    LateTableFits(rx.window.lateFrom, rx.history);
    forall i, j | 0 <= i < j < |rx.history|
      ensures !(rx.history[i].first <= n <= rx.history[i].last && rx.history[j].first <= n <= rx.history[j].last)
      ensures rx.history[i].window != rx.history[j].window
    {
      HistoryOrdered(rx.history, i, j);
    }
    ChargedOnce(rx.window, rx.history, n);
  }

  /** The late frames the table holds for a report. */
  function LateOf(lates: seq<Late>, window: nat): nat {
    var j := FindLate(lates, window, 0);
    if j < |lates| then lates[j].count else 0
  }

  /** A charge raises the count of its own report by one, of no other. */
  lemma ChargeCounts(lates: seq<Late>, window: nat, other: nat)
    ensures LateOf(Charge(lates, window), other) == LateOf(lates, other) + (if other == window then 1 else 0)
  {
    var charged := Charge(lates, window);
    forall i | 0 <= i < |lates| ensures charged[i].window == lates[i].window {}
    var before, after := FindLate(lates, other, 0), FindLate(charged, other, 0);
    if before < |lates| {
      assert charged[before].window == other;
      assert after == before;
    } else {
      assert after >= |lates|;
      assert other == window ==> |charged| == |lates| + 1 && charged[|lates|] == Late(window, 1);
    }
  }

  /** At most one report of the history holds a number: the one the search finds. */
  lemma OnlyHolder(history: seq<Accounted>, n: int, i: nat)
    requires forall k, m :: 0 <= k < m < |history| ==>
               !(history[k].first <= n <= history[k].last && history[m].first <= n <= history[m].last)
    requires i < |history|
    ensures history[i].first <= n <= history[i].last <==> i == FindReport(history, n, 0)
  {
  }

  lemma ChargedOnce(w: Window, history: seq<Accounted>, n: int)
    requires forall i, j :: 0 <= i < j < |history| ==>
               history[i].window != history[j].window
               && !(history[i].first <= n <= history[i].last && history[j].first <= n <= history[j].last)
    ensures forall i :: 0 <= i < |history| ==>
              LateOf(CountLate(w, history, n).lateFrom, history[i].window) == LateOf(w.lateFrom, history[i].window)
                + (if history[i].first <= n <= history[i].last then 1 else 0)
  {
    hide Charge, LateOf, FindReport;
    var r := FindReport(history, n, 0);
    forall i | 0 <= i < |history|
      ensures LateOf(CountLate(w, history, n).lateFrom, history[i].window) == LateOf(w.lateFrom, history[i].window)
                + (if history[i].first <= n <= history[i].last then 1 else 0)
    {
      OnlyHolder(history, n, i);
      if r < |history| {
        ChargeCounts(w.lateFrom, history[r].window, history[i].window);
      }
    }
  }

  /** Entries are distinct and each is of a report of the history, so they fit. */
  lemma LateTableFits(lates: seq<Late>, history: seq<Accounted>)
    requires forall i, j :: 0 <= i < j < |lates| ==> lates[i].window != lates[j].window
    requires forall i :: 0 <= i < |lates| ==> InHistory(lates[i].window, history)
    ensures |lates| <= |history|
  {
    var inTable := set i | 0 <= i < |lates| :: lates[i].window;
    var inHistory := set r | 0 <= r < |history| :: history[r].window;
    DistinctSize(lates);
    HistorySize(history);
    assert inTable <= inHistory by {
      forall x | x in inTable ensures x in inHistory {
        var i :| 0 <= i < |lates| && lates[i].window == x;
        var r :| 0 <= r < |history| && history[r].window == lates[i].window;
      }
    }
    SubsetSize(inTable, inHistory);
  }

  lemma {:induction false} SubsetSize(a: set<nat>, b: set<nat>)
    requires a <= b
    ensures |a| <= |b|
  {
    if a != {} {
      var x :| x in a;
      SubsetSize(a - {x}, b - {x});
    }
  }

  lemma {:induction false} DistinctSize(lates: seq<Late>)
    requires forall i, j :: 0 <= i < j < |lates| ==> lates[i].window != lates[j].window
    ensures |set i | 0 <= i < |lates| :: lates[i].window| == |lates|
    decreases |lates|
  {
    if lates != [] {
      var n := |lates| - 1;
      var rest := lates[..n];
      DistinctSize(rest);
      var all, before := set i | 0 <= i < |lates| :: lates[i].window, set i | 0 <= i < |rest| :: rest[i].window;
      assert all == before + {lates[n].window} by {
        forall x | x in all ensures x in before + {lates[n].window} {
          var i :| 0 <= i < |lates| && lates[i].window == x;
          if i < n { assert rest[i].window == x; }
        }
        forall x | x in before ensures x in all {
          var i :| 0 <= i < |rest| && rest[i].window == x;
          assert lates[i].window == x;
        }
        assert lates[n].window in all;
      }
      assert lates[n].window !in before;
    }
  }

  lemma {:induction false} HistorySize(history: seq<Accounted>)
    ensures |set r | 0 <= r < |history| :: history[r].window| <= |history|
    decreases |history|
  {
    if history != [] {
      var n := |history| - 1;
      var rest := history[..n];
      HistorySize(rest);
      var all := set r | 0 <= r < |history| :: history[r].window;
      var before := set r | 0 <= r < |rest| :: rest[r].window;
      assert all <= before + {history[n].window} by {
        forall x | x in all ensures x in before + {history[n].window} {
          var r :| 0 <= r < |history| && history[r].window == x;
          if r < n { assert rest[r].window == x; }
        }
      }
      SubsetSize(all, before + {history[n].window});
    }
  }

  // ---- the receiver's statics, updated in place ------------------------------------------------------

  class Receiver {
    var known: bool
    var number: int
    var accounted: int
    var frames: nat
    var late: nat
    var lastSeq: int
    var lateFrom: array<Late>
    var lateWindows: nat
    var lateOld: nat
    var reportIndex: nat
    var history: array<Accounted>
    var accountedCount: nat
    var pending: bool

    ghost predicate Shape()
      reads this
    {
      && lateFrom.Length == HISTORY && history.Length == HISTORY
      && lateWindows <= HISTORY && accountedCount <= HISTORY
    }

    ghost function Collected(): Window
      requires Shape()
      reads this, lateFrom
    {
      Window(frames, late, lastSeq, lateFrom[..lateWindows], lateOld)
    }

    ghost function View(): Rx
      requires Shape()
      reads this, lateFrom, history
    {
      Rx(known, number, accounted, Collected(), reportIndex, history[..accountedCount], pending)
    }

    ghost predicate Valid()
      reads this, lateFrom, history
    {
      && Shape()
      && LateInv(Collected(), history[..accountedCount])
      && late <= frames
      && (frames > late ==> lastSeq > accounted)
    }

    constructor ()
      ensures Valid() && View() == START && fresh(lateFrom) && fresh(history)
    {
      hide Sum, InHistory, LateInv;
      known, number, accounted, pending := false, 0, 0, false;
      frames, late, lastSeq, lateWindows, lateOld := 0, 0, 0, 0, 0;
      reportIndex, accountedCount := 0, 0;
      lateFrom := new Late[HISTORY];
      history := new Accounted[HISTORY];
      new;
      assert lateFrom[..lateWindows] == [] && history[..accountedCount] == [];
      EmptyTable([]);
    }

    /** The report of the history that holds a number. */
    method Holder(n: int) returns (i: nat)
      requires Shape()
      ensures i == FindReport(history[..accountedCount], n, 0)
    {
      i := 0;
      while i < accountedCount && (n < history[i].first || n > history[i].last)
        invariant i <= accountedCount
        invariant FindReport(history[..accountedCount], n, 0) == FindReport(history[..accountedCount], n, i)
      {
        i := i + 1;
      }
    }

    method LateEntry(window: nat) returns (j: nat)
      requires Shape()
      ensures j == FindLate(lateFrom[..lateWindows], window, 0)
    {
      j := 0;
      while j < lateWindows && lateFrom[j].window != window
        invariant j <= lateWindows
        invariant FindLate(lateFrom[..lateWindows], window, 0) == FindLate(lateFrom[..lateWindows], window, j)
      {
        j := j + 1;
      }
    }

    /** The table is never written beyond its end. */
    method CountLateFrame(n: int)
      requires Shape() && LateInv(Collected(), history[..accountedCount])
      modifies this`late, this`lateWindows, this`lateOld, lateFrom
      ensures Shape() && Collected() == CountLate(old(Collected()), history[..accountedCount], n)
    {
      hide Sum, FindReport, FindLate;
      ghost var w, hs := Collected(), history[..accountedCount];
      CountLateInv(w, hs, n, frames);
      LateTableFits(CountLate(w, hs, n).lateFrom, hs);
      late := late + 1;
      var i := Holder(n);
      if i == accountedCount {
        lateOld := lateOld + 1;
        return;
      }
      var window := history[i].window;
      var j := LateEntry(window);
      if j < lateWindows {
        lateFrom[j] := lateFrom[j].(count := lateFrom[j].count + 1);
      } else {
        lateFrom[lateWindows] := Late(window, 1);
        lateWindows := lateWindows + 1;
      }
    }

    method CanFrame(received: U8)
      requires Valid()
      modifies this`known, this`number, this`accounted, this`frames, this`late, this`lastSeq, this`lateWindows,
               this`lateOld, lateFrom
      ensures Valid() && View() == OnFrame(old(View()), received)
    {
      hide Sum, FindReport, FindLate, InHistory, LateInv, CountLate;
      NumberFrame(received);
      if number <= accounted {
        ghost var w, hs := Collected(), history[..accountedCount];
        CountLateInv(w, hs, number, frames + 1);
        CountLateFrame(number);
        CountLateKeeps(w, hs, number);
      } else if frames == late || number > lastSeq {
        SameTable(Collected(), number, frames + 1, history[..accountedCount]);
        lastSeq := number;
      } else {
        SameTable(Collected(), lastSeq, frames + 1, history[..accountedCount]);
      }
      frames := frames + 1;
    }

    /** The first frame starts the numbering just below its own number. */
    method NumberFrame(received: U8)
      requires Shape()
      modifies this`known, this`number, this`accounted
      ensures View() == var rx := old(View());
                        if rx.known then rx.(number := Unwrap(rx.number, received))
                        else rx.(known := true, number := received, accounted := received - 1)
    {
      if known {
        number := Unwrap(number, received);
      } else {
        known, number, accounted := true, received, received - 1;
      }
    }

    static lemma SameTable(w: Window, lastSeq: int, frames: nat, history: seq<Accounted>)
      requires LateInv(w, history)
      ensures LateInv(w.(lastSeq := lastSeq, frames := frames), history)
    {
    }

    static lemma CountLateKeeps(w: Window, history: seq<Accounted>, n: int)
      ensures var w' := CountLate(w, history, n);
              w'.late == w.late + 1 && w'.frames == w.frames && w'.lastSeq == w.lastSeq
    {
    }

    /** Moves the accounts up by one; the oldest is dropped. */
    method Push(entry: Accounted)
      requires Shape()
      modifies history, this`accountedCount
      ensures Shape() && history[..accountedCount] == Shift(old(history[..accountedCount]), entry)
    {
      var i := HISTORY - 1;
      while i > 0
        invariant 0 <= i < HISTORY && accountedCount == old(accountedCount)
        invariant forall k :: i < k < HISTORY ==> history[k] == old(history[k - 1])
        invariant forall k :: 0 <= k <= i ==> history[k] == old(history[k])
      {
        history[i] := history[i - 1];
        i := i - 1;
      }
      history[0] := entry;
      if accountedCount < HISTORY {
        accountedCount := accountedCount + 1;
      }
    }

    /** publishCanWindow. */
    method PublishWindow(free: bool) returns (report: Option<Report>)
      requires Valid()
      modifies this, history
      ensures history == old(history) && lateFrom == old(lateFrom)
      ensures Valid() && (View(), report) == Publish(old(View()), free)
    {
      hide Sum, InHistory, Shift, LateInv;
      if !free || pending {
        return None;
      }
      var window := TakeWindow();
      var index := reportIndex;
      reportIndex := reportIndex + 1;
      var expected := 0;
      var received := window.frames - window.late;
      if received != 0 && window.lastSeq > accounted {
        expected := window.lastSeq - accounted;
        Push(Accounted(index, accounted + 1, window.lastSeq));
        accounted := window.lastSeq;
      }
      var lost := if expected > received then expected - received else 0;
      report := Some(Report(index, lost, window));
      pending := true;
      EmptyTable(history[..accountedCount]);
    }

    /** What was collected, leaving an empty window. */
    method TakeWindow() returns (window: Window)
      requires Shape()
      modifies this`frames, this`late, this`lastSeq, this`lateWindows, this`lateOld
      ensures Shape() && window == old(Collected()) && Collected() == EMPTY_WINDOW
    {
      window := Window(frames, late, lastSeq, lateFrom[..lateWindows], lateOld);
      frames, late, lastSeq, lateWindows, lateOld := 0, 0, 0, 0, 0;
    }

    method Take()
      requires Valid()
      modifies this`pending
      ensures Valid() && View() == old(View()).(pending := false)
    {
      pending := false;
    }
  }
}
