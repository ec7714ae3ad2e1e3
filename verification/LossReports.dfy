/**
 * The published reports: what they say, added up, is what happened. Every late
 * frame is published once, against the report that had counted it as lost.
 */
module LossReports {
  import opened Options
  import opened Words
  import opened LossAccounting

  /** The reports published by the first k events. */
  ghost function Published(evs: seq<Event>, ss: seq<State>, k: nat): (reports: seq<Report>)
    requires |ss| == |evs| + 1 && k <= |evs|
  {
    if k == 0 then []
    else
      var before := Published(evs, ss, k - 1);
      match evs[k - 1]
      case EvPublish(free) =>
        var report := Publish(ss[k - 1].rx, free).1;
        if report.Some? then before + [report.value] else before
      case _ => before
  }

  /** What the reports give back to a report. */
  function GivenBack(reports: seq<Report>, window: nat): nat {
    if reports == [] then 0
    else GivenBack(reports[..|reports| - 1], window) + LateOf(reports[|reports| - 1].window.lateFrom, window)
  }

  function LateSum(reports: seq<Report>): nat {
    if reports == [] then 0 else LateSum(reports[..|reports| - 1]) + reports[|reports| - 1].window.late
  }

  function FrameSum(reports: seq<Report>): nat {
    if reports == [] then 0 else FrameSum(reports[..|reports| - 1]) + reports[|reports| - 1].window.frames
  }

  function LossSum(reports: seq<Report>): nat {
    if reports == [] then 0 else LossSum(reports[..|reports| - 1]) + reports[|reports| - 1].lost
  }

  lemma SumsAppend(reports: seq<Report>, r: Report, window: nat)
    ensures GivenBack(reports + [r], window) == GivenBack(reports, window) + LateOf(r.window.lateFrom, window)
    ensures LateSum(reports + [r]) == LateSum(reports) + r.window.late
    ensures FrameSum(reports + [r]) == FrameSum(reports) + r.window.frames
    ensures LossSum(reports + [r]) == LossSum(reports) + r.lost
  {
    assert (reports + [r])[..|reports|] == reports;
  }

  /** A frame that comes after the report that accounted its number, or its place. */
  predicate IsLate(s: State, ev: Event) { ev.EvFrame? && s.rx.known && Numbered(s.h, ev.t) <= s.rx.accounted }

  /** A late frame numbered before the very first one; no report has counted it. */
  predicate IsEarly(s: State, ev: Event) { IsLate(s, ev) && Numbered(s.h, ev.t) < s.h.t0 % 256 }

  ghost function Count(evs: seq<Event>, ss: seq<State>, k: nat, P: (State, Event) -> bool): nat
    requires |ss| == |evs| + 1 && k <= |evs|
  {
    if k == 0 then 0 else Count(evs, ss, k - 1, P) + (if P(ss[k - 1], evs[k - 1]) then 1 else 0)
  }

  // ---- what the reports and the open window hold together -----------------------------------

  ghost predicate Reported(s: State, reports: seq<Report>) {
    && |reports| == s.rx.reportIndex
    && (forall j :: 0 <= j < |reports| ==> reports[j].index == j)
    && LossSum(reports) == s.h.lost
    && (forall w: nat :: w >= s.rx.reportIndex ==> GivenBack(reports, w) == 0)
  }

  /** The books are those of earlier reports, in their order; what was charged to
      each is in the reports and the open window. */
  ghost predicate Kept(s: State, reports: seq<Report>) {
    var books := s.h.books;
    && (forall i :: 0 <= i < |books| ==> books[i].window < |reports|)
    && (forall i, j :: 0 <= i < j < |books| ==> books[i].window < books[j].window)
    && (forall i :: 0 <= i < |books| ==>
          && reports[books[i].window].lost == books[i].lost
          && reports[books[i].window].window.lastSeq == books[i].last
          && books[i].charged ==
             GivenBack(reports, books[i].window) + LateOf(s.rx.window.lateFrom, books[i].window))
  }

  lemma NotInTable(rx: Rx, w: nat)
    requires LateInv(rx.window, rx.history) && w >= rx.reportIndex
    requires forall i :: 0 <= i < |rx.history| ==> rx.history[i].window < rx.reportIndex
    ensures LateOf(rx.window.lateFrom, w) == 0
  {
    var lates := rx.window.lateFrom;
    forall j | 0 <= j < |lates| ensures lates[j].window < rx.reportIndex {
      var r :| 0 <= r < |rx.history| && rx.history[r].window == lates[j].window;
    }
  }

  lemma TableBelowIndex(s: State, w: nat)
    requires Inv(s) && w >= s.rx.reportIndex
    ensures LateOf(s.rx.window.lateFrom, w) == 0
  {
    hide BooksInv, WindowInv, Missing, Got, LateInv;
    if s.rx.known {
      NotInTable(s.rx, w);
    }
  }

  lemma PublishReported(s: State, reports: seq<Report>, free: bool)
    requires Inv(s) && Reported(s, reports)
    ensures var report := Publish(s.rx, free).1;
            Reported(Step(s, EvPublish(free)), if report.Some? then reports + [report.value] else reports)
  {
    hide Inv, GivenBack, LossSum, LateOf, Shift;
    var report := Publish(s.rx, free).1;
    if report.Some? {
      SumsAppend(reports, report.value, 0);
      forall w: nat | w >= s.rx.reportIndex + 1 ensures GivenBack(reports + [report.value], w) == 0 {
        SumsAppend(reports, report.value, w);
        TableBelowIndex(s, w);
      }
    }
  }

  lemma FrameReported(s: State, reports: seq<Report>, t: int)
    requires Reported(s, reports)
    ensures Reported(Step(s, EvFrame(t)), reports)
  {
    hide GivenBack, LossSum, CountLate, ChargeBook, Unwrap;
  }

  lemma FrameKept(s: State, reports: seq<Report>, t: int)
    requires Inv(s) && Reported(s, reports) && Kept(s, reports)
    requires Admissible(s, EvFrame(t))
    ensures Kept(Step(s, EvFrame(t)), reports)
  {
    hide Inv, GivenBack, LateOf, CountLate, ChargeBook, Unwrap, Reported;
    var ev := EvFrame(t);
    if IsLate(s, ev) {
      LateUnwrapped(s, t);
      LateKept(s, reports, Numbered(s.h, t));
      assert Step(s, ev).h.books == ChargeBook(s.h.books, s.rx.history, Numbered(s.h, t));
      assert Step(s, ev).rx.window.lateFrom == CountLate(s.rx.window, s.rx.history, Numbered(s.h, t)).lateFrom;
    } else {
      NewFrameTable(s, t);
    }
  }

  lemma LateUnwrapped(s: State, t: int)
    requires Inv(s) && s.rx.known && Admissible(s, EvFrame(t))
    ensures Unwrap(s.rx.number, t % 256) == Numbered(s.h, t)
  {
    hide HistoryInv, LateInv, WindowInv, BooksInv, Missing;
    UnwrapTracks(s.h, t);
  }

  lemma NewFrameTable(s: State, t: int)
    requires Inv(s) && Admissible(s, EvFrame(t)) && !IsLate(s, EvFrame(t))
    ensures Step(s, EvFrame(t)).rx.window.lateFrom == s.rx.window.lateFrom
    ensures Step(s, EvFrame(t)).rx.window.late == s.rx.window.late
    ensures Step(s, EvFrame(t)).h.books == s.h.books
  {
    hide HistoryInv, LateInv, WindowInv, BooksInv, Missing, CountLate, ChargeBook;
    if s.rx.known {
      UnwrapTracks(s.h, t);
    }
  }

  /** A late frame is charged to one book, and in the table to the same report. */
  lemma LateKept(s: State, reports: seq<Report>, n: int)
    requires Inv(s) && s.rx.known && Kept(s, reports)
    ensures var books := ChargeBook(s.h.books, s.rx.history, n);
            var table := CountLate(s.rx.window, s.rx.history, n).lateFrom;
            && |books| == |s.h.books|
            && (forall i :: 0 <= i < |books| ==>
                  && books[i] == s.h.books[i].(charged := books[i].charged)
                  && books[i].charged == GivenBack(reports, books[i].window) + LateOf(table, books[i].window))
  {
    hide GivenBack, LateOf, BooksInv, WindowInv, LateInv, Missing, Charge, FindReport;
    var r := FindReport(s.rx.history, n, 0);
    var table := CountLate(s.rx.window, s.rx.history, n).lateFrom;
    var old_books := s.h.books;
    if r < |s.rx.history| {
      HistoryMatches(s.h.t0 % 256, s.rx, old_books, r);
      var k := |old_books| - 1 - r;
      assert old_books[k].window == s.rx.history[r].window;
      forall i | 0 <= i < |old_books|
        ensures LateOf(table, old_books[i].window)
             == LateOf(s.rx.window.lateFrom, old_books[i].window) + (if i == k then 1 else 0)
      {
        ChargeCounts(s.rx.window.lateFrom, s.rx.history[r].window, old_books[i].window);
        assert i < k ==> old_books[i].window < old_books[k].window;
        assert k < i ==> old_books[k].window < old_books[i].window;
      }
    }
  }

  lemma PublishKept(s: State, reports: seq<Report>, free: bool)
    requires Inv(s) && Reported(s, reports) && Kept(s, reports)
    ensures var report := Publish(s.rx, free).1;
            Kept(Step(s, EvPublish(free)), if report.Some? then reports + [report.value] else reports)
  {
    hide GivenBack, LateOf, LossSum, Inv, Publish, Kept;
    var report := Publish(s.rx, free).1;
    if report.Some? {
      var s1 := Step(s, EvPublish(free));
      PublishOpens(s, free);
      TableHandedOver(s, reports, report.value);
      SumsAppend(reports, report.value, s.rx.reportIndex);
      TableBelowIndex(s, s.rx.reportIndex);
      BooksKept(s, s1, reports, report.value);
    } else {
      NothingPublished(s, free);
    }
  }

  lemma NothingPublished(s: State, free: bool)
    requires Publish(s.rx, free).1.None?
    ensures Step(s, EvPublish(free)) == s
  {
  }

  /** The books as they were, or one more for this report. */
  predicate Opens(books: seq<Book>, books1: seq<Book>, r: Report) {
    books1 == books
    || (books1 != [] && books1[..|books1| - 1] == books
        && var b := books1[|books1| - 1];
           b.window == r.index && b.lost == r.lost && b.last == r.window.lastSeq && b.charged == 0)
  }

  /** A report hands the window over, and may open one book. */
  lemma PublishOpens(s: State, free: bool)
    requires Inv(s) && Publish(s.rx, free).1.Some?
    ensures var r, s1 := Publish(s.rx, free).1.value, Step(s, EvPublish(free));
            && r.index == s.rx.reportIndex && r.window == s.rx.window && s1.rx.window == EMPTY_WINDOW
            && Opens(s.h.books, s1.h.books, r)
  {
    hide Missing, Got, HistoryInv, BooksInv, LateInv, Shift;
    var r, s1 := Publish(s.rx, free).1.value, Step(s, EvPublish(free));
    if s1.h.books != s.h.books {
      var b := Book(r.index, s.rx.accounted + 1, s1.rx.accounted, r.lost, 0);
      assert s1.h.books == s.h.books + [b];
    }
  }

  lemma TableHandedOver(s: State, reports: seq<Report>, r: Report)
    requires r.window == s.rx.window
    ensures forall w: nat :: GivenBack(reports + [r], w) == GivenBack(reports, w) + LateOf(s.rx.window.lateFrom, w)
  {
    forall w: nat ensures GivenBack(reports + [r], w) == GivenBack(reports, w) + LateOf(s.rx.window.lateFrom, w) {
      SumsAppend(reports, r, w);
    }
  }

  lemma BooksKept(s: State, s1: State, reports: seq<Report>, r: Report)
    requires Kept(s, reports) && |reports| == s.rx.reportIndex && s1.rx.window == EMPTY_WINDOW
    requires forall w: nat :: GivenBack(reports + [r], w) == GivenBack(reports, w) + LateOf(s.rx.window.lateFrom, w)
    requires GivenBack(reports + [r], s.rx.reportIndex) == 0
    requires r.index == s.rx.reportIndex && Opens(s.h.books, s1.h.books, r)
    ensures Kept(s1, reports + [r])
  {
    hide GivenBack, LateOf;
    var all := reports + [r];
    NoneInEmpty();
    forall i | 0 <= i < |s.h.books| ensures all[s.h.books[i].window] == reports[s.h.books[i].window] {}
    assert all[s.rx.reportIndex] == r;
  }

  lemma NoneInEmpty()
    ensures forall w: nat :: LateOf(EMPTY_WINDOW.lateFrom, w) == 0
  {
  }

  lemma {:induction false} RunReports(evs: seq<Event>, ss: seq<State>, k: nat)
    requires IsRun(evs, ss) && |ss| == |evs| + 1 && k <= |evs|
    ensures Reported(ss[k], Published(evs, ss, k)) && Kept(ss[k], Published(evs, ss, k))
    decreases k
  {
    hide Step, Inv, Admissible, Reported, Kept, Publish;
    if k == 0 {
      BeginReports();
    } else {
      var ev := evs[k - 1];
      RunReports(evs, ss, k - 1);
      RunInv(evs, ss, k - 1);
      var reports := Published(evs, ss, k - 1);
      match ev
      case EvFrame(t) =>
        FrameReported(ss[k - 1], reports, t);
        FrameKept(ss[k - 1], reports, t);
      case EvPublish(free) =>
        PublishReported(ss[k - 1], reports, free);
        PublishKept(ss[k - 1], reports, free);
      case EvTaken => TakenReports(ss[k - 1], reports);
    }
  }

  lemma BeginReports()
    ensures Reported(BEGIN, []) && Kept(BEGIN, [])
  {
  }

  lemma TakenReports(s: State, reports: seq<Report>)
    requires Reported(s, reports) && Kept(s, reports)
    ensures Reported(Step(s, EvTaken), reports) && Kept(Step(s, EvTaken), reports)
  {
    hide GivenBack, LateOf, LossSum;
  }

  // ---- the sums ------------------------------------------------------------------------------

  /** Frames and late frames of one step, between the reports and the window. */
  lemma StepSums(s: State, ev: Event, reports: seq<Report>)
    requires Inv(s) && Admissible(s, ev)
    ensures var report := if ev.EvPublish? then Publish(s.rx, ev.free).1 else None;
            var all := if report.Some? then reports + [report.value] else reports;
            var w, w1 := s.rx.window, Step(s, ev).rx.window;
            && LateSum(all) + w1.late == LateSum(reports) + w.late + (if IsLate(s, ev) then 1 else 0)
            && FrameSum(all) + w1.frames == FrameSum(reports) + w.frames + (if ev.EvFrame? then 1 else 0)
  {
    hide Inv, LateSum, FrameSum, CountLate, ChargeBook, Unwrap, Shift;
    match ev
    case EvFrame(t) =>
      if IsLate(s, ev) {
        LateUnwrapped(s, t);
        LateByOne(s.rx.window, s.rx.history, Numbered(s.h, t));
      } else {
        NewFrameTable(s, t);
        NewFrameCounts(s, t);
      }
    case EvPublish(free) =>
      var report := Publish(s.rx, free).1;
      if report.Some? {
        SumsAppend(reports, report.value, 0);
      }
    case EvTaken =>
  }

  lemma LateByOne(w: Window, history: seq<Accounted>, n: int)
    ensures CountLate(w, history, n).late == w.late + 1 && CountLate(w, history, n).frames == w.frames
  {
  }

  lemma NewFrameCounts(s: State, t: int)
    requires Inv(s) && Admissible(s, EvFrame(t)) && !IsLate(s, EvFrame(t))
    ensures Step(s, EvFrame(t)).rx.window.frames == s.rx.window.frames + 1
  {
    hide HistoryInv, LateInv, WindowInv, BooksInv, Missing, CountLate, ChargeBook;
    if s.rx.known {
      UnwrapTracks(s.h, t);
    }
  }

  /** In every run the published counts and those of the open window add up to all
      frames and to all late frames that arrived. */
  lemma {:induction false} PublishedCountsAddUp(evs: seq<Event>, ss: seq<State>, k: nat)
    requires IsRun(evs, ss) && |ss| == |evs| + 1 && k <= |evs|
    ensures FrameSum(Published(evs, ss, k)) + ss[k].rx.window.frames == Count(evs, ss, k, (s, ev: Event) => ev.EvFrame?)
    ensures LateSum(Published(evs, ss, k)) + ss[k].rx.window.late == Count(evs, ss, k, IsLate)
    decreases k
  {
    hide Step, Inv, Admissible, Publish, IsLate;
    if k > 0 {
      var ev := evs[k - 1];
      PublishedCountsAddUp(evs, ss, k - 1);
      RunInv(evs, ss, k - 1);
      StepSums(ss[k - 1], ev, Published(evs, ss, k - 1));
    }
  }

  lemma {:induction false} LateSinceCounts(evs: seq<Event>, ss: seq<State>, k: nat)
    requires IsRun(evs, ss) && |ss| == |evs| + 1 && k <= |evs|
    ensures ss[k].h.lateSince + Count(evs, ss, k, IsEarly) == Count(evs, ss, k, IsLate)
    decreases k
  {
    hide OnFrame, Publish, Admissible, ChargeBook;
    if k > 0 {
      var ev := evs[k - 1];
      LateSinceCounts(evs, ss, k - 1);
    }
  }

  // ---- when a report is published ------------------------------------------------------------

  /** A report was published and not taken since. */
  ghost predicate Waits(evs: seq<Event>, ss: seq<State>, k: nat)
    requires |ss| == |evs| + 1 && k <= |evs|
  {
    k > 0 && match evs[k - 1]
             case EvFrame(_) => Waits(evs, ss, k - 1)
             case EvTaken => false
             case EvPublish(_) => Waits(evs, ss, k - 1) || |Published(evs, ss, k)| > |Published(evs, ss, k - 1)|
  }

  lemma {:induction false} PendingIsWaiting(evs: seq<Event>, ss: seq<State>, k: nat)
    requires IsRun(evs, ss) && |ss| == |evs| + 1 && k <= |evs|
    ensures ss[k].rx.pending <==> Waits(evs, ss, k)
    decreases k
  {
    hide Admissible, CountLate, ChargeBook, Unwrap, Shift;
    if k > 0 {
      var ev := evs[k - 1];
      PendingIsWaiting(evs, ss, k - 1);
    }
  }

  /** A call publishes exactly if the lock is free and no report waits. */
  lemma PublishesExactly(evs: seq<Event>, ss: seq<State>, k: nat)
    requires IsRun(evs, ss) && |ss| == |evs| + 1 && k < |evs| && evs[k].EvPublish?
    ensures |Published(evs, ss, k + 1)| == |Published(evs, ss, k)| + (if evs[k].free && !Waits(evs, ss, k) then 1 else 0)
  {
    PendingIsWaiting(evs, ss, k);
  }

  /** A report that is published accounts every number received so far. */
  lemma PublishAccountsAll(evs: seq<Event>, ss: seq<State>, k: nat)
    requires IsRun(evs, ss) && |ss| == |evs| + 1 && k < |evs| && evs[k].EvPublish? && ss[k].rx.known
    requires |Published(evs, ss, k + 1)| > |Published(evs, ss, k)|
    ensures var (received, accounted) := (ss[k + 1].h.received, ss[k + 1].rx.accounted);
            forall n :: n in received ==> n <= accounted
  {
    hide Missing, Got, HistoryInv, BooksInv, LateInv, Shift;
    RunInv(evs, ss, k);
    RunInv(evs, ss, k + 1);
  }

  /** The history holds the latest four accounted reports. */
  lemma {:induction false} HistoryHoldsFour(evs: seq<Event>, ss: seq<State>, k: nat)
    requires IsRun(evs, ss) && |ss| == |evs| + 1 && k <= |evs|
    ensures |ss[k].rx.history| == Min(|ss[k].h.books|, 4)
    decreases k
  {
    hide Admissible, CountLate, ChargeBook, Unwrap, Inv;
    if k > 0 {
      var ev := evs[k - 1];
      HistoryHoldsFour(evs, ss, k - 1);
      RunInv(evs, ss, k - 1);
      StepKeepsFour(ss[k - 1], ev);
    }
  }

  lemma StepKeepsFour(s: State, ev: Event)
    requires Inv(s) && Admissible(s, ev) && |s.rx.history| == Min(|s.h.books|, 4)
    ensures |Step(s, ev).rx.history| == Min(|Step(s, ev).h.books|, 4)
  {
    hide CountLate, FindReport, Unwrap, HistoryInv, BooksInv, LateInv, Missing, Got;
  }

  // ---- main results ----------------------------------------------------------------------------

  /** Conservation of what is published: at every moment of every run the losses of
      all published reports, less the late frames of all reports and of the open
      window, those before the first frame apart, are the accounted numbers that
      have not arrived. */
  lemma PublishedLossConservation(evs: seq<Event>, ss: seq<State>, k: nat)
    requires IsRun(evs, ss) && |ss| == |evs| + 1 && k <= |evs| && ss[k].rx.known
    ensures var reports := Published(evs, ss, k);
            LossSum(reports) - (LateSum(reports) + ss[k].rx.window.late - Count(evs, ss, k, IsEarly))
            == Missing(ss[k].h.t0 % 256, ss[k].rx.accounted, ss[k].h.received)
  {
    hide Inv, Published, Kept, LossSum, LateSum, GivenBack, Missing;
    RunReports(evs, ss, k);
    PublishedCountsAddUp(evs, ss, k);
    LateSinceCounts(evs, ss, k);
    LossConservation(evs, ss, k);
  }

  /** Report by report, in every run: the loss published for an accounted range,
      less what all later reports and the open window give back to it by name, is
      what is missing of the range while it is one of the latest four; later it may
      only be too high. */
  lemma PublishedReportConserved(evs: seq<Event>, ss: seq<State>, k: nat, i: nat)
    requires IsRun(evs, ss) && |ss| == |evs| + 1 && k <= |evs| && ss[k].rx.known && i < |ss[k].h.books|
    ensures var reports := Published(evs, ss, k);
            var b := ss[k].h.books[i];
            && b.window < |reports| && reports[b.window].index == b.window && reports[b.window].window.lastSeq == b.last
            && var rest := reports[b.window].lost - GivenBack(reports, b.window)
                           - LateOf(ss[k].rx.window.lateFrom, b.window);
               rest >= Missing(b.first, b.last, ss[k].h.received)
               && (i + 4 >= |ss[k].h.books| ==> rest == Missing(b.first, b.last, ss[k].h.received))
  {
    hide Inv, Published, LossSum, GivenBack, Missing, LateOf;
    RunReports(evs, ss, k);
    HistoryHoldsFour(evs, ss, k);
    EachReportConserved(evs, ss, k, i);
  }

  /** Every published report accounts for its late frames: as many as its table
      names and those of no report. */
  lemma {:induction false} TablesAddUp(evs: seq<Event>, ss: seq<State>, k: nat, j: nat)
    requires IsRun(evs, ss) && |ss| == |evs| + 1 && k <= |evs| && j < |Published(evs, ss, k)|
    ensures var w := Published(evs, ss, k)[j].window; w.late == Sum(w.lateFrom) + w.lateOld && w.late <= w.frames
    decreases k
  {
    hide Step, Admissible, Inv, Shift;
    var ev := evs[k - 1];
    if j < |Published(evs, ss, k - 1)| {
      TablesAddUp(evs, ss, k - 1, j);
    } else {
      RunInv(evs, ss, k - 1);
      OpenTableAddsUp(ss[k - 1]);
    }
  }

  lemma OpenTableAddsUp(s: State)
    requires Inv(s)
    ensures var w := s.rx.window; w.late == Sum(w.lateFrom) + w.lateOld && w.late <= w.frames
  {
    hide Missing, Got, BooksInv, HistoryInv;
  }
}
