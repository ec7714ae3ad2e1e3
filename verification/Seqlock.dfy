/**
 * The lock-free publication of several words: one writer, any reader, every
 * load and store a step of its own, interleaved in any order.
 */
module Seqlock {
  import opened Words

  /** A reader's attempt: the sequence it began with and the words copied since. */
  datatype Reader =
    | Idle
    | Reading(begun: U32, copy: map<nat, U32>)
    | Checked(begun: U32, copy: map<nat, U32>, accepted: bool)

  /** The shared words and the sequence; `writing` is the writer's place in its
      code. What the firmware does not keep: the true number of sequence stores,
      the words after each complete write, and that number when the attempt began. */
  datatype State = State(
    sequence: U32,
    words: seq<U32>,
    writing: bool,
    reader: Reader,
    stores: nat,
    versions: seq<seq<U32>>,
    since: nat)

  datatype Event =
    | WriteBegin
    | StoreWord(i: nat, v: U32)
    | WriteEnd
    | ReadBegin
    | LoadWord(i: nat)
    | ReadCheck

  function Begin(words: seq<U32>): State {
    State(0, words, false, Idle, 0, [words], 0)
  }

  predicate Enabled(s: State, ev: Event) {
    match ev
    case WriteBegin => !s.writing
    case StoreWord(i, _) => s.writing && i < |s.words|
    case WriteEnd => s.writing
    case ReadBegin => !s.reader.Reading?
    case LoadWord(i) => s.reader.Reading? && i < |s.words|
    case ReadCheck => s.reader.Reading?
  }

  /** ecuSeqlockReadConsistent, given the reloaded sequence. */
  predicate Consistent(begun: U32, again: U32) { begun % 2 == 0 && again == begun }

  function Step(s: State, ev: Event): (s': State)
    requires Enabled(s, ev)
  {
    match ev
    case WriteBegin => s.(sequence := Add32(s.sequence, 1), writing := true, stores := s.stores + 1)
    case StoreWord(i, v) => s.(words := s.words[i := v])
    case WriteEnd =>
      s.(sequence := Add32(s.sequence, 1), writing := false, stores := s.stores + 1, versions := s.versions + [s.words])
    case ReadBegin => s.(reader := Reading(s.sequence, map[]), since := s.stores)
    case LoadWord(i) => s.(reader := Reading(s.reader.begun, s.reader.copy[i := s.words[i]]))
    case ReadCheck =>
      s.(reader := Checked(s.reader.begun, s.reader.copy, Consistent(s.reader.begun, s.sequence)))
  }

  ghost predicate IsRun(words: seq<U32>, evs: seq<Event>, ss: seq<State>) {
    && |ss| == |evs| + 1
    && ss[0] == Begin(words)
    && (forall k {:trigger evs[k]} :: 0 <= k < |evs| ==> Enabled(ss[k], evs[k]) && ss[k + 1] == Step(ss[k], evs[k]))
  }

  /** The copy is made of the words of one version. */
  predicate PartOf(copy: map<nat, U32>, version: seq<U32>) {
    forall i :: i in copy ==> i < |version| && copy[i] == version[i]
  }

  ghost predicate Inv(s: State) {
    && |s.versions| >= 1
    && (forall k :: 0 <= k < |s.versions| ==> |s.versions[k]| == |s.words|)
    && s.stores == 2 * (|s.versions| - 1) + (if s.writing then 1 else 0)
    && s.sequence == s.stores % M32
    && (!s.writing ==> s.words == s.versions[|s.versions| - 1])
    && (!s.reader.Idle? ==> s.since <= s.stores && s.reader.begun == s.since % M32)
    && (s.reader.Reading? && s.stores == s.since && !s.writing ==> PartOf(s.reader.copy, s.words))
  }

  lemma StepInv(s: State, ev: Event)
    requires Inv(s) && Enabled(s, ev)
    ensures Inv(Step(s, ev))
  {
    NextTick(s.stores);
  }

  lemma {:induction false} RunInv(words: seq<U32>, evs: seq<Event>, ss: seq<State>, k: nat)
    requires IsRun(words, evs, ss) && k < |ss|
    ensures Inv(ss[k])
    decreases k
  {
    hide Step, Inv, Enabled;
    if k == 0 {
      BeginInv(words);
    } else {
      var ev := evs[k - 1];
      RunInv(words, evs, ss, k - 1);
      StepInv(ss[k - 1], ev);
    }
  }

  lemma BeginInv(words: seq<U32>)
    ensures Inv(Begin(words))
  {
  }

  /** How many writes have begun. */
  function Begun(stores: nat): nat { (stores + 1) / 2 }

  /** Equal sequences are equal counts, or a whole wrap apart. */
  lemma SameSequence(since: nat, stores: nat)
    requires since <= stores
    ensures stores % M32 == since % M32 <==> (stores - since) % M32 == 0
  {
    TickDifference(since, stores);
    assert Sub32(Tick(stores), Tick(since)) == (stores - since) % M32;
    assert -M32 < stores % M32 - since % M32 < M32;
  }

  lemma HalfOfSequence(k: nat)
    ensures (2 * k) % M32 / 2 == k % (M32 / 2) && (2 * k) % M32 % 2 == 0
  {
    var h := M32 / 2;
    DivisionUnique(2 * k, M32, k / h, 2 * (k % h));
  }

  /** An accepted copy, while fewer than 2^31 writes began during the attempt, is
      part of one version: the one that was current all along, whose number is
      half the sequence. */
  lemma AcceptedIsOneWrite(s: State)
    requires Inv(s) && s.reader.Reading? && Step(s, ReadCheck).reader.accepted
    requires Begun(s.stores) - Begun(s.since) < M32 / 2
    ensures var k := |s.versions| - 1;
            && s.since == s.stores == 2 * k
            && PartOf(s.reader.copy, s.versions[k])
            && s.reader.begun / 2 == k % (M32 / 2)
  {
    SameSequence(s.since, s.stores);
    var d := s.stores - s.since;
    EvenLowWord(s.since);
    assert s.since % 2 == 0;
    assert d < M32;
    HalfOfSequence(|s.versions| - 1);
  }

  lemma EvenLowWord(n: nat)
    ensures n % M32 % 2 == n % 2
  {
    assert n == M32 * (n / M32) + n % M32;
  }

  /** Exactly when a reader accepts: no write was under way at the begin, and the
      sequence stores since are none or whole wraps of the word. */
  lemma AcceptedExactly(s: State)
    requires Inv(s) && s.reader.Reading?
    ensures Step(s, ReadCheck).reader.accepted <==> s.since % 2 == 0 && (s.stores - s.since) % M32 == 0
  {
    SameSequence(s.since, s.stores);
    EvenLowWord(s.since);
  }

  /** In every interleaving an undisturbed attempt is accepted: none under way when
      it began, none begun since. */
  lemma UndisturbedIsAccepted(words: seq<U32>, evs: seq<Event>, ss: seq<State>, a: nat, k: nat)
    requires IsRun(words, evs, ss) && a < k < |evs| && evs[a] == ReadBegin && evs[k] == ReadCheck && !ss[a].writing
    requires forall n :: a < n < k ==> evs[n].LoadWord?
    ensures ss[k + 1].reader.Checked? && ss[k + 1].reader.accepted
  {
    hide Step, Inv;
    RunInv(words, evs, ss, a);
    Undisturbed(words, evs, ss, a, k);
    RunInv(words, evs, ss, k);
    var ev := evs[k];
    assert Enabled(ss[k], ev) && ss[k + 1] == Step(ss[k], ev);
    AcceptedExactly(ss[k]);
    CheckKeepsCopy(ss[k]);
    NotWritingIsEven(ss[a]);
  }

  lemma NotWritingIsEven(s: State)
    requires Inv(s) && !s.writing
    ensures s.stores % 2 == 0
  {
  }

  lemma {:induction false} Undisturbed(words: seq<U32>, evs: seq<Event>, ss: seq<State>, a: nat, k: nat)
    requires IsRun(words, evs, ss) && a < k < |ss| && evs[a] == ReadBegin
    requires forall n :: a < n < k ==> evs[n].LoadWord?
    ensures ss[k].reader.Reading? && ss[k].stores == ss[k].since == ss[a].stores
    decreases k
  {
    var ev := evs[k - 1];
    if a + 1 < k {
      Undisturbed(words, evs, ss, a, k - 1);
    }
  }

  /** In every interleaving: what a reader accepts was stored by one write. */
  lemma AcceptedReadsAreConsistent(words: seq<U32>, evs: seq<Event>, ss: seq<State>, k: nat)
    requires IsRun(words, evs, ss) && k < |evs| && evs[k] == ReadCheck
    requires ss[k + 1].reader.accepted
    requires Begun(ss[k].stores) - Begun(ss[k].since) < M32 / 2
    ensures var v := |ss[k].versions| - 1;
            && 0 <= v
            && PartOf(ss[k + 1].reader.copy, ss[k].versions[v])
            && ss[k].since == ss[k].stores == 2 * v
            && ss[k + 1].reader.begun / 2 == v % (M32 / 2)
  {
    hide Inv, Step;
    RunInv(words, evs, ss, k);
    var ev := evs[k];
    assert Enabled(ss[k], ev) && ss[k + 1] == Step(ss[k], ev);
    CheckKeepsCopy(ss[k]);
    AcceptedIsOneWrite(ss[k]);
  }

  lemma CheckKeepsCopy(s: State)
    requires s.reader.Reading?
    ensures Step(s, ReadCheck).reader.Checked?
    ensures Step(s, ReadCheck).reader.copy == s.reader.copy && Step(s, ReadCheck).reader.begun == s.reader.begun
  {
  }

  // ---- the retry loop of the feedback reader -----------------------------------------------

  const FEEDBACK_ATTEMPTS: nat := 3

  datatype Sample = Sample(rawHz: U32, filteredHz: U32, baselineHz: U32, measuredUs: U32, number: U32, ageUs: U16)

  /** What the loads of one attempt returned: the sequence before and after, and
      the four words between. */
  datatype Seen = Seen(before: U32, words: seq<U32>, again: U32)

  datatype Feedback = Again | Good(sample: Sample)

  predicate GoodSeen(seen: seq<Seen>) {
    |seen| == 3 && forall i :: 0 <= i < |seen| ==> |seen[i].words| == 4
  }

  predicate Accepts(a: Seen) { Consistent(a.before, a.again) }

  predicate FirstAccepted(seen: seq<Seen>, i: nat)
    requires i < |seen|
  {
    Accepts(seen[i]) && forall j :: 0 <= j < i ==> !Accepts(seen[j])
  }

  /** getAdjustometerFeedback: the first consistent attempt, or none. */
  method GetFeedback(seen: seq<Seen>, nowUs: U32) returns (f: Feedback)
    requires GoodSeen(seen)
    ensures f.Again? <==> forall i :: 0 <= i < |seen| ==> !Accepts(seen[i])
    ensures f.Good? ==> exists i :: 0 <= i < |seen| && FirstAccepted(seen, i) && f.sample == SampleOf(seen[i], nowUs)
  {
    var attempt := 0;
    while attempt < FEEDBACK_ATTEMPTS
      invariant attempt <= FEEDBACK_ATTEMPTS
      invariant forall j :: 0 <= j < attempt ==> !Accepts(seen[j])
    {
      var a := seen[attempt];
      if a.before % 2 == 0 && a.before == a.again {
        f := Good(SampleOf(a, nowUs));
        assert FirstAccepted(seen, attempt);
        return;
      }
      attempt := attempt + 1;
    }
    f := Again;
  }

  function SampleOf(a: Seen, nowUs: U32): Sample
    requires |a.words| == 4
  {
    var age := Sub32(nowUs, a.words[3]);
    Sample(a.words[0], a.words[1], a.words[2], a.words[3], a.before / 2, if age > 0xFFFF then 0xFFFF else age)
  }

  /** In every interleaving, accepted feedback takes its four words and its
      number from one window. */
  lemma FeedbackIsOneWindow(words: seq<U32>, evs: seq<Event>, ss: seq<State>, k: nat, a: Seen, nowUs: U32)
    requires IsRun(words, evs, ss) && k < |ss| && |ss[k].words| == 4
    requires ss[k].reader.Reading? && ss[k].reader.copy.Keys == {0, 1, 2, 3}
    requires Begun(ss[k].stores) - Begun(ss[k].since) < M32 / 2
    requires var c := ss[k].reader.copy; a == Seen(ss[k].reader.begun, [c[0], c[1], c[2], c[3]], ss[k].sequence)
    requires Accepts(a)
    ensures var v := |ss[k].versions| - 1;
            var sample := SampleOf(a, nowUs);
            && 0 <= v
            && [sample.rawHz, sample.filteredHz, sample.baselineHz, sample.measuredUs] == ss[k].versions[v]
            && sample.number == v % (M32 / 2)
  {
    RunInv(words, evs, ss, k);
    var s := ss[k];
    AcceptedIsOneWrite(s);
    var v := s.versions[|s.versions| - 1];
    assert forall i :: i in {0, 1, 2, 3} ==> i in s.reader.copy && s.reader.copy[i] == v[i];
    assert v == [v[0], v[1], v[2], v[3]];
  }

  /** The age is the true one while the counter has not wrapped since the window, up
      to the 65535 us the field holds, and never too high. */
  lemma FeedbackAge(a: Seen, measured: nat, now: nat)
    requires |a.words| == 4 && a.words[3] == Tick(measured) && measured <= now
    ensures SampleOf(a, Tick(now)).ageUs <= now - measured
    ensures now - measured < M32 ==> SampleOf(a, Tick(now)).ageUs == Min(now - measured, 65535)
  {
    TickDifference(measured, now);
    var d := now - measured;
    assert d == M32 * (d / M32) + d % M32;
  }
}
