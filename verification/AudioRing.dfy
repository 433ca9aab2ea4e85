/**
  The shared audio ring of helper/src/session_audio.cpp: one capture worker publishes frames into
  128 stamped slots, conversation writers copy them out, and a controller asks a writer to stop.
  Every step below is one atomic load or store; a run is any interleaving of such steps.
*/
module AudioRing {
  import opened Prelude

  type Word = int
  type Frame = seq<Word>

  const RING_SIZE := 128

  datatype Slot = Slot(stamp: nat, words: seq<Word>)

  /** Where the capture worker is: between frames, writing words, or about to publish. */
  datatype Producer = Idle | Filling(written: set<nat>) | Stamped

  datatype Why = Requested | Interrupted | Overrun | WriterFailed

  /** Where a conversation writer is in its loop. */
  datatype Phase =
    | Polling                        // about to load `produced`
    | Checking(seen: nat)            // about to look for a stop request
    | Deciding(seen: nat)            // was not asked to stop
    | Copying(copied: map<nat, Word>)  // the first stamp check has passed
    | Ended(why: Why)

  datatype Reader = Reader(
    first: nat, next: nat, phase: Phase, output: seq<Frame>,
    stop: bool, endSequence: Option<nat>,
    committed: nat)  // the last frame the writer had taken on when the stop flag was set

  /** `history` lists every frame begun so far; frame number n is history[n - 1]. */
  datatype State = State(width: nat, slots: seq<Slot>, produced: nat, producer: Producer, history: seq<Frame>, readers: seq<Reader>)

  datatype Step =
    | Begin(frame: Frame)   // ++sequence and clear the stamp of its slot
    | Store(i: nat)
    | Stamp
    | Publish
    | Join                  // a conversation starts behind the last published frame
    | Load(r: nat)
    | Look(r: nat)
    | Decide(r: nat, over: bool)   // over: the session has been stopped or capture has failed
    | Copy(r: nat, i: nat)
    | Finish(r: nat, saved: bool)
    | SetEnd(r: nat)
    | SetStop(r: nat)

  function SlotOf(n: nat): (j: nat)
    ensures j < RING_SIZE
  {
    n % RING_SIZE
  }

  /** The frame a writer will try to finish before it next looks for a stop request. */
  function TakenOn(reader: Reader): nat {
    match reader.phase
    case Deciding(seen) => if reader.next <= seen || reader.next == 0 then reader.next else reader.next - 1
    case Copying(_) => reader.next
    case _ => if reader.next == 0 then 0 else reader.next - 1
  }

  predicate Enabled(s: State, step: Step) {
    match step
    case Begin(frame) => s.producer.Idle? && |frame| == s.width
    case Store(i) => s.producer.Filling? && i < s.width && i !in s.producer.written
    case Stamp => s.producer.Filling? && forall i :: 0 <= i < s.width ==> i in s.producer.written
    case Publish => s.producer.Stamped?
    case Join => true
    case Load(r) => r < |s.readers| && s.readers[r].phase.Polling?
    case Look(r) => r < |s.readers| && s.readers[r].phase.Checking?
    case Decide(r, _) => r < |s.readers| && s.readers[r].phase.Deciding?
    case Copy(r, i) => r < |s.readers| && s.readers[r].phase.Copying? && i < s.width
    case Finish(r, _) =>
      r < |s.readers| && s.readers[r].phase.Copying? && forall i :: 0 <= i < s.width ==> i in s.readers[r].phase.copied
    case SetEnd(r) => r < |s.readers| && s.readers[r].endSequence.None?
    case SetStop(r) => r < |s.readers| && s.readers[r].endSequence.Some? && !s.readers[r].stop
  }

  function SetReader(s: State, r: nat, reader: Reader): State
    requires r < |s.readers|
  {
    s.(readers := s.readers[r := reader])
  }

  function Copied(width: nat, copied: map<nat, Word>): Frame
    requires forall i :: 0 <= i < width ==> i in copied
  {
    seq(width, i requires 0 <= i < width => copied[i])
  }

  /** Every slot, and every frame begun, has the same number of words. */
  ghost predicate Wide(s: State) {
    && |s.slots| == RING_SIZE
    && (forall j :: 0 <= j < RING_SIZE ==> |s.slots[j].words| == s.width)
    && (forall n :: 0 <= n < |s.history| ==> |s.history[n]| == s.width)
    && (s.producer.Filling? ==> |s.history| > 0)
  }

  ghost function Apply(s: State, step: Step): State
    requires Wide(s) && Enabled(s, step)
  {
    var n := |s.history|;
    match step
    case Begin(frame) =>
      s.(history := s.history + [frame], producer := Filling({}),
         slots := s.slots[SlotOf(n + 1) := s.slots[SlotOf(n + 1)].(stamp := 0)])
    case Store(i) =>
      var slot := s.slots[SlotOf(n)];
      s.(slots := s.slots[SlotOf(n) := slot.(words := slot.words[i := s.history[n - 1][i]])],
         producer := Filling(s.producer.written + {i}))
    case Stamp => s.(slots := s.slots[SlotOf(n) := s.slots[SlotOf(n)].(stamp := n)], producer := Stamped)
    case Publish => s.(produced := n, producer := Producer.Idle)
    case Join => s.(readers := s.readers + [Reader(s.produced + 1, s.produced + 1, Polling, [], false, None, 0)])
    case Load(r) => SetReader(s, r, s.readers[r].(phase := Checking(s.produced)))
    case Look(r) =>
      var reader := s.readers[r];
      SetReader(s, r, reader.(phase :=
        if reader.stop && reader.endSequence.Some? && reader.next > reader.endSequence.value then Ended(Requested)
        else Deciding(reader.phase.seen)))
    case Decide(r, over) =>
      var reader := s.readers[r];
      SetReader(s, r, reader.(phase :=
        if reader.next > reader.phase.seen then (if over then Ended(Interrupted) else Polling)
        else if s.slots[SlotOf(reader.next)].stamp != reader.next then Ended(Overrun)
        else Copying(map[])))
    case Copy(r, i) =>
      var reader := s.readers[r];
      SetReader(s, r, reader.(phase := Copying(reader.phase.copied[i := s.slots[SlotOf(reader.next)].words[i]])))
    case Finish(r, saved) =>
      var reader := s.readers[r];
      SetReader(s, r,
        if s.slots[SlotOf(reader.next)].stamp != reader.next then reader.(phase := Ended(Overrun))
        else if !saved then reader.(phase := Ended(WriterFailed))
        else reader.(phase := Polling, next := reader.next + 1, output := reader.output + [Copied(s.width, reader.phase.copied)]))
    case SetEnd(r) => SetReader(s, r, s.readers[r].(endSequence := Some(s.produced)))
    case SetStop(r) => SetReader(s, r, s.readers[r].(stop := true, committed := TakenOn(s.readers[r])))
  }

  // ---------------------------------------------------------------- invariants

  /** A stamped slot holds the whole of the frame it names, and no later frame of that slot was begun. */
  ghost predicate SlotOk(s: State, j: nat)
    requires j < |s.slots|
  {
    var slot := s.slots[j];
    slot.stamp > 0 ==>
      && slot.stamp <= |s.history| < slot.stamp + RING_SIZE
      && SlotOf(slot.stamp) == j
      && slot.words == s.history[slot.stamp - 1]
  }

  ghost predicate ProducerOk(s: State)
    requires Wide(s)
  {
    var n := |s.history|;
    match s.producer
    case Idle => s.produced == n
    case Filling(written) =>
      && n > 0 && s.produced == n - 1
      && s.slots[SlotOf(n)].stamp == 0
      && forall i :: 0 <= i < s.width && i in written ==> s.slots[SlotOf(n)].words[i] == s.history[n - 1][i]
    case Stamped => n > 0 && s.produced == n - 1
  }

  /** Half a copy: either its slot is lost for good, or every word so far is the right one. */
  ghost predicate CopyOk(s: State, reader: Reader)
    requires reader.phase.Copying? && Wide(s)
  {
    || reader.next + RING_SIZE <= |s.history|
    || (&& s.slots[SlotOf(reader.next)].stamp == reader.next
        && 0 < reader.next <= |s.history|
        && forall i :: 0 <= i < s.width && i in reader.phase.copied ==> reader.phase.copied[i] == s.history[reader.next - 1][i])
  }

  ghost predicate ReaderOk(s: State, reader: Reader)
    requires Wide(s)
  {
    && 0 < reader.first <= reader.next <= s.produced + 1
    && s.produced <= |s.history|
    && reader.output == s.history[reader.first - 1..reader.next - 1]
    && (reader.phase.Checking? ==> reader.phase.seen <= s.produced)
    && (reader.phase.Deciding? ==> reader.phase.seen <= s.produced)
    && (reader.phase.Copying? ==> reader.next <= s.produced && CopyOk(s, reader))
    && StopOk(s, reader)
  }

  /** What a stop request pins down. */
  ghost predicate StopOk(s: State, reader: Reader) {
    && (reader.endSequence.Some? ==> reader.first - 1 <= reader.endSequence.value <= s.produced)
    && (!reader.stop ==> reader.phase != Ended(Requested))
    && (reader.stop ==>
          && reader.endSequence.Some?
          && TakenOn(reader) <= Max(reader.endSequence.value, reader.committed)
          && (!reader.phase.Ended? ==> reader.committed <= TakenOn(reader)))
    && (reader.phase == Ended(Requested) ==>
          && reader.next > reader.endSequence.value
          && reader.committed <= reader.next - 1)
  }

  ghost predicate Inv(s: State) {
    && Wide(s)
    && (forall j :: 0 <= j < RING_SIZE ==> SlotOk(s, j))
    && ProducerOk(s)
    && (forall r :: 0 <= r < |s.readers| ==> ReaderOk(s, s.readers[r]))
  }

  function Start(width: nat): (s: State)
    ensures Inv(s)
  {
    State(width, seq(RING_SIZE, _ => Slot(0, seq(width, _ => 0))), 0, Producer.Idle, [], [])
  }

  lemma SlotClash(m: nat, n: nat)
    requires SlotOf(m) == SlotOf(n) && m < n
    ensures m + RING_SIZE <= n
  {
  }

  lemma BeginKeeps(s: State, frame: Frame)
    requires Inv(s) && Enabled(s, Begin(frame))
    ensures Inv(Apply(s, Begin(frame)))
  {
    var t := Apply(s, Begin(frame));
    var n := |t.history|;
    forall j | 0 <= j < RING_SIZE ensures SlotOk(t, j) {
      assert SlotOk(s, j);
      assert s.slots[j].stamp + RING_SIZE == n ==> SlotOf(n) == SlotOf(s.slots[j].stamp);
    }
    forall r | 0 <= r < |t.readers| ensures ReaderOk(t, t.readers[r]) {
      var reader := s.readers[r];
      assert ReaderOk(s, reader);
      assert t.history[reader.first - 1..reader.next - 1] == s.history[reader.first - 1..reader.next - 1];
      if reader.phase.Copying? && reader.next + RING_SIZE > n && SlotOf(n) == SlotOf(reader.next) {
        SlotClash(reader.next, n);
      }
    }
  }

  lemma ProducerKeeps(s: State, step: Step)
    requires Inv(s) && Enabled(s, step) && (step.Store? || step.Stamp? || step.Publish?)
    ensures Inv(Apply(s, step))
  {
    var t, n := Apply(s, step), |s.history|;
    forall j | 0 <= j < RING_SIZE ensures SlotOk(t, j) {
      assert SlotOk(s, j);
    }
    forall r | 0 <= r < |t.readers| ensures ReaderOk(t, t.readers[r]) {
      var reader := s.readers[r];
      assert ReaderOk(s, reader);
      if reader.phase.Copying? && SlotOf(reader.next) == SlotOf(n) && reader.next < n { SlotClash(reader.next, n); }
    }
  }

  lemma OtherReaders(s: State, t: State, r: nat, reader: Reader)
    requires Inv(s) && r < |s.readers| && t == SetReader(s, r, reader) && ReaderOk(t, reader)
    ensures Inv(t)
  {
    forall j | 0 <= j < RING_SIZE ensures SlotOk(t, j) { assert SlotOk(s, j); }
    forall q | 0 <= q < |t.readers| ensures ReaderOk(t, t.readers[q]) {
      if q != r { assert ReaderOk(s, s.readers[q]); }
    }
  }

  /** A copy that passes the second stamp check is the frame itself, untorn. */
  lemma CopyIsWhole(s: State, r: nat)
    requires Inv(s) && r < |s.readers| && s.readers[r].phase.Copying?
    requires forall i :: 0 <= i < s.width ==> i in s.readers[r].phase.copied
    requires s.slots[SlotOf(s.readers[r].next)].stamp == s.readers[r].next
    ensures 0 < s.readers[r].next <= |s.history|
    ensures Copied(s.width, s.readers[r].phase.copied) == s.history[s.readers[r].next - 1]
  {
    assert ReaderOk(s, s.readers[r]);
    assert SlotOk(s, SlotOf(s.readers[r].next));
  }

  lemma FinishKeeps(s: State, r: nat, saved: bool)
    requires Inv(s) && Enabled(s, Finish(r, saved))
    ensures Inv(Apply(s, Finish(r, saved)))
  {
    var reader := s.readers[r];
    assert ReaderOk(s, reader);
    var t := Apply(s, Finish(r, saved));
    if s.slots[SlotOf(reader.next)].stamp == reader.next && saved {
      CopyIsWhole(s, r);
      assert s.history[reader.first - 1..reader.next] == s.history[reader.first - 1..reader.next - 1] + [s.history[reader.next - 1]];
    }
    OtherReaders(s, t, r, t.readers[r]);
  }

  lemma LoopKeeps(s: State, step: Step)
    requires Inv(s) && Enabled(s, step) && (step.Load? || step.Look?)
    ensures Inv(Apply(s, step))
  {
    assert ReaderOk(s, s.readers[step.r]);
    var t := Apply(s, step);
    OtherReaders(s, t, step.r, t.readers[step.r]);
  }

  lemma DecideKeeps(s: State, r: nat, over: bool)
    requires Inv(s) && Enabled(s, Decide(r, over))
    ensures Inv(Apply(s, Decide(r, over)))
  {
    assert ReaderOk(s, s.readers[r]);
    assert SlotOk(s, SlotOf(s.readers[r].next));
    var t := Apply(s, Decide(r, over));
    OtherReaders(s, t, r, t.readers[r]);
  }

  lemma CopyKeeps(s: State, r: nat, i: nat)
    requires Inv(s) && Enabled(s, Copy(r, i))
    ensures Inv(Apply(s, Copy(r, i)))
  {
    assert ReaderOk(s, s.readers[r]);
    assert SlotOk(s, SlotOf(s.readers[r].next));
    var t := Apply(s, Copy(r, i));
    assert CopyOk(t, t.readers[r]);
    OtherReaders(s, t, r, t.readers[r]);
  }

  lemma StopKeeps(s: State, step: Step)
    requires Inv(s) && Enabled(s, step) && (step.SetEnd? || step.SetStop?)
    ensures Inv(Apply(s, step))
  {
    assert ReaderOk(s, s.readers[step.r]);
    var t := Apply(s, step);
    OtherReaders(s, t, step.r, t.readers[step.r]);
  }

  lemma JoinKeeps(s: State)
    requires Inv(s)
    ensures Inv(Apply(s, Join))
  {
    var t := Apply(s, Join);
    forall j | 0 <= j < RING_SIZE ensures SlotOk(t, j) { assert SlotOk(s, j); }
    forall q | 0 <= q < |t.readers| ensures ReaderOk(t, t.readers[q]) {
      if q < |s.readers| { assert ReaderOk(s, s.readers[q]); }
    }
  }

  lemma StepKeeps(s: State, step: Step)
    requires Inv(s) && Enabled(s, step)
    ensures Inv(Apply(s, step))
  {
    match step {
      case Begin(frame) => BeginKeeps(s, frame);
      case Store(_) => ProducerKeeps(s, step);
      case Stamp => ProducerKeeps(s, step);
      case Publish => ProducerKeeps(s, step);
      case Join => JoinKeeps(s);
      case Finish(r, saved) => FinishKeeps(s, r, saved);
      case Load(_) => LoopKeeps(s, step);
      case Look(_) => LoopKeeps(s, step);
      case Decide(r, over) => DecideKeeps(s, r, over);
      case Copy(r, i) => CopyKeeps(s, r, i);
      case SetEnd(_) => StopKeeps(s, step);
      case SetStop(_) => StopKeeps(s, step);
    }
  }

  // ---------------------------------------------------------------- runs

  /** The state after a list of steps, or None when one of them could not be taken. */
  ghost function After(s: State, steps: seq<Step>): (r: Option<State>)
    requires Inv(s)
    ensures r.Some? ==> Inv(r.value)
    decreases |steps|
  {
    if steps == [] then Some(s)
    else if !Enabled(s, steps[0]) then None
    else
      StepKeeps(s, steps[0]);
      After(Apply(s, steps[0]), steps[1..])
  }

  /** Whatever happens around it, a conversation has written the frames from its first one on,
      each once, in order and untorn. */
  lemma OutputContiguous(width: nat, steps: seq<Step>, r: nat)
    requires var s := After(Start(width), steps); s.Some? && r < |s.value.readers|
    ensures var s := After(Start(width), steps).value;
            var reader := s.readers[r];
            && 0 < reader.first <= reader.next <= |s.history| + 1
            && reader.output == s.history[reader.first - 1..reader.next - 1]
  {
    var s := After(Start(width), steps).value;
    assert ReaderOk(s, s.readers[r]);
  }

  /** Ended by request, a conversation has written everything up to the agreed end, or up to the
      last frame it had taken on when the stop flag was set, whichever is later. */
  lemma StoppedAt(width: nat, steps: seq<Step>, r: nat)
    requires var s := After(Start(width), steps); s.Some? && r < |s.value.readers| && s.value.readers[r].phase == Ended(Requested)
    ensures var s := After(Start(width), steps).value;
            var reader := s.readers[r];
            && reader.endSequence.Some? && reader.first - 1 <= reader.endSequence.value <= |s.history|
            && (|reader.output| == reader.endSequence.value - (reader.first - 1) <==> reader.committed <= reader.endSequence.value)
            && |reader.output| == Max(reader.endSequence.value, reader.committed) - (reader.first - 1)
  {
    var s := After(Start(width), steps).value;
    assert ReaderOk(s, s.readers[r]);
  }

  lemma Taken(s: State, step: Step, rest: seq<Step>) returns (t: State)
    requires Inv(s) && Enabled(s, step)
    ensures t == Apply(s, step) && Inv(t) && After(s, [step] + rest) == After(t, rest)
  {
    t := Apply(s, step);
    hide Apply, Inv;
    StepKeeps(s, step);
    assert ([step] + rest)[1..] == rest;
  }

  /** Joining and being told the end before any frame exists. */
  lemma JoinAndEnd(rest: seq<Step>) returns (t: State)
    ensures Inv(t) && After(Start(1), [Join] + ([SetEnd(0)] + rest)) == After(t, rest)
    ensures t.width == 1 && t.history == [] && t.producer.Idle? && t.produced == 0
    ensures t.readers == [Reader(1, 1, Polling, [], false, Some(0), 0)]
  {
    hide SlotOk, ReaderOk, ProducerOk, After;
    t := Taken(Start(1), Join, [SetEnd(0)] + rest);
    t := Taken(t, SetEnd(0), rest);
  }

  lemma OneFrame(s: State, frame: Frame, rest: seq<Step>) returns (t: State)
    requires Inv(s) && s.width == 1 && s.history == [] && s.producer.Idle? && |frame| == 1
    ensures Inv(t) && After(s, [Begin(frame)] + ([Store(0)] + ([Stamp] + ([Publish] + rest)))) == After(t, rest)
    ensures t.width == 1 && t.produced == 1 && t.readers == s.readers && t.slots[1].stamp == 1
  {
    hide SlotOk, ReaderOk, ProducerOk, After;
    t := Taken(s, Begin(frame), [Store(0)] + ([Stamp] + ([Publish] + rest)));
    t := Taken(t, Store(0), [Stamp] + ([Publish] + rest));
    t := Taken(t, Stamp, [Publish] + rest);
    t := Taken(t, Publish, rest);
  }

  lemma WriteIt(s: State, rest: seq<Step>) returns (t: State)
    requires Inv(s) && s.width == 1 && s.produced == 1 && s.slots[1].stamp == 1
    requires s.readers == [Reader(1, 1, Polling, [], false, Some(0), 0)]
    ensures Inv(t) && After(s, [Load(0)] + ([Look(0)] + ([Decide(0, false)] + ([Copy(0, 0)] + ([Finish(0, true)] + rest))))) == After(t, rest)
    ensures |t.readers| == 1 && t.readers[0].phase == Polling && t.readers[0].next == 2 && |t.readers[0].output| == 1
    ensures !t.readers[0].stop && t.readers[0].endSequence == Some(0)
  {
    hide SlotOk, ReaderOk, ProducerOk, After;
    t := Taken(s, Load(0), [Look(0)] + ([Decide(0, false)] + ([Copy(0, 0)] + ([Finish(0, true)] + rest))));
    t := Taken(t, Look(0), [Decide(0, false)] + ([Copy(0, 0)] + ([Finish(0, true)] + rest)));
    t := Taken(t, Decide(0, false), [Copy(0, 0)] + ([Finish(0, true)] + rest));
    t := Taken(t, Copy(0, 0), [Finish(0, true)] + rest);
    t := Taken(t, Finish(0, true), rest);
  }

  lemma StopIt(s: State) returns (t: State)
    requires Inv(s) && |s.readers| == 1 && s.readers[0].phase == Polling && s.readers[0].next == 2
    requires !s.readers[0].stop && s.readers[0].endSequence == Some(0)
    ensures Inv(t) && After(s, [SetStop(0)] + ([Load(0)] + ([Look(0)] + []))) == Some(t)
    ensures |t.readers| == 1 && t.readers[0].phase == Ended(Requested)
    ensures t.readers[0].endSequence == Some(0) && t.readers[0].output == s.readers[0].output
  {
    hide SlotOk, ReaderOk, ProducerOk, After;
    t := Taken(s, SetStop(0), [Load(0)] + ([Look(0)] + []));
    t := Taken(t, Load(0), [Look(0)] + []);
    t := Taken(t, Look(0), []);
    NothingMore(t);
  }

  lemma NothingMore(s: State)
    requires Inv(s)
    ensures After(s, []) == Some(s)
  {
  }

  /** A frame published between the two stores of a stop request is written beyond the agreed end. */
  lemma OvershootExists() returns (steps: seq<Step>)
    ensures var s := After(Start(1), steps);
            && s.Some? && |s.value.readers| == 1
            && s.value.readers[0].phase == Ended(Requested)
            && s.value.readers[0].endSequence == Some(0)
            && |s.value.readers[0].output| == 1
  {
    hide Inv, Apply, After, Start;
    var d := [SetStop(0)] + ([Load(0)] + ([Look(0)] + []));
    var c := [Load(0)] + ([Look(0)] + ([Decide(0, false)] + ([Copy(0, 0)] + ([Finish(0, true)] + d))));
    var b := [Begin([7])] + ([Store(0)] + ([Stamp] + ([Publish] + c)));
    steps := [Join] + ([SetEnd(0)] + b);
    var s := JoinAndEnd(b);
    s := OneFrame(s, [7], c);
    s := WriteIt(s, d);
    s := StopIt(s);
  }

  // ---------------------------------------------------------------- what the controller can know

  /** What a step leaves alone of a reader that has been asked to stop, and of every reader's start. */
  lemma StepRemembers(s: State, step: Step, r: nat)
    requires Inv(s) && Enabled(s, step) && r < |s.readers|
    ensures var t := Apply(s, step);
      && r < |t.readers| && t.readers[r].first == s.readers[r].first
      && (s.readers[r].endSequence.Some? ==> t.readers[r].endSequence == s.readers[r].endSequence)
      && (s.readers[r].stop ==> t.readers[r].stop && t.readers[r].committed == s.readers[r].committed)
      && s.history <= t.history
  {
    hide SlotOk, ReaderOk, ProducerOk;
  }

  lemma {:induction false} RunRemembers(s: State, steps: seq<Step>, r: nat)
    requires Inv(s) && r < |s.readers| && After(s, steps).Some?
    ensures var t := After(s, steps).value;
      && r < |t.readers| && t.readers[r].first == s.readers[r].first
      && (s.readers[r].endSequence.Some? ==> t.readers[r].endSequence == s.readers[r].endSequence)
      && (s.readers[r].stop ==> t.readers[r].stop && t.readers[r].committed == s.readers[r].committed)
      && s.history <= t.history
    decreases |steps|
  {
    hide SlotOk, ReaderOk, ProducerOk, Apply;
    if steps != [] {
      StepKeeps(s, steps[0]);
      StepRemembers(s, steps[0], r);
      RunRemembers(Apply(s, steps[0]), steps[1..], r);
    }
  }

  /** The states some run leads to. */
  ghost predicate Reachable(s: State) {
    Inv(s) && Fresh(s)
  }

  /** Every published frame that has not been overwritten is in its slot. */
  ghost predicate Fresh(s: State) {
    && |s.slots| == RING_SIZE
    && (forall m :: 0 < m <= s.produced && |s.history| < m + RING_SIZE ==> s.slots[SlotOf(m)].stamp == m)
    && (s.producer.Stamped? ==> s.slots[SlotOf(|s.history|)].stamp == |s.history|)
  }

  lemma FreshKeeps(s: State, step: Step)
    requires Inv(s) && Fresh(s) && Enabled(s, step)
    ensures Fresh(Apply(s, step))
  {
    hide ReaderOk;
    var t, n := Apply(s, step), |s.history|;
    assert SlotOk(s, SlotOf(n));
    if step.Begin? || step.Stamp? || step.Publish? {
      forall m | 0 < m <= t.produced && |t.history| < m + RING_SIZE ensures t.slots[SlotOf(m)].stamp == m {
        if SlotOf(m) == SlotOf(|t.history|) && m < |t.history| { SlotClash(m, |t.history|); }
        if m <= s.produced { assert s.slots[SlotOf(m)].stamp == m; }
      }
    }
  }

  /** Whatever a run reaches is reachable in this sense. */
  lemma {:induction false} RunsAreReachable(width: nat, steps: seq<Step>)
    requires After(Start(width), steps).Some?
    ensures Reachable(After(Start(width), steps).value)
  {
    RunFresh(Start(width), steps);
  }

  lemma {:induction false} RunFresh(s: State, steps: seq<Step>)
    requires Inv(s) && Fresh(s) && After(s, steps).Some?
    ensures Fresh(After(s, steps).value)
    decreases |steps|
  {
    hide SlotOk, ReaderOk, ProducerOk, Apply, Fresh;
    if steps != [] {
      StepKeeps(s, steps[0]);
      FreshKeeps(s, steps[0]);
      RunFresh(Apply(s, steps[0]), steps[1..]);
    }
  }

  /** If nothing was published between the two stores of a stop request, then however the run goes on,
      a writer that ends by request has written exactly first..endSequence. */
  lemma QuietStopIsExact(s: State, r: nat, rest: seq<Step>)
    requires Reachable(s) && r < |s.readers| && Enabled(s, SetStop(r))
    requires s.readers[r].endSequence == Some(s.produced)
    requires After(s, [SetStop(r)] + rest).Some? && r < |After(s, [SetStop(r)] + rest).value.readers|
    requires After(s, [SetStop(r)] + rest).value.readers[r].phase == Ended(Requested)
    ensures var t, first := After(s, [SetStop(r)] + rest).value, s.readers[r].first;
            && first - 1 <= s.produced <= |t.history|
            && t.readers[r].output == t.history[first - 1..s.produced]
  {
    hide SlotOk, ProducerOk;
    assert ReaderOk(s, s.readers[r]);
    var u := Taken(s, SetStop(r), rest);
    RunRemembers(u, rest, r);
    var t := After(u, rest).value;
    assert ReaderOk(t, t.readers[r]);
  }

  // ---------------------------------------------------------------- and what happens otherwise

  /** The slot of the frame the writer wants next has been given to a later frame. */
  predicate Lapped(s: State, r: nat)
    requires r < |s.readers|
  {
    s.readers[r].next + RING_SIZE <= |s.history|
  }

  /** A writer that has fallen a whole ring behind writes no frame any more. */
  lemma LappedStays(s: State, step: Step, r: nat)
    requires Inv(s) && Enabled(s, step) && r < |s.readers| && Lapped(s, r)
    ensures var t := Apply(s, step); r < |t.readers| && Lapped(t, r) && t.readers[r].next == s.readers[r].next
  {
    OutputLength(s, r);
    hide ReaderOk, ProducerOk;
    assert SlotOk(s, SlotOf(s.readers[r].next));
  }

  lemma {:induction false} LappedForGood(s: State, steps: seq<Step>, r: nat)
    requires Inv(s) && r < |s.readers| && Lapped(s, r) && After(s, steps).Some?
    ensures var t := After(s, steps).value; r < |t.readers| && t.readers[r].next == s.readers[r].next
    decreases |steps|
  {
    hide SlotOk, ReaderOk, ProducerOk, Apply;
    if steps != [] {
      StepKeeps(s, steps[0]);
      LappedStays(s, steps[0], r);
      LappedForGood(Apply(s, steps[0]), steps[1..], r);
    }
  }

  lemma {:induction false} AfterJoin(s: State, a: seq<Step>, b: seq<Step>)
    requires Inv(s) && After(s, a).Some?
    ensures After(s, a + b) == After(After(s, a).value, b)
    decreases |a|
  {
    hide SlotOk, ReaderOk, ProducerOk, Apply;
    if a == [] {
      assert a + b == b;
    } else {
      StepKeeps(s, a[0]);
      AfterJoin(Apply(s, a[0]), a[1..], b);
      assert (a + b)[1..] == a[1..] + b;
    }
  }

  lemma OneStep(s: State, step: Step)
    requires Inv(s) && Enabled(s, step)
    ensures After(s, [step]) == Some(Apply(s, step)) && Inv(Apply(s, step))
  {
    hide Apply, SlotOk, ReaderOk, ProducerOk;
    StepKeeps(s, step);
    NothingMore(Apply(s, step));
    assert [step][1..] == [];
  }

  /** The state s with another reader r. */
  ghost predicate Only(s: State, t: State, r: nat, reader: Reader)
    requires r < |s.readers|
  {
    t == SetReader(s, r, reader)
  }

  /** Copying the first i words. */
  lemma {:induction false} CopyWords(s: State, r: nat, i: nat) returns (steps: seq<Step>, t: State, copied: map<nat, Word>)
    requires Inv(s) && r < |s.readers| && s.readers[r].phase == Copying(map[]) && i <= s.width
    ensures After(s, steps) == Some(t) && Inv(t) && Only(s, t, r, s.readers[r].(phase := Copying(copied)))
    ensures forall j :: 0 <= j < i ==> j in copied
    decreases i
  {
    hide SlotOk, ReaderOk, ProducerOk, After;
    if i == 0 {
      steps, t, copied := [], s, map[];
      NothingMore(s);
      assert s.readers[r := s.readers[r]] == s.readers;
    } else {
      var before, u, had := CopyWords(s, r, i - 1);
      t := Apply(u, Copy(r, i - 1));
      OneStep(u, Copy(r, i - 1));
      AfterJoin(s, before, [Copy(r, i - 1)]);
      steps := before + [Copy(r, i - 1)];
      copied := t.readers[r].phase.copied;
      assert t.readers == s.readers[r := s.readers[r].(phase := Copying(copied))];
    }
  }

  /** A polling writer that has not been asked to stop can write the next frame if it is still there. */
  lemma ReadOne(s: State, r: nat) returns (steps: seq<Step>, t: State)
    requires Reachable(s) && r < |s.readers| && s.readers[r].phase.Polling? && !s.readers[r].stop
    requires s.readers[r].next <= s.produced && !Lapped(s, r)
    ensures After(s, steps) == Some(t) && Reachable(t) && r < |t.readers|
    ensures t.readers[r].phase.Polling? && !t.readers[r].stop && t.readers[r].next == s.readers[r].next + 1
    ensures t.readers[r].endSequence == s.readers[r].endSequence && t.readers[r].first == s.readers[r].first
    ensures t.produced == s.produced && t.history == s.history
  {
    hide SlotOk, ReaderOk, ProducerOk, After, Fresh;
    var reader := s.readers[r];
    NextIsThere(s, r);
    var a := Apply(s, Load(r));
    OneStep(s, Load(r));
    var b := Apply(a, Look(r));
    OneStep(a, Look(r));
    var c := Apply(b, Decide(r, false));
    OneStep(b, Decide(r, false));
    AfterJoin(s, [Load(r)], [Look(r)]);
    AfterJoin(s, [Load(r)] + [Look(r)], [Decide(r, false)]);
    var copies, e, copied := CopyWords(c, r, s.width);
    AfterJoin(s, [Load(r)] + [Look(r)] + [Decide(r, false)], copies);
    t := Apply(e, Finish(r, true));
    OneStep(e, Finish(r, true));
    AfterJoin(s, [Load(r)] + [Look(r)] + [Decide(r, false)] + copies, [Finish(r, true)]);
    steps := [Load(r)] + [Look(r)] + [Decide(r, false)] + copies + [Finish(r, true)];
    RunFresh(s, steps);
  }

  lemma NextIsThere(s: State, r: nat)
    requires Reachable(s) && r < |s.readers| && s.readers[r].next <= s.produced && !Lapped(s, r)
    ensures s.readers[r].next > 0 && s.slots[SlotOf(s.readers[r].next)].stamp == s.readers[r].next
  {
    assert ReaderOk(s, s.readers[r]);
  }

  /** Reading on until frame e has been written. */
  lemma {:induction false} ReadUpTo(s: State, r: nat, e: nat) returns (steps: seq<Step>, t: State)
    requires Reachable(s) && r < |s.readers| && s.readers[r].phase.Polling? && !s.readers[r].stop
    requires e <= s.produced && !Lapped(s, r)
    ensures After(s, steps) == Some(t) && Reachable(t) && r < |t.readers|
    ensures t.readers[r].phase.Polling? && !t.readers[r].stop && t.readers[r].next > e
    ensures t.readers[r].endSequence == s.readers[r].endSequence && t.readers[r].first == s.readers[r].first
    decreases e + 1 - s.readers[r].next
  {
    hide Inv, Apply, After, Fresh;
    if s.readers[r].next > e {
      steps, t := [], s;
      NothingMore(s);
    } else {
      var one, u := ReadOne(s, r);
      var more;
      more, t := ReadUpTo(u, r, e);
      AfterJoin(s, one, more);
      steps := one + more;
    }
  }

  /** The two stores are done and the writer looks. */
  lemma StopNow(s: State, r: nat) returns (steps: seq<Step>, t: State)
    requires Reachable(s) && r < |s.readers| && s.readers[r].phase.Polling? && !s.readers[r].stop
    requires s.readers[r].endSequence.Some? && s.readers[r].next > s.readers[r].endSequence.value
    ensures After(s, steps) == Some(t) && Inv(t) && r < |t.readers| && t.readers[r].phase == Ended(Requested)
    ensures t.readers[r].next == s.readers[r].next && t.readers[r].first == s.readers[r].first
  {
    hide SlotOk, ReaderOk, ProducerOk, After, Fresh;
    var a := Apply(s, SetStop(r));
    OneStep(s, SetStop(r));
    var b := Apply(a, Load(r));
    OneStep(a, Load(r));
    t := Apply(b, Look(r));
    OneStep(b, Look(r));
    AfterJoin(s, [SetStop(r)], [Load(r)]);
    AfterJoin(s, [SetStop(r)] + [Load(r)], [Look(r)]);
    steps := [SetStop(r)] + [Load(r)] + [Look(r)];
  }

  /** This schedule ends by request with more than first..endSequence written. */
  ghost predicate Overshoots(s: State, r: nat, e: nat, steps: seq<Step>) {
    && Inv(s) && After(s, steps).Some?
    && var t := After(s, steps).value;
    && r < |t.readers| && t.readers[r].phase == Ended(Requested) && |t.readers[r].output| > e - (t.readers[r].first - 1)
  }

  /** If a frame was published between the two stores, with the writer polling, then some way for the
      run to go on writes beyond the end, unless the writer has fallen a whole ring behind. */
  lemma LateFrameOvershoots(s: State, r: nat, e: nat)
    requires Reachable(s) && r < |s.readers| && s.readers[r].phase.Polling? && !s.readers[r].stop
    requires s.readers[r].endSequence == Some(e) && e < s.produced
    ensures (exists steps :: Overshoots(s, r, e, steps)) <==> s.readers[r].next > e + 1 || !Lapped(s, r)
  {
    if s.readers[r].next > e + 1 || !Lapped(s, r) {
      ScheduleOvershoot(s, r, e);
    } else {
      forall steps ensures !Overshoots(s, r, e, steps) {
        if After(s, steps).Some? { LappedWritesNoMore(s, r, e, steps); }
      }
    }
  }

  lemma ScheduleOvershoot(s: State, r: nat, e: nat)
    requires Reachable(s) && r < |s.readers| && s.readers[r].phase.Polling? && !s.readers[r].stop
    requires s.readers[r].endSequence == Some(e) && e < s.produced && (s.readers[r].next > e + 1 || !Lapped(s, r))
    ensures exists steps :: Overshoots(s, r, e, steps)
  {
    hide Inv, Apply, After, Fresh, Lapped;
    var read, u := [], s;
    NothingMore(s);
    if s.readers[r].next <= e + 1 { read, u := ReadUpTo(s, r, e + 1); }
    var stop, t := StopNow(u, r);
    AfterJoin(s, read, stop);
    OutputLength(t, r);
    assert Overshoots(s, r, e, read + stop);
  }

  lemma LappedWritesNoMore(s: State, r: nat, e: nat, steps: seq<Step>)
    requires Inv(s) && r < |s.readers| && Lapped(s, r) && s.readers[r].next <= e + 1 && After(s, steps).Some?
    ensures !Overshoots(s, r, e, steps)
  {
    hide Inv, Apply, After, Lapped;
    LappedForGood(s, steps, r);
    OutputLength(After(s, steps).value, r);
  }

  lemma OutputLength(s: State, r: nat)
    requires Inv(s) && r < |s.readers|
    ensures 0 < s.readers[r].first <= s.readers[r].next && |s.readers[r].output| == s.readers[r].next - s.readers[r].first
  {
    assert ReaderOk(s, s.readers[r]);
  }
}
