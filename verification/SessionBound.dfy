/**
  The number `maximum_cost` returns is exact: no run of the interpreter can charge more, some run
  charges precisely that much, and the search returns one whenever the flow has no trapped return (module CycleGuard).
*/
module SessionBound {
  import opened Prelude
  import opened Flow
  import opened Tape
  import opened Session
  import opened SessionCost
  import opened Simulation
  import opened Lowering
  import opened CycleGuard
  import I = Interpreter
  import A = Agreement

  // ---------------------------------------------------------------- time charged along a run

  /** The most time the step at st may take on these events; a menu is charged per attempt used. */
  function StepCharge(c: Config, d: Durations, st: I.State, events: seq<Event>): nat {
    if st.pc >= |c.instructions| then 0 else
      var ins := c.instructions[st.pc];
      match ins
      case Play(_, _, promptId, _) => Duration(d, promptId)
      case Collect(_, _, promptId, _, timeoutMs, _, _, _, _, _, _) =>
        (match I.Ask(ins, events, st.at, 0)
         case Routed(_, _, used) => used * (Duration(d, promptId) + timeoutMs)
         case NoAnswer(_) => MenuCharge(ins, d))
      case Record(_, _, maximumDurationMs, _, _, _) =>
        if st.at < |events| && events[st.at].Unavailable? then BEEP_DURATION_MS else BEEP_DURATION_MS + maximumDurationMs
      case External(_, _, _, answerTimeoutMs, _, _, _) => EXTERNAL_CONTROL_WATCHDOGS_MS + answerTimeoutMs
      case _ => 0
  }

  /** The charges of the steps a run executes, in order. */
  function Charges(c: Config, d: Durations, st: I.State, events: seq<Event>, fuel: nat): seq<nat>
    decreases fuel
  {
    if fuel == 0 || st.pc >= |c.instructions| then [] else
      match I.Execute(c, st, events)
      case Stop(_) => [StepCharge(c, d, st, events)]
      case Next(next) => [StepCharge(c, d, st, events)] + Charges(c, d, next, events, fuel - 1)
  }

  function Sum(s: seq<nat>): nat {
    if s == [] then 0 else s[0] + Sum(s[1..])
  }

  lemma {:induction false} SumMonotone(a: seq<nat>, b: seq<nat>)
    requires |a| == |b| && forall i :: 0 <= i < |a| ==> a[i] <= b[i]
    ensures Sum(a) <= Sum(b)
  {
    if a != [] { SumMonotone(a[1..], b[1..]); }
  }

  function SpotOf(st: I.State): Spot {
    Spot(st.pc, st.counts)
  }

  lemma AttemptsWithin(used: nat, attempts: nat, each: nat)
    requires used <= attempts
    ensures used * each <= attempts * each
  {
  }

  /** Every step of the interpreter is one of the moves the search looks at, and costs no more. */
  lemma StepIsMove(c: Config, d: Durations, st: I.State, events: seq<Event>) returns (i: nat)
    requires InRange(c) && st.pc < |c.instructions|
    ensures i < |Moves(c, d, SpotOf(st))| ==> StepCharge(c, d, st, events) <= Moves(c, d, SpotOf(st))[i].charge
    ensures i >= |Moves(c, d, SpotOf(st))| ==> StepCharge(c, d, st, events) == 0
    ensures match I.Execute(c, st, events)
            case Next(next) => i < |Moves(c, d, SpotOf(st))| && Moves(c, d, SpotOf(st))[i].next == SpotOf(next)
            case Stop(_) => true
  {
    assert InstructionOk(c, st.pc);
    var ins := c.instructions[st.pc];
    i := 0;
    match ins {
      case Collect(_, _, promptId, _, timeoutMs, maximumAttempts, _, _, _, _, _) =>
        var answer := I.Ask(ins, events, st.at, 0);
        if answer.Routed? {
          i := answer.slot;
          AttemptsWithin(answer.used, maximumAttempts, Duration(d, promptId) + timeoutMs);
        }
      case Return(_, _, menuPc) =>
        assert InstructionOk(c, menuPc);
      case Play(_, _, _, _) =>
      case End(_, _) =>
      case _ =>
        if st.at < |events| {
          var outcome := I.Outcome(ins, events[st.at]);
          if outcome.Routed? { i := outcome.slot; }
        }
    }
  }

  /** No run is charged more than the best of the search. */
  lemma {:induction false} ChargesBounded(c: Config, d: Durations, st: I.State, events: seq<Event>, fuel: nat, k: nat)
    requires InRange(c) && st.pc < |c.instructions| && Halts(c, d, SpotOf(st), k)
    ensures Sum(Charges(c, d, st, events, fuel)) <= Best(c, d, SpotOf(st), k)
    decreases fuel
  {
    hide Moves, StepCharge, I.Execute, InRange, BestFrom;
    if fuel > 0 {
      var s := SpotOf(st);
      var i := StepIsMove(c, d, st, events);
      if i < |Moves(c, d, s)| {
        BestIsUpper(c, d, s, k, |Moves(c, d, s)|, i);
      }
      match I.Execute(c, st, events)
      case Stop(_) =>
      case Next(next) =>
        MoveEffect(c, d, s, i);
        ChargesBounded(c, d, next, events, fuel - 1, k - 1);
    }
  }

  // ---------------------------------------------------------------- the bound is reached

  function Silence(n: nat): (r: seq<Event>)
    ensures |r| == n && forall i :: 0 <= i < n ==> r[i] == NoKey
  {
    seq(n, _ => NoKey)
  }

  /** The last key of a menu that leaves through slot i; 'A' is a tone no menu can offer. */
  function LastKey(ins: Instruction, i: nat): Event
    requires ins.Collect?
  {
    if i < |ins.branches| then KeyPressed(ins.branches[i].0) else if i == |ins.branches| then NoKey else KeyPressed('A')
  }

  /** Events that make an instruction take its i-th move at full cost. */
  function EventsFor(ins: Instruction, i: nat): seq<Event> {
    match ins
    case Collect(_, _, _, _, _, maximumAttempts, _, _, _, _, _) => Silence(maximumAttempts - 1) + [LastKey(ins, i)]
    case Schedule(_, _, _, _, _, _) => [if i == 0 then Open else if i == 1 then Closed else Holiday]
    case Record(_, _, _, _, _, _) => [if i == 0 then Recorded else Unavailable]
    case External(_, _, _, _, _, _, _) => [Called(if i == 0 then Completed else if i == 1 then NotConnected else SystemFailure)]
    case _ => []
  }

  ghost predicate DistinctTapeKeys(c: Config) {
    forall k :: 0 <= k < |c.instructions| && c.instructions[k].Collect? ==> KeysDiffer(c.instructions[k].branches)
  }

  ghost predicate KeysDiffer(bs: seq<(Key, nat)>) {
    forall i, j :: 0 <= i < j < |bs| ==> bs[i].0 != bs[j].0
  }

  lemma KeyFindsBranch(bs: seq<(Key, nat)>, i: nat)
    requires KeysDiffer(bs) && i < |bs|
    ensures I.FindBranch(bs, bs[i].0) == i
  {
    var j := I.FindBranch(bs, bs[i].0);
    assert j >= i;
  }

  /** After silence on all attempts but the last, the last key decides. */
  lemma {:induction false} AskAfterSilence(ins: Instruction, events: seq<Event>, at: nat, attempt: nat, i: nat)
    requires ins.Collect? && KeysDiffer(ins.branches) && i < |ins.branches| + 2 && attempt < ins.maximumAttempts
    requires at + (ins.maximumAttempts - attempt) <= |events|
    requires forall j :: at <= j < at + (ins.maximumAttempts - attempt) - 1 ==> events[j] == NoKey
    requires events[at + (ins.maximumAttempts - attempt) - 1] == LastKey(ins, i)
    ensures I.Ask(ins, events, at, attempt) == I.Routed(i, at + (ins.maximumAttempts - attempt), ins.maximumAttempts)
    decreases ins.maximumAttempts - attempt
  {
    if attempt + 1 < ins.maximumAttempts {
      AskAfterSilence(ins, events, at + 1, attempt + 1, i);
    } else if i < |ins.branches| {
      KeyFindsBranch(ins.branches, i);
    }
  }

  lemma MenuTakesMove(c: Config, d: Durations, s: Spot, i: nat, before: seq<Event>, after: seq<Event>)
    requires InRange(c) && DistinctTapeKeys(c) && s.pc < |c.instructions| && i < |Moves(c, d, s)|
    requires c.instructions[s.pc].Collect?
    ensures TakesMove(c, d, s, i, before, after)
  {
    assert InstructionOk(c, s.pc);
    var ins, own := c.instructions[s.pc], EventsFor(c.instructions[s.pc], i);
    var events := before + own + after;
    assert forall j :: 0 <= j < |own| ==> events[|before| + j] == own[j];
    AskAfterSilence(ins, events, |before|, 0, i);
  }

  /** With these events in the middle, the interpreter takes the i-th move and is charged for all of it. */
  ghost predicate TakesMove(c: Config, d: Durations, s: Spot, i: nat, before: seq<Event>, after: seq<Event>)
    requires s.pc < |c.instructions| && i < |Moves(c, d, s)|
  {
    var own := EventsFor(c.instructions[s.pc], i);
    var events, st := before + own + after, I.State(s.pc, s.counts, |before|);
    var move := Moves(c, d, s)[i];
    && I.Execute(c, st, events) == I.Next(I.State(move.next.pc, move.next.counts, |before + own|))
    && StepCharge(c, d, st, events) == move.charge
  }

  lemma AnyTakesMove(c: Config, d: Durations, s: Spot, i: nat, before: seq<Event>, after: seq<Event>)
    requires InRange(c) && DistinctTapeKeys(c) && s.pc < |c.instructions| && i < |Moves(c, d, s)|
    ensures TakesMove(c, d, s, i, before, after)
  {
    if c.instructions[s.pc].Collect? {
      MenuTakesMove(c, d, s, i, before, after);
    } else {
      assert InstructionOk(c, s.pc);
      var ins, own := c.instructions[s.pc], EventsFor(c.instructions[s.pc], i);
      if ins.Return? { assert InstructionOk(c, ins.menuPc); }
      var events := before + own + after;
      if own != [] { assert events[|before|] == own[0]; }
    }
  }

  lemma OnlyEndHasNoMove(c: Config, d: Durations, s: Spot)
    requires InRange(c) && s.pc < |c.instructions| && Moves(c, d, s) == []
    ensures c.instructions[s.pc].End? && c.instructions[s.pc].pc == s.pc
  {
    assert InstructionOk(c, s.pc);
  }

  /** Some run from s is charged the whole bound, and it ends at END. */
  lemma {:induction false} ChargesAttained(c: Config, d: Durations, s: Spot, k: nat, before: seq<Event>) returns (w: seq<Event>)
    requires InRange(c) && DistinctTapeKeys(c) && s.pc < |c.instructions| && Halts(c, d, s, k)
    ensures var st := I.State(s.pc, s.counts, |before|);
            && I.Run(c, st, before + w, k + 1).ending == Finished
            && Sum(Charges(c, d, st, before + w, k + 1)) == Best(c, d, s, k)
    decreases k
  {
    hide Moves, InRange, DistinctTapeKeys, BestFrom, EventsFor;
    var st := I.State(s.pc, s.counts, |before|);
    if Moves(c, d, s) == [] {
      w := [];
      OnlyEndHasNoMove(c, d, s);
      if k > 0 { EndIsFree(c, d, s, k); }
    } else {
      hide I.Execute, StepCharge;
      var first := Moves(c, d, s)[0];
      var i := BestIsTaken(c, d, s, k, |Moves(c, d, s)|);
      var own, next := EventsFor(c.instructions[s.pc], i), Moves(c, d, s)[i].next;
      MoveEffect(c, d, s, i);
      var rest := ChargesAttained(c, d, next, k - 1, before + own);
      w := own + rest;
      AnyTakesMove(c, d, s, i, before, rest);
      assert before + w == before + own + rest;
    }
  }

  lemma EndIsFree(c: Config, d: Durations, s: Spot, k: nat)
    requires Moves(c, d, s) == [] && k > 0
    ensures Best(c, d, s, k) == 0
  {
    hide Moves;
    assert BestFrom(c, d, s, k, 0) == 0;
  }

  // ---------------------------------------------------------------- the main result

  /** A compiled flow in which no live return is trapped has a worst case, and a run that meets it exactly. */
  lemma WorstCaseExact(root: Block, behavior: RecordingBehavior, d: Durations) returns (k: nat, witness_: seq<Event>)
    requires Compilable(root) && !Trapped(root) && DistinctTapeKeys(TapeOf(root, behavior))
    ensures var c := TapeOf(root, behavior);
            && Halts(c, d, Spot(0, map[]), k)
            && (forall events: seq<Event>, fuel: nat :: Sum(Charges(c, d, I.START, events, fuel)) <= Best(c, d, Spot(0, map[]), k))
            && I.Run(c, I.START, witness_, k + 1).ending == Finished
            && Sum(Charges(c, d, I.START, witness_, k + 1)) == Best(c, d, Spot(0, map[]), k)
  {
    var c, s := TapeOf(root, behavior), Spot(0, map[]);
    RootFirst(root);
    A.CompiledInRange(root, behavior);
    RootIsLive(root);
    k := LiveHalts(root, behavior, d, s);
    forall events: seq<Event>, fuel: nat ensures Sum(Charges(c, d, I.START, events, fuel)) <= Best(c, d, s, k) {
      ChargesBounded(c, d, I.START, events, fuel, k);
    }
    witness_ := ChargesAttained(c, d, s, k, []);
    assert [] + witness_ == witness_;
  }

  /** Steps that each stay within their charge add up to no more than the worst case. */
  lemma ElapsedWithinBound(c: Config, d: Durations, events: seq<Event>, fuel: nat, k: nat, times: seq<nat>)
    requires InRange(c) && 0 < |c.instructions| && Halts(c, d, Spot(0, map[]), k)
    requires var charges := Charges(c, d, I.START, events, fuel);
             |times| == |charges| && forall i :: 0 <= i < |times| ==> times[i] <= charges[i]
    ensures Sum(times) <= Best(c, d, Spot(0, map[]), k)
  {
    SumMonotone(times, Charges(c, d, I.START, events, fuel));
    ChargesBounded(c, d, I.START, events, fuel, k);
  }
}
