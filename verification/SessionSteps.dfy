/**
  One step of a session in full: which keys and silences a menu turns into which way on, what every
  event leads to, and what the server charges for the step of every block.
*/
module SessionSteps {
  import opened Prelude
  import opened Flow
  import opened Tape
  import opened Session
  import opened SessionCost
  import opened Simulation
  import opened Lowering
  import opened Interpreter
  import B = SessionBound

  // ---------------------------------------------------------------- menus

  /** The key is that of branch i, and of none before. */
  predicate Hits(ins: Instruction, e: Event, i: nat)
    requires ins.Collect?
  {
    && e.KeyPressed? && i < |ins.branches| && ins.branches[i].0 == e.key
    && forall j :: 0 <= j < i ==> ins.branches[j].0 != e.key
  }

  /** Silence, or a key that no branch has. */
  predicate Misses(ins: Instruction, e: Event)
    requires ins.Collect?
  {
    e.NoKey? || (e.KeyPressed? && forall i :: 0 <= i < |ins.branches| ==> ins.branches[i].0 != e.key)
  }

  /** The next n events all miss. */
  predicate MissesFor(ins: Instruction, events: seq<Event>, at: nat, n: nat)
    requires ins.Collect?
  {
    at + n <= |events| && forall i :: at <= i < at + n ==> Misses(ins, events[i])
  }

  lemma {:induction false} AfterMisses(ins: Instruction, events: seq<Event>, at: nat, attempt: nat, n: nat)
    requires ins.Collect? && MissesFor(ins, events, at, n) && attempt + n < ins.maximumAttempts
    ensures Ask(ins, events, at, attempt) == Ask(ins, events, at + n, attempt + n)
    decreases n
  {
    if n > 0 {
      assert Misses(ins, events[at]);
      AfterMisses(ins, events, at + 1, attempt + 1, n - 1);
    }
  }

  lemma AskHere(ins: Instruction, events: seq<Event>, at: nat, attempt: nat, i: nat)
    requires ins.Collect? && attempt < ins.maximumAttempts
    ensures at < |events| && Hits(ins, events[at], i) ==> Ask(ins, events, at, attempt) == Routed(i, at + 1, attempt + 1)
    ensures at < |events| && events[at].Hangup? ==> Ask(ins, events, at, attempt) == NoAnswer(CallerLeft)
    ensures at >= |events| ==> Ask(ins, events, at, attempt) == NoAnswer(Waiting)
    ensures at < |events| && Misses(ins, events[at]) && attempt + 1 == ins.maximumAttempts ==>
      Ask(ins, events, at, attempt) == Routed(|ins.branches| + (if events[at].NoKey? then 0 else 1), at + 1, attempt + 1)
  {
  }

  /** A menu goes where the first key that fits one of its branches says, if it comes within the attempts;
      after as many misses as there are attempts the last of them decides between silence and a wrong
      key; a hangup ends the session, and without an event it waits. */
  lemma MenuExactly(c: Config, st: State, events: seq<Event>, n: nat, i: nat)
    requires st.pc < |c.instructions| && c.instructions[st.pc].pc == st.pc && c.instructions[st.pc].Collect?
    requires MissesFor(c.instructions[st.pc], events, st.at, n) && n < c.instructions[st.pc].maximumAttempts
    ensures var ins, at := c.instructions[st.pc], st.at + n;
      && (at < |events| && Hits(ins, events[at], i) ==> Execute(c, st, events) == Next(State(ins.branches[i].1, st.counts, at + 1)))
      && (at < |events| && events[at].NoKey? && n + 1 == ins.maximumAttempts ==>
            Execute(c, st, events) == Next(State(ins.onTimeoutPc, st.counts, at + 1)))
      && (at < |events| && events[at].KeyPressed? && Misses(ins, events[at]) && n + 1 == ins.maximumAttempts ==>
            Execute(c, st, events) == Next(State(ins.onInvalidPc, st.counts, at + 1)))
      && (at < |events| && events[at].Hangup? ==> Execute(c, st, events) == Stop(CallerLeft))
      && (at == |events| ==> Execute(c, st, events) == Stop(Waiting))
  {
    var ins := c.instructions[st.pc];
    AfterMisses(ins, events, st.at, 0, n);
    AskHere(ins, events, st.at + n, n, i);
    hide Ask;
  }

  // ---------------------------------------------------------------- everything else

  /** Where each event leads from a schedule, a recording or an operator call. */
  lemma EventExactly(c: Config, st: State, events: seq<Event>)
    requires st.pc < |c.instructions| && c.instructions[st.pc].pc == st.pc && st.at < |events|
    ensures var ins, e, on := c.instructions[st.pc], events[st.at], (pc: nat) => Next(State(pc, st.counts, st.at + 1));
      && (ins.Schedule? && e == Open ==> Execute(c, st, events) == on(ins.onOpenPc))
      && (ins.Schedule? && e == Closed ==> Execute(c, st, events) == on(ins.onClosedPc))
      && (ins.Schedule? && e == Holiday ==> Execute(c, st, events) == on(ins.onHolidayPc))
      && (ins.Record? && e == Recorded ==> Execute(c, st, events) == on(ins.nextPc))
      && (ins.Record? && e == Unavailable ==> Execute(c, st, events) == on(ins.onUnavailablePc))
      && (ins.Record? && e == Hangup ==> Execute(c, st, events) == Stop(CallerLeft))
      && (ins.External? && e == Called(Completed) ==> Execute(c, st, events) == on(ins.onCompletedPc))
      && (ins.External? && e == Called(NotConnected) ==> Execute(c, st, events) == on(ins.onNotConnectedPc))
      && (ins.External? && e == Called(SystemFailure) ==> Execute(c, st, events) == on(ins.onSystemFailurePc))
      && (ins.External? && e == Called(CallerHangup) ==> Execute(c, st, events) == Stop(CallerLeft))
      && (ins.External? && (e == Called(CleanupTimeout) || e == Called(Failed)) ==> Execute(c, st, events) == Stop(Stopped))
  {
  }

  /** A return goes back while its menu has returns left, using one up, and then past the limit; playing
      goes on, and an end ends. */
  lemma EventlessExactly(c: Config, st: State, events: seq<Event>)
    requires st.pc < |c.instructions| && InRange(c)
    ensures var ins := c.instructions[st.pc];
      && (ins.Play? ==> Execute(c, st, events) == Next(State(ins.nextPc, st.counts, st.at)))
      && (ins.End? ==> Execute(c, st, events) == Stop(Finished))
      && (ins.Return? ==>
            var m := ins.menuPc;
            var used := Get(st.counts, m);
            && m < |c.instructions| && c.instructions[m].Collect?
            && Execute(c, st, events) ==
              if used < c.instructions[m].maximumMenuReturns then Next(State(m, st.counts[m := used + 1], st.at))
              else Next(State(c.instructions[m].onReturnLimitPc, st.counts, st.at)))
  {
    assert InstructionOk(c, st.pc);
    if c.instructions[st.pc].Return? { assert InstructionOk(c, c.instructions[st.pc].menuPc); }
  }

  // ---------------------------------------------------------------- charges

  /** What the server charges for a step, said of the block the editor saved: the prompt, attempts times
      prompt and silence, the beep and the longest recording, the watchdogs and the longest ringing. */
  lemma ChargeOfBlock(root: Block, behavior: RecordingBehavior, d: Durations, k: nat, counts: map<nat, nat>, i: nat)
    requires Compilable(root) && k < |Nodes(root)| && i < |Moves(TapeOf(root, behavior), d, Spot(k, counts))|
    ensures var b, charge := Nodes(root)[k].block, Moves(TapeOf(root, behavior), d, Spot(k, counts))[i].charge;
      && (b.PlayPrompt? ==> charge == Duration(d, b.promptId))
      && (b.CollectDigit? ==> charge == b.maximumAttempts * (Duration(d, b.promptId) + b.timeoutMs))
      && (b.ScheduleBranch? || b.ReturnToMenu? ==> charge == 0)
      && (b.RecordMessage? ==> charge == 500 + if i == 0 then 1000 * behavior.maximumDurationSeconds else 0)
      && (b.ExternalCall? ==> charge == 30_000 + 1000 * b.answerSeconds)
  {
    hide Flatten;
    ChargeOfInstruction(Nodes(root), k, behavior, d, counts, i, TapeOf(root, behavior));
    hide Emit, Moves, EmitAll;
  }

  lemma ChargeOfInstruction(nodes: seq<Node>, k: nat, behavior: RecordingBehavior, d: Durations, counts: map<nat, nat>, i: nat, c: Config)
    requires k < |nodes| == |c.instructions| && c.instructions[k] == Emit(nodes, k, behavior) && i < |Moves(c, d, Spot(k, counts))|
    ensures var b, charge := nodes[k].block, Moves(c, d, Spot(k, counts))[i].charge;
      && (b.PlayPrompt? ==> charge == Duration(d, b.promptId))
      && (b.CollectDigit? ==> charge == b.maximumAttempts * (Duration(d, b.promptId) + b.timeoutMs))
      && (b.ScheduleBranch? || b.ReturnToMenu? ==> charge == 0)
      && (b.RecordMessage? ==> charge == 500 + if i == 0 then 1000 * behavior.maximumDurationSeconds else 0)
      && (b.ExternalCall? ==> charge == 30_000 + 1000 * b.answerSeconds)
  {
    hide PcOf, SortBranches, Duration, Targets;
  }

  /** No attempt loop listens more often than the menu allows, so it never takes longer than charged. */
  lemma MenuWithinCharge(ins: Instruction, d: Durations, events: seq<Event>, at: nat)
    requires ins.Collect?
    ensures match Ask(ins, events, at, 0)
      case Routed(_, end, used) => end == at + used && used * (Duration(d, ins.promptId) + ins.timeoutMs) <= MenuCharge(ins, d)
      case NoAnswer(_) => true
  {
    AskUses(ins, events, at, 0);
    match Ask(ins, events, at, 0)
    case Routed(_, _, used) => B.AttemptsWithin(used, ins.maximumAttempts, Duration(d, ins.promptId) + ins.timeoutMs);
    case NoAnswer(_) =>
  }

  lemma {:induction false} AskUses(ins: Instruction, events: seq<Event>, at: nat, attempt: nat)
    requires ins.Collect?
    ensures var r := Ask(ins, events, at, attempt); r.Routed? ==> r.at - at == r.used - attempt
    decreases ins.maximumAttempts - attempt
  {
    if attempt < ins.maximumAttempts { AskUses(ins, events, at + 1, attempt + 1); }
  }
}
