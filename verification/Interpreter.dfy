/**
  The tape interpreter of helper/src/main.cpp (`RunConfiguredProgramV2`), with playback,
  key detection, the clock, recording and operator calls reduced to the events they report.
*/
module Interpreter {
  import opened Flow
  import opened Tape
  import opened Session

  const MAXIMUM_TRANSITIONS := 512

  datatype State = State(pc: nat, counts: map<nat, nat>, at: nat)

  datatype Step = Next(state: State) | Stop(ending: Ending)

  const START := State(0, map[], 0)

  /** Position of the branch for a key, or the number of branches. */
  function FindBranch(bs: seq<(Key, nat)>, key: char): (i: nat)
    ensures i <= |bs|
    ensures i < |bs| ==> bs[i].0 == key
    ensures forall j :: 0 <= j < i ==> bs[j].0 != key
  {
    if bs == [] || bs[0].0 == key then 0 else 1 + FindBranch(bs[1..], key)
  }

  /** Which owned slot a menu continues at, after how many attempts. */
  datatype Answer = Routed(slot: nat, at: nat, used: nat) | NoAnswer(ending: Ending)

  function Ask(ins: Instruction, events: seq<Event>, at: nat, attempt: nat): (r: Answer)
    requires ins.Collect?
    ensures r.Routed? ==> r.slot < |ins.branches| + 2 && attempt < r.used <= ins.maximumAttempts
    ensures r.Routed? ==> at < r.at <= |events|
    ensures attempt < ins.maximumAttempts ==> r != NoAnswer(Unrouted)
    decreases ins.maximumAttempts - attempt
  {
    var last := attempt + 1 == ins.maximumAttempts;
    if attempt >= ins.maximumAttempts then NoAnswer(Unrouted)
    else if at >= |events| then NoAnswer(Waiting)
    else match events[at]
      case KeyPressed(key) =>
        var i := FindBranch(ins.branches, key);
        if i < |ins.branches| then Routed(i, at + 1, attempt + 1)
        else if last then Routed(|ins.branches| + 1, at + 1, attempt + 1)
        else Ask(ins, events, at + 1, attempt + 1)
      case NoKey =>
        if last then Routed(|ins.branches|, at + 1, attempt + 1)
        else Ask(ins, events, at + 1, attempt + 1)
      case Hangup => NoAnswer(CallerLeft)
      case _ => NoAnswer(Stopped)
  }

  /** `RouteExternalCallResult`: the slot a finished operator call branches to. */
  function Route(result: CallResult): Answer {
    match result
    case Completed => Routed(0, 0, 0)
    case NotConnected => Routed(1, 0, 0)
    case SystemFailure => Routed(2, 0, 0)
    case CallerHangup => NoAnswer(CallerLeft)
    case CleanupTimeout => NoAnswer(Stopped)
    case Failed => NoAnswer(Stopped)
  }

  function Outcome(ins: Instruction, event: Event): Answer
    requires ins.Schedule? || ins.Record? || ins.External?
  {
    if ins.Schedule? && event.Holiday? then Routed(2, 0, 0)
    else if ins.Schedule? && event.Open? then Routed(0, 0, 0)
    else if ins.Schedule? && event.Closed? then Routed(1, 0, 0)
    else if ins.Record? && event.Recorded? then Routed(0, 0, 0)
    else if ins.Record? && event.Unavailable? then Routed(1, 0, 0)
    else if ins.Record? && event.Hangup? then NoAnswer(CallerLeft)
    else if ins.External? && event.Called? then Route(event.result)
    else NoAnswer(Stopped)
  }

  /** One transition of the interpreter. */
  function Execute(c: Config, st: State, events: seq<Event>): Step {
    if st.pc >= |c.instructions| || c.instructions[st.pc].pc != st.pc then Stop(Broken)
    else
      var ins := c.instructions[st.pc];
      match ins
      case Play(_, _, _, nextPc) => Next(st.(pc := nextPc))
      case Collect(_, _, _, _, _, _, _, _, _, _, _) =>
        (match Ask(ins, events, st.at, 0)
         case Routed(slot, at, _) => Next(st.(pc := Targets(ins)[slot], at := at))
         case NoAnswer(ending) => Stop(ending))
      case Return(_, _, menuPc) =>
        if menuPc >= |c.instructions| || c.instructions[menuPc].pc != menuPc || !c.instructions[menuPc].Collect? then Stop(Broken)
        else
          var menu, count := c.instructions[menuPc], Get(st.counts, menuPc);
          if count < menu.maximumMenuReturns
          then Next(State(menuPc, st.counts[menuPc := count + 1], st.at))
          else Next(st.(pc := menu.onReturnLimitPc))
      case End(_, _) => Stop(Finished)
      case _ =>
        if st.at >= |events| then Stop(Waiting)
        else match Outcome(ins, events[st.at])
          case Routed(slot, _, _) => Next(st.(pc := Targets(ins)[slot], at := st.at + 1))
          case NoAnswer(ending) => Stop(ending)
  }

  /** A run of at most `fuel` transitions. */
  function Run(c: Config, st: State, events: seq<Event>, fuel: nat): Report
    decreases fuel
  {
    if fuel == 0 then Report([], OutOfSteps)
    else if st.pc >= |c.instructions| then Report([], Broken)
    else
      var id := c.instructions[st.pc].blockId;
      match Execute(c, st, events)
      case Stop(ending) => Report([id], ending)
      case Next(next) =>
        var rest := Run(c, next, events, fuel - 1);
        Report([id] + rest.visited, rest.ending)
  }

  /** The attempt loop of a menu. */
  method AskLoop(ins: Instruction, events: seq<Event>, start: nat) returns (r: Answer)
    requires ins.Collect?
    ensures r == Ask(ins, events, start, 0)
  {
    var attempt: nat, at: nat := 0, start;
    while attempt < ins.maximumAttempts
      invariant attempt <= ins.maximumAttempts
      invariant Ask(ins, events, at, attempt) == Ask(ins, events, start, 0)
    {
      if at >= |events| { return NoAnswer(Waiting); }
      var event := events[at];
      at := at + 1;
      if event.Hangup? { return NoAnswer(CallerLeft); }
      if !event.KeyPressed? && !event.NoKey? { return NoAnswer(Stopped); }
      if event.KeyPressed? {
        var i := FindBranch(ins.branches, event.key);
        if i < |ins.branches| { return Routed(i, at, attempt + 1); }
        if attempt + 1 == ins.maximumAttempts { return Routed(|ins.branches| + 1, at, attempt + 1); }
      } else if attempt + 1 == ins.maximumAttempts {
        return Routed(|ins.branches|, at, attempt + 1);
      }
      attempt := attempt + 1;
    }
    return NoAnswer(Unrouted);
  }

  /** The switch of the interpreter loop, on its three counters. */
  method Transition(c: Config, current: nat, menuReturns: map<nat, nat>, at: nat, events: seq<Event>) returns (step: Step)
    requires current < |c.instructions|
    ensures step == Execute(c, State(current, menuReturns, at), events)
  {
    var ins := c.instructions[current];
    if ins.pc != current { return Stop(Broken); }
    match ins {
      case Play(_, _, _, nextPc) =>
        step := Next(State(nextPc, menuReturns, at));
      case Collect(_, _, _, _, _, _, _, _, _, _, _) =>
        var answer := AskLoop(ins, events, at);
        if answer.NoAnswer? { return Stop(answer.ending); }
        step := Next(State(Targets(ins)[answer.slot], menuReturns, answer.at));
      case Return(_, _, menuPc) =>
        if menuPc >= |c.instructions| || c.instructions[menuPc].pc != menuPc || !c.instructions[menuPc].Collect? {
          return Stop(Broken);
        }
        var menu := c.instructions[menuPc];
        var count: nat := if menuPc in menuReturns then menuReturns[menuPc] else 0;
        if count < menu.maximumMenuReturns {
          step := Next(State(menuPc, menuReturns[menuPc := count + 1], at));
        } else {
          step := Next(State(menu.onReturnLimitPc, menuReturns, at));
        }
      case End(_, _) =>
        step := Stop(Finished);
      case _ =>
        if at >= |events| { return Stop(Waiting); }
        var outcome := Outcome(ins, events[at]);
        if outcome.NoAnswer? { return Stop(outcome.ending); }
        step := Next(State(Targets(ins)[outcome.slot], menuReturns, at + 1));
    }
  }

  /** `RunConfiguredProgramV2`: the loop with its counters and its transition cap. */
  method RunConfiguredProgramV2(c: Config, events: seq<Event>) returns (report: Report)
    ensures report == Run(c, START.(pc := c.entryPc), events, MAXIMUM_TRANSITIONS)
  {
    hide Execute;
    var current: nat, at: nat, transition: nat := c.entryPc, 0, 0;
    var menuReturns: map<nat, nat> := map[];
    var visited: seq<Id> := [];
    ghost var whole := Run(c, State(current, menuReturns, at), events, MAXIMUM_TRANSITIONS);
    while transition < MAXIMUM_TRANSITIONS
      invariant 0 <= transition <= MAXIMUM_TRANSITIONS
      invariant var rest := Run(c, State(current, menuReturns, at), events, MAXIMUM_TRANSITIONS - transition);
                whole == Report(visited + rest.visited, rest.ending)
    {
      if current >= |c.instructions| { return Report(visited, Broken); }
      var id := c.instructions[current].blockId;
      ghost var seen := visited;
      visited := visited + [id];
      var step := Transition(c, current, menuReturns, at, events);
      if step.Stop? { return Report(visited, step.ending); }
      ghost var after := Run(c, step.state, events, MAXIMUM_TRANSITIONS - transition - 1);
      assert seen + ([id] + after.visited) == visited + after.visited;
      current, menuReturns, at := step.state.pc, step.state.counts, step.state.at;
      transition := transition + 1;
    }
    return Report(visited, OutOfSteps);
  }
}
