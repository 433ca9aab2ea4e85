/**
  What the device may rely on when it runs a tape it has accepted: the transition cap is never
  reached, no step is missing, and nothing is recorded or connected before a prompt.
*/
module RunSafety {
  import opened Flow
  import opened Tape
  import opened Session
  import opened Interpreter

  // ---------------------------------------------------------------- the transition cap

  /** The run ended on its own account, not on a defect of the tape. */
  predicate Proper(e: Ending) {
    e != OutOfSteps && e != Broken && e != Unrouted
  }

  /** The most steps left at depth d outside every menu that can still be returned to. */
  ghost function Reserve(d: nat): (n: nat)
    decreases 9 - d
  {
    if d >= 9 then 0 else 4 * (9 - d) + Reserve(d + 1)
  }

  lemma {:induction false} ReserveFalls(d: nat, e: nat)
    requires d <= e <= 9
    ensures Reserve(e) <= Reserve(d)
    decreases e - d
  {
    if d < e { ReserveFalls(d + 1, e); }
  }

  /** How often a menu may still be returned to. */
  ghost function ReturnsLeft(c: Config, counts: map<nat, nat>, m: nat): (r: nat)
    requires m < |c.instructions|
    ensures r <= 3
  {
    var ins := c.instructions[m];
    if ins.Collect? && Get(counts, m) < ins.maximumMenuReturns then ins.maximumMenuReturns - Get(counts, m) else 0
  }

  /** An upper bound on the instructions still to be executed, the current one included. */
  ghost function Potential(c: Config, places: seq<Place>, st: State): (n: int)
    requires |places| == |c.instructions| && st.pc < |places|
    requires places[st.pc].owner < |places|
  {
    var place, owner := places[st.pc], places[st.pc].owner;
    if c.instructions[st.pc].Collect? then
      Passes(ReturnsLeft(c, st.counts, st.pc), place.depth) + (9 - place.depth) + Reserve(place.depth + 1)
    else if owner < 0 || owner == place.forbidden then Reserve(place.depth)
    else
      Passes(ReturnsLeft(c, st.counts, owner), places[owner].depth) + (9 - place.depth) + Reserve(places[owner].depth + 1)
  }

  /** r more passes through a menu at depth d. */
  ghost function Passes(r: nat, d: nat): int {
    if r == 0 then 0 else (9 - d) + Passes(r - 1, d)
  }

  lemma PassesAtMost(r: nat, d: nat)
    requires r <= 3 && d <= 8
    ensures 0 <= Passes(r, d) <= 3 * (9 - d)
  {
    assert Passes(1, d) == 9 - d;
    assert Passes(2, d) == (9 - d) + Passes(1, d);
    assert Passes(3, d) == (9 - d) + Passes(2, d);
  }

  /** The menu an instruction belongs to is one of its ancestors. */
  lemma {:induction false} OwnerAbove(c: Config, places: seq<Place>, t: nat)
    requires InRange(c) && OneOwner(c) && Placement(c, places) && t < |places| && places[t].owner >= 0
    ensures places[t].owner < |places| && c.instructions[places[t].owner].Collect?
    ensures Above(places, places[t].owner, t) && places[places[t].owner].depth < places[t].depth
    decreases places[t].depth
  {
    assert t != c.entryPc && HasOwner(c, t);
    var s, i :| Owns(c, s, i, t);
    ChildBelow(c, places, s, i);
    if !c.instructions[s].Collect? { OwnerAbove(c, places, s); }
  }

  lemma OwnerInRange(c: Config, places: seq<Place>, t: nat)
    requires InRange(c) && OneOwner(c) && Placement(c, places) && t < |places|
    ensures places[t].owner < |places|
  {
    if places[t].owner >= 0 { OwnerAbove(c, places, t); }
  }

  /** Under any owner, a menu met for the first time costs no more than its reserve. */
  lemma MenuWithinReserve(c: Config, places: seq<Place>, st: State)
    requires InRange(c) && OneOwner(c) && Placed(c, places) && st.pc < |places| && c.instructions[st.pc].Collect?
    ensures places[st.pc].owner < |places|
    ensures Potential(c, places, st) <= Reserve(places[st.pc].depth)
  {
    OwnerInRange(c, places, st.pc);
    assert ShapeOk(c.instructions[st.pc], places[st.pc]);
    PassesAtMost(ReturnsLeft(c, st.counts, st.pc), places[st.pc].depth);
  }

  /** Going down a slot uses up at least one step. */
  lemma SlotDecreases(c: Config, places: seq<Place>, st: State, i: nat, at: nat)
    requires InRange(c) && OneOwner(c) && Placed(c, places) && IsEdge(c, st.pc, i)
    ensures Target(c, st.pc, i) < |places|
    ensures places[st.pc].owner < |places| && places[Target(c, st.pc, i)].owner < |places|
    ensures Potential(c, places, st.(pc := Target(c, st.pc, i), at := at)) < Potential(c, places, st)
  {
    hide Targets, OneOwner, Above;
    var t := Target(c, st.pc, i);
    var next := st.(pc := t, at := at);
    ChildBelow(c, places, st.pc, i);
    OwnerInRange(c, places, st.pc);
    OwnerInRange(c, places, t);
    assert ShapeOk(c.instructions[t], places[t]);
    var d := places[st.pc].depth;
    var owner := places[st.pc].owner;
    if c.instructions[st.pc].Collect? {
      PassesAtMost(ReturnsLeft(c, st.counts, st.pc), d);
      if c.instructions[t].Collect? { MenuWithinReserve(c, places, next); }
    } else {
      if owner >= 0 {
        OwnerAbove(c, places, st.pc);
        ReserveFalls(places[owner].depth + 1, d + 1);
        PassesAtMost(ReturnsLeft(c, st.counts, owner), places[owner].depth);
      }
      if c.instructions[t].Collect? { MenuWithinReserve(c, places, next); }
    }
  }

  lemma ReturnDecreases(c: Config, places: seq<Place>, st: State, events: seq<Event>)
    requires InRange(c) && OneOwner(c) && Placed(c, places) && st.pc < |places| && c.instructions[st.pc].Return?
    ensures var step := Execute(c, st, events);
            && step.Next? && step.state.pc < |places|
            && places[st.pc].owner < |places| && places[step.state.pc].owner < |places|
            && Potential(c, places, step.state) < Potential(c, places, st)
  {
    hide OneOwner, Above;
    var m := c.instructions[st.pc].menuPc;
    assert ShapeOk(c.instructions[st.pc], places[st.pc]) && InstructionOk(c, st.pc) && InstructionOk(c, m);
    var menu := c.instructions[m];
    OwnerAbove(c, places, st.pc);
    OwnerInRange(c, places, m);
    var next := Execute(c, st, events).state;
    if Get(st.counts, m) < menu.maximumMenuReturns {
      assert ReturnsLeft(c, next.counts, m) == ReturnsLeft(c, st.counts, m) - 1;
    } else {
      var last := |Targets(menu)| - 1;
      assert IsEdge(c, m, last) && Target(c, m, last) == next.pc;
      ChildBelow(c, places, m, last);
      OwnerInRange(c, places, next.pc);
      assert ShapeOk(c.instructions[next.pc], places[next.pc]);
      if c.instructions[next.pc].Collect? { MenuWithinReserve(c, places, next); }
    }
  }

  /** Every transition takes a slot, or is a return. */
  lemma StepTakesSlot(c: Config, st: State, events: seq<Event>) returns (i: nat, at: nat)
    requires InRange(c) && st.pc < |c.instructions| && !c.instructions[st.pc].Return?
    ensures Execute(c, st, events).Next? ==>
      IsEdge(c, st.pc, i) && Execute(c, st, events).state == st.(pc := Target(c, st.pc, i), at := at)
    ensures Execute(c, st, events).Stop? ==> Proper(Execute(c, st, events).ending)
  {
    assert InstructionOk(c, st.pc);
    var ins := c.instructions[st.pc];
    i, at := 0, st.at;
    if ins.Collect? {
      var answer := Ask(ins, events, st.at, 0);
      AskEnds(ins, events, st.at, 0);
      if answer.Routed? { i, at := answer.slot, answer.at; }
    } else if !ins.Play? && !ins.End? && st.at < |events| {
      var outcome := Outcome(ins, events[st.at]);
      if outcome.Routed? { i, at := outcome.slot, st.at + 1; }
    }
  }

  lemma {:induction false} AskEnds(ins: Instruction, events: seq<Event>, at: nat, attempt: nat)
    requires ins.Collect? && attempt < ins.maximumAttempts
    ensures Ask(ins, events, at, attempt).NoAnswer? ==> Ask(ins, events, at, attempt).ending in {Waiting, CallerLeft, Stopped}
    decreases ins.maximumAttempts - attempt
  {
    if attempt + 1 < ins.maximumAttempts { AskEnds(ins, events, at + 1, attempt + 1); }
  }

  lemma StepDecreases(c: Config, places: seq<Place>, st: State, events: seq<Event>)
    requires InRange(c) && OneOwner(c) && Placed(c, places) && st.pc < |places|
    ensures places[st.pc].owner < |places| && Potential(c, places, st) >= 1
    ensures var step := Execute(c, st, events);
            if step.Next? then
              && step.state.pc < |places| && places[step.state.pc].owner < |places|
              && Potential(c, places, step.state) < Potential(c, places, st)
            else Proper(step.ending)
  {
    hide Execute, OneOwner, Above;
    OwnerInRange(c, places, st.pc);
    assert ShapeOk(c.instructions[st.pc], places[st.pc]);
    PassesAtMost(ReturnsLeft(c, st.counts, st.pc), places[st.pc].depth);
    if places[st.pc].owner >= 0 {
      OwnerAbove(c, places, st.pc);
      PassesAtMost(ReturnsLeft(c, st.counts, places[st.pc].owner), places[places[st.pc].owner].depth);
    }
    if c.instructions[st.pc].Return? {
      ReturnDecreases(c, places, st, events);
    } else {
      var i, at := StepTakesSlot(c, st, events);
      if Execute(c, st, events).Next? { SlotDecreases(c, places, st, i, at); }
    }
  }

  lemma {:induction false} RunWithinPotential(c: Config, places: seq<Place>, st: State, events: seq<Event>, fuel: nat)
    requires InRange(c) && OneOwner(c) && Placed(c, places) && st.pc < |places|
    requires places[st.pc].owner < |places| && fuel >= Potential(c, places, st)
    ensures var report := Run(c, st, events, fuel);
            && |report.visited| <= Potential(c, places, st)
            && Proper(report.ending)
    decreases fuel
  {
    assert |places| == |c.instructions|;
    hide Execute, OneOwner, Potential, Placed, InRange;
    StepDecreases(c, places, st, events);
    var step := Execute(c, st, events);
    if step.Next? { RunWithinPotential(c, places, step.state, events, fuel - 1); }
  }

  /** Once a run has ended by itself, more fuel changes nothing. */
  lemma {:induction false} MoreFuel(c: Config, st: State, events: seq<Event>, fuel: nat, more: nat)
    requires fuel <= more && Run(c, st, events, fuel).ending != OutOfSteps
    ensures Run(c, st, events, more) == Run(c, st, events, fuel)
    decreases fuel
  {
    hide Execute;
    if fuel > 0 && st.pc < |c.instructions| {
      var step := Execute(c, st, events);
      if step.Next? { MoreFuel(c, step.state, events, fuel - 1, more - 1); }
    }
  }

  /** On an accepted tape every run ends by itself within 144 instructions, so the cap of 512 never bites. */
  lemma CapNeverReached(c: Config, events: seq<Event>, fuel: nat)
    requires WellOwned(c) && fuel >= 144
    ensures var report := Run(c, START.(pc := c.entryPc), events, fuel);
            && |report.visited| <= 144
            && Proper(report.ending)
            && report == Run(c, START.(pc := c.entryPc), events, MAXIMUM_TRANSITIONS)
  {
    var places :| Placed(c, places);
    var st := START.(pc := c.entryPc);
    assert places[c.entryPc] == ENTRY_PLACE;
    assert Reserve(1) == 144 by {
      assert Reserve(7) == 8 + (4 + Reserve(9));
      assert Reserve(5) == 16 + (12 + Reserve(7));
      assert Reserve(3) == 24 + (20 + Reserve(5));
      assert Reserve(1) == 32 + (28 + Reserve(3));
    }
    if c.instructions[c.entryPc].Collect? { MenuWithinReserve(c, places, st); }
    RunWithinPotential(c, places, st, events, 144);
    MoreFuel(c, st, events, 144, fuel);
    MoreFuel(c, st, events, 144, MAXIMUM_TRANSITIONS);
  }

  // ---------------------------------------------------------------- what has run before

  /** The program counters a run executes. */
  ghost function Trail(c: Config, st: State, events: seq<Event>, fuel: nat): seq<nat>
    decreases fuel
  {
    if fuel == 0 || st.pc >= |c.instructions| then [] else
      match Execute(c, st, events)
      case Stop(_) => [st.pc]
      case Next(next) => [st.pc] + Trail(c, next, events, fuel - 1)
  }

  lemma {:induction false} TrailIsVisited(c: Config, st: State, events: seq<Event>, fuel: nat)
    ensures var trail, visited := Trail(c, st, events, fuel), Run(c, st, events, fuel).visited;
            && |trail| == |visited|
            && forall j :: 0 <= j < |trail| ==> trail[j] < |c.instructions| && visited[j] == c.instructions[trail[j]].blockId
    decreases fuel
  {
    hide Execute;
    if fuel > 0 && st.pc < |c.instructions| {
      var step := Execute(c, st, events);
      if step.Next? { TrailIsVisited(c, step.state, events, fuel - 1); }
    }
  }

  /** Every instruction that t hangs below has been executed. */
  ghost predicate AncestorsIn(places: seq<Place>, t: nat, done: seq<nat>)
    requires t < |places|
  {
    forall a: nat :: a != t && Above(places, a, t) ==> a in done
  }

  lemma AncestorsOfChild(c: Config, places: seq<Place>, s: nat, i: nat, done: seq<nat>)
    requires InRange(c) && Placement(c, places) && IsEdge(c, s, i) && AncestorsIn(places, s, done) && s in done
    ensures Target(c, s, i) < |places| && AncestorsIn(places, Target(c, s, i), done)
  {
    ChildBelow(c, places, s, i);
  }

  /** A step only ever goes to an instruction whose ancestors have all run, returns included. */
  lemma StepKeepsAncestors(c: Config, places: seq<Place>, st: State, events: seq<Event>, done: seq<nat>)
    requires InRange(c) && OneOwner(c) && Placed(c, places) && st.pc < |places|
    requires AncestorsIn(places, st.pc, done)
    ensures var step := Execute(c, st, events);
            step.Next? ==> step.state.pc < |places| && AncestorsIn(places, step.state.pc, done + [st.pc])
  {
    hide OneOwner, Above;
    var now := done + [st.pc];
    assert AncestorsIn(places, st.pc, now);
    if c.instructions[st.pc].Return? {
      var m := c.instructions[st.pc].menuPc;
      assert ShapeOk(c.instructions[st.pc], places[st.pc]) && InstructionOk(c, st.pc) && InstructionOk(c, m);
      OwnerAbove(c, places, st.pc);
      forall a: nat | a != m && Above(places, a, m) ensures a in now {
        AboveTrans(places, a, m, st.pc);
        AboveDepth(places, a, m);
      }
      var last := |Targets(c.instructions[m])| - 1;
      assert IsEdge(c, m, last) && Target(c, m, last) == c.instructions[m].onReturnLimitPc;
      AncestorsOfChild(c, places, m, last, now);
    } else {
      hide Execute;
      var i, at := StepTakesSlot(c, st, events);
      if Execute(c, st, events).Next? { AncestorsOfChild(c, places, st.pc, i, now); }
    }
  }

  /** Along a run, all tree ancestors of an instruction are executed before it. */
  lemma {:induction false} AncestorsFirst(c: Config, places: seq<Place>, st: State, events: seq<Event>, fuel: nat, done: seq<nat>, j: nat)
    requires InRange(c) && OneOwner(c) && Placed(c, places) && st.pc < |places|
    requires AncestorsIn(places, st.pc, done)
    requires j < |Trail(c, st, events, fuel)|
    ensures var trail := Trail(c, st, events, fuel);
            trail[j] < |places| && AncestorsIn(places, trail[j], done + trail[..j])
    decreases fuel
  {
    hide Execute, OneOwner, Placed, InRange, Above;
    var trail := Trail(c, st, events, fuel);
    if j == 0 {
      assert done + trail[..0] == done;
    } else {
      StepKeepsAncestors(c, places, st, events, done);
      var next := Execute(c, st, events).state;
      AncestorsFirst(c, places, next, events, fuel - 1, done + [st.pc], j - 1);
      var rest := Trail(c, next, events, fuel - 1);
      assert trail == [st.pc] + rest;
      assert (done + [st.pc]) + rest[..j - 1] == done + trail[..j];
    }
  }

  ghost predicate GivesNotice(ins: Instruction) {
    ins.Play? || (ins.Collect? && ins.promptId != "")
  }

  /** A place that carries the notice has an ancestor that plays a prompt. */
  lemma {:induction false} NoticeHasSource(c: Config, places: seq<Place>, t: nat) returns (a: nat)
    requires InRange(c) && OneOwner(c) && Placement(c, places) && t < |places| && places[t].notice
    ensures a != t && Above(places, a, t) && a < |places| && GivesNotice(c.instructions[a])
    decreases places[t].depth
  {
    assert t != c.entryPc && HasOwner(c, t);
    var s, i :| Owns(c, s, i, t);
    ChildBelow(c, places, s, i);
    if places[s].notice {
      a := NoticeHasSource(c, places, s);
      AboveDepth(places, a, s);
    } else {
      a := s;
    }
  }

  /** On an accepted V4 tape nothing is recorded or dialled before some prompt instruction has run. */
  lemma PromptBeforeRecording(c: Config, events: seq<Event>, fuel: nat, j: nat)
    requires WellOwned(c) && c.schemaVersion == 4
    requires j < |Trail(c, START.(pc := c.entryPc), events, fuel)|
    ensures var trail := Trail(c, START.(pc := c.entryPc), events, fuel);
            && trail[j] < |c.instructions|
            && (c.instructions[trail[j]].Record? || c.instructions[trail[j]].External? ==>
                  exists i :: 0 <= i < j && trail[i] < |c.instructions| && GivesNotice(c.instructions[trail[i]]))
  {
    hide OneOwner, Trail;
    var places :| Placed(c, places);
    var st := START.(pc := c.entryPc);
    var trail := Trail(c, st, events, fuel);
    forall a: nat | Above(places, a, c.entryPc) ensures a == c.entryPc {
      AboveDepth(places, a, c.entryPc);
    }
    AncestorsFirst(c, places, st, events, fuel, [], j);
    if c.instructions[trail[j]].Record? || c.instructions[trail[j]].External? {
      assert NoticeOk(c, c.instructions[trail[j]], places[trail[j]]);
      var a := NoticeHasSource(c, places, trail[j]);
      assert a in [] + trail[..j];
      var i :| 0 <= i < j && trail[..j][i] == a;
      assert trail[i] == a;
    }
  }
}
