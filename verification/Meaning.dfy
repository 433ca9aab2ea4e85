/**
  The lowering preserves meaning: on every list of events the tape of a flow executes the same
  blocks in the same order, and ends in the same way, as the walk of the block tree.
*/
module Meaning {
  import opened Prelude
  import opened Flow
  import opened Tape
  import opened Session
  import opened Simulation
  import opened Lowering
  import I = Interpreter

  /** No menu offers one key twice; the device parser rejects a tape that does. */
  ghost predicate DistinctKeys(root: Block) {
    forall k :: 0 <= k < |Nodes(root)| && Nodes(root)[k].block.CollectDigit? ==> DistinctDigits(Nodes(root)[k].block.branches)
  }

  /** The tape stands at the block the walk stands at, with the same menu and the same counts. */
  ghost predicate Matches(root: Block, p: Position, st: I.State) {
    var nodes := Nodes(root);
    && st.pc < |nodes|
    && nodes[st.pc].block == p.block
    && st.at == p.at
    && (!p.block.CollectDigit? ==> MenuMatches(nodes, nodes[st.pc].context.owner, p.menu))
    && (forall m :: 0 <= m < |nodes| && nodes[m].block.CollectDigit? ==> Get(st.counts, m) == Get(p.counts, nodes[m].block.id))
  }

  ghost predicate MenuMatches(nodes: seq<Node>, owner: Option<Id>, menu: Option<Block>) {
    owner.Some? ==>
      && menu.Some? && menu.value.CollectDigit? && menu.value.id == owner.value
      && PcOf(nodes, owner.value) < |nodes|
      && nodes[PcOf(nodes, owner.value)].block == menu.value
  }

  /** The device's branch lookup on the sorted tape finds the branch the editor's list names. */
  lemma SameBranch(nodes: seq<Node>, bs: seq<Branch>, key: char)
    requires DistinctDigits(bs)
    ensures var i := I.FindBranch(BranchPcs(nodes, SortBranches(bs)), key);
            BranchFor(bs, key) == if i < |bs| then Some(SortBranches(bs)[i].root) else None
  {
    hide SortBranches;
    var sorted := SortBranches(bs);
    var pcs := BranchPcs(nodes, sorted);
    var i := I.FindBranch(pcs, key);
    if i < |bs| {
      SortMembers(bs, sorted[i]);
      var j :| 0 <= j < |bs| && bs[j] == sorted[i];
      assert sorted[i].digit == key;
      var found := BranchFor(bs, key);
      assert bs[j].digit == key;
      var l :| 0 <= l < |bs| && bs[l].digit == key && bs[l].root == found.value;
    } else {
      forall l | 0 <= l < |bs| ensures bs[l].digit != key {
        SortMembers(bs, bs[l]);
        var j :| 0 <= j < |sorted| && sorted[j] == bs[l];
        assert pcs[j].0 == bs[l].digit;
      }
    }
  }

  lemma MenuSlots(b: Block, slot: nat)
    requires b.CollectDigit? && slot < |b.branches| + 3
    ensures |Children(b)| == |b.branches| + 3
    ensures Children(b)[slot] ==
      if slot < |b.branches| then SortBranches(b.branches)[slot].root
      else if slot == |b.branches| then b.onTimeout
      else if slot == |b.branches| + 1 then b.onInvalid
      else b.onReturnLimit
  {
    hide SortBranches;
  }

  lemma EmitMenu(nodes: seq<Node>, k: nat, behavior: RecordingBehavior)
    requires k < |nodes| && nodes[k].block.CollectDigit?
    ensures var b, ins := nodes[k].block, Emit(nodes, k, behavior);
            && ins.Collect? && ins.maximumAttempts == b.maximumAttempts
            && ins.branches == BranchPcs(nodes, SortBranches(b.branches)) && |ins.branches| == |b.branches|
  {
    hide PcOf;
  }

  /** Both attempt loops choose the same way on. */
  lemma {:induction false} SameChoice(nodes: seq<Node>, k: nat, behavior: RecordingBehavior, events: seq<Event>, at: nat, attempt: nat)
    requires k < |nodes| && nodes[k].block.CollectDigit? && DistinctDigits(nodes[k].block.branches)
    ensures var b := nodes[k].block;
            match I.Ask(Emit(nodes, k, behavior), events, at, attempt)
            case Routed(slot, at', _) => slot < |Children(b)| && Choose(b, events, at, attempt) == Chosen(Children(b)[slot], at')
            case NoAnswer(ending) => Choose(b, events, at, attempt) == NoChoice(ending)
    decreases nodes[k].block.maximumAttempts - attempt
  {
    hide Children, SortBranches, Emit, I.FindBranch, BranchFor, Targets, DistinctDigits;
    var b := nodes[k].block;
    EmitMenu(nodes, k, behavior);
    MenuSlots(b, |b.branches|);
    MenuSlots(b, |b.branches| + 1);
    if attempt < b.maximumAttempts && at < |events| {
      if events[at].KeyPressed? {
        SameBranch(nodes, b.branches, events[at].key);
        var i := I.FindBranch(BranchPcs(nodes, SortBranches(b.branches)), events[at].key);
        if i < |b.branches| { MenuSlots(b, i); }
      }
      if attempt + 1 < b.maximumAttempts { SameChoice(nodes, k, behavior, events, at + 1, attempt + 1); }
    }
  }

  /** Both go on through slot i: the tape to its target, the walk to that child. */
  lemma TakeSlot(root: Block, behavior: RecordingBehavior, p: Position, st: I.State, i: nat, at: nat)
    requires Compilable(root) && Matches(root, p, st)
    requires i < |Children(p.block)|
    ensures |Targets(Emit(Nodes(root), st.pc, behavior))| == |Children(p.block)|
    ensures Matches(root,
      p.(block := Children(p.block)[i], menu := if p.block.CollectDigit? then Some(p.block) else p.menu, at := at),
      st.(pc := Targets(Emit(Nodes(root), st.pc, behavior))[i], at := at))
  {
    hide Children, Emit, Targets, PcOf, Offset;
    var nodes := Nodes(root);
    SlotAt(root, behavior, st.pc, i);
    if p.block.CollectDigit? { PcOfNode(nodes, st.pc); }
  }

  lemma MenuStep(root: Block, behavior: RecordingBehavior, p: Position, st: I.State, events: seq<Event>)
    requires Compilable(root) && DistinctKeys(root) && Matches(root, p, st) && p.block.CollectDigit?
    ensures StepsMatch(root, Advance(p, events), I.Execute(TapeOf(root, behavior), st, events))
  {
    hide Children, Targets, PcOf, Matches;
    var nodes := Nodes(root);
    assert st.pc < |nodes| && nodes[st.pc].block == p.block && st.at == p.at by { MatchesParts(root, p, st); }
    EmitHeader(nodes, st.pc, behavior);
    SameChoice(nodes, st.pc, behavior, events, st.at, 0);
    var ins := Emit(nodes, st.pc, behavior);
    assert ins.Collect?;
    match I.Ask(ins, events, st.at, 0)
    case Routed(slot, at, _) => TakeSlot(root, behavior, p, st, slot, at);
    case NoAnswer(_) =>
  }

  lemma MatchesParts(root: Block, p: Position, st: I.State)
    requires Matches(root, p, st)
    ensures st.pc < |Nodes(root)| && Nodes(root)[st.pc].block == p.block && st.at == p.at
  {
  }

  ghost predicate StepsMatch(root: Block, move: Move, step: I.Step) {
    match (move, step)
    case (Go(p), Next(st)) => Matches(root, p, st)
    case (Halt(e), Stop(f)) => e == f
    case _ => false
  }

  lemma ReturnStep(root: Block, behavior: RecordingBehavior, p: Position, st: I.State, events: seq<Event>)
    requires Compilable(root) && Matches(root, p, st) && p.block.ReturnToMenu?
    ensures StepsMatch(root, Advance(p, events), I.Execute(TapeOf(root, behavior), st, events))
  {
    hide Children, Targets, PcOf, Offset, Flatten;
    var nodes := Nodes(root);
    assert NodeOk(nodes[st.pc]);
    OwnerAt(root, st.pc);
    var m := PcOf(nodes, nodes[st.pc].context.owner.value);
    var menu := nodes[m].block;
    EmitHeader(nodes, st.pc, behavior);
    EmitHeader(nodes, m, behavior);
    var ins := Emit(nodes, m, behavior);
    assert p.menu == Some(menu) && ins.Collect?;
    if Get(st.counts, m) < ins.maximumMenuReturns {
      OtherMenus(nodes, m);
    } else {
      MenuSlots(menu, |menu.branches| + 2);
      LastTarget(ins);
      var at := Position(menu, p.menu, p.counts, p.at);
      assert Matches(root, at, st.(pc := m));
      TakeSlot(root, behavior, at, st.(pc := m), |menu.branches| + 2, p.at);
      EmitBranches(nodes, m, behavior);
    }
  }

  lemma OtherMenus(nodes: seq<Node>, m: nat)
    requires DistinctIds(nodes) && m < |nodes| && nodes[m].block.CollectDigit?
    ensures forall j :: 0 <= j < |nodes| && nodes[j].block.CollectDigit? && j != m ==> nodes[j].block.id != nodes[m].block.id
  {
    forall j | 0 <= j < |nodes| && nodes[j].block.CollectDigit? && j != m ensures nodes[j].block.id != nodes[m].block.id {
      assert IdOf(nodes[j].block) != IdOf(nodes[m].block) by { if j < m {} else {} }
    }
  }

  lemma LastTarget(ins: Instruction)
    requires ins.Collect?
    ensures |Targets(ins)| == |ins.branches| + 3 && Targets(ins)[|ins.branches| + 2] == ins.onReturnLimitPc
  {
  }

  lemma EmitBranches(nodes: seq<Node>, k: nat, behavior: RecordingBehavior)
    requires k < |nodes| && nodes[k].block.CollectDigit?
    ensures |Emit(nodes, k, behavior).branches| == |nodes[k].block.branches|
  {
  }

  lemma OtherStep(root: Block, behavior: RecordingBehavior, p: Position, st: I.State, events: seq<Event>)
    requires Compilable(root) && Matches(root, p, st) && !p.block.CollectDigit? && !p.block.ReturnToMenu?
    ensures StepsMatch(root, Advance(p, events), I.Execute(TapeOf(root, behavior), st, events))
  {
    hide PcOf, Matches;
    var nodes := Nodes(root);
    MatchesParts(root, p, st);
    EmitHeader(nodes, st.pc, behavior);
    NodesNonEmpty(root, st.pc);
    var ins := Emit(nodes, st.pc, behavior);
    if p.block.PlayPrompt? {
      TakeSlot(root, behavior, p, st, 0, p.at);
    } else if !p.block.EndCall? && p.at < |events| {
      match I.Outcome(ins, events[p.at])
      case Routed(slot, _, _) => TakeSlot(root, behavior, p, st, slot, p.at + 1);
      case NoAnswer(_) =>
    }
  }

  lemma {:induction false} SameRun(root: Block, behavior: RecordingBehavior, p: Position, st: I.State, events: seq<Event>, fuel: nat)
    requires Compilable(root) && DistinctKeys(root) && Matches(root, p, st)
    ensures I.Run(TapeOf(root, behavior), st, events, fuel) == Simulate(p, events, fuel)
    decreases fuel
  {
    hide I.Execute, Advance, Matches, Compilable, DistinctKeys;
    if fuel > 0 {
      var c := TapeOf(root, behavior);
      MatchesParts(root, p, st);
      NodesNonEmpty(root, st.pc);
      EmitHeader(Nodes(root), st.pc, behavior);
      if p.block.CollectDigit? {
        MenuStep(root, behavior, p, st, events);
      } else if p.block.ReturnToMenu? {
        ReturnStep(root, behavior, p, st, events);
      } else {
        OtherStep(root, behavior, p, st, events);
      }
      match (Advance(p, events), I.Execute(c, st, events))
      case (Go(q), Next(next)) => SameRun(root, behavior, q, next, events, fuel - 1);
      case _ =>
    }
  }

  /** Running the compiled tape and walking the tree give the same report, step by step. */
  lemma MeaningPreserved(root: Block, behavior: RecordingBehavior, events: seq<Event>, fuel: nat)
    requires Compilable(root) && DistinctKeys(root)
    ensures I.Run(TapeOf(root, behavior), I.START, events, fuel) == SimulateFlow(root, events, fuel)
  {
    RootFirst(root);
    SameRun(root, behavior, Position(root, None, map[], 0), I.START, events, fuel);
  }
}
