/**
  `compile_flow_v4` of server/app/compiler_v4.py: the collecting walk with its growing lists, the
  emission loop, and the time limit.
*/
module FlowCompiler {
  import opened Prelude
  import opened Flow
  import opened Tape
  import opened Simulation
  import opened Lowering
  import opened SessionCost
  import opened CycleGuard
  import opened Decompile
  import A = Agreement

  datatype CompileError =
    | EmptyFlow
    | DuplicateBlock(id: Id)
    | MissingStep(id: Id)
    | NoPromptNotice(id: Id)
    | ReturnOutsideMenu(id: Id)
    | UnboundedCycle
    | TooLong

  datatype Entry = Entry(block: Block, owner: Option<Id>)

  datatype Program = Program(config: Config, maximumAutomatedSessionMs: nat)

  function Entries(nodes: seq<Node>): (r: seq<Entry>)
    ensures |r| == |nodes|
    ensures forall i :: 0 <= i < |r| ==> r[i] == Entry(nodes[i].block, nodes[i].context.owner)
  {
    seq(|nodes|, i requires 0 <= i < |nodes| => Entry(nodes[i].block, nodes[i].context.owner))
  }

  function Ids(nodes: seq<Node>): set<Id> {
    set i | 0 <= i < |nodes| :: IdOf(nodes[i].block)
  }

  ghost predicate Repeats(nodes: seq<Node>, seen: set<Id>, id: Id) {
    || (id in seen && id in Ids(nodes))
    || exists i, j :: 0 <= i < j < |nodes| && IdOf(nodes[i].block) == id == IdOf(nodes[j].block)
  }

  ghost predicate LacksStep(node: Node) {
    exists i :: 0 <= i < |Children(node.block)| && Children(node.block)[i].Empty?
  }

  /** The fault an error reports is the fault of this block. */
  ghost predicate Shows(node: Node, e: CompileError) {
    match e
    case MissingStep(id) => id == IdOf(node.block) && LacksStep(node)
    case NoPromptNotice(id) => id == IdOf(node.block) && (node.block.RecordMessage? || node.block.ExternalCall?) && !node.context.notice
    case ReturnOutsideMenu(id) => id == IdOf(node.block) && node.block.ReturnToMenu? && node.context.owner.None?
    case _ => false
  }

  /** What an error says about the part of the flow just walked is true of it. */
  ghost predicate Explains(nodes: seq<Node>, seen: set<Id>, e: CompileError) {
    if e.DuplicateBlock? then Repeats(nodes, seen, e.id) else exists k :: 0 <= k < |nodes| && Shows(nodes[k], e)
  }

  /** All checks pass on these nodes and none of their ids was seen before. */
  ghost predicate Clean(nodes: seq<Node>, seen: set<Id>) {
    AllOk(nodes) && DistinctIds(nodes) && Ids(nodes) !! seen
  }

  lemma ExplainedNotClean(nodes: seq<Node>, seen: set<Id>, e: CompileError)
    requires Explains(nodes, seen, e)
    ensures !Clean(nodes, seen)
  {
    hide Children;
    if !e.DuplicateBlock? {
      var k :| 0 <= k < |nodes| && Shows(nodes[k], e);
      assert !NodeOk(nodes[k]);
    }
  }

  lemma ExplainsWhole(part: seq<Node>, before: seq<Node>, after: seq<Node>, seen: set<Id>, e: CompileError)
    requires Explains(part, seen + Ids(before), e)
    ensures Explains(before + part + after, seen, e)
  {
    hide Shows;
    var whole := before + part + after;
    assert forall k :: 0 <= k < |part| ==> whole[|before| + k] == part[k];
    assert forall k :: 0 <= k < |before| ==> whole[k] == before[k];
    if !e.DuplicateBlock? {
      var k :| 0 <= k < |part| && Shows(part[k], e);
      assert Shows(whole[|before| + k], e);
    } else if e.id in seen + Ids(before) && e.id in Ids(part) {
      var j :| 0 <= j < |part| && IdOf(part[j].block) == e.id;
      assert IdOf(whole[|before| + j].block) == e.id;
      if e.id in Ids(before) {
        var i :| 0 <= i < |before| && IdOf(before[i].block) == e.id;
        assert IdOf(whole[i].block) == e.id;
      }
    } else {
      var i, j :| 0 <= i < j < |part| && IdOf(part[i].block) == e.id == IdOf(part[j].block);
      assert IdOf(whole[|before| + i].block) == e.id == IdOf(whole[|before| + j].block);
    }
  }

  lemma CleanJoin(a: seq<Node>, b: seq<Node>, seen: set<Id>)
    requires Clean(a, seen) && Clean(b, seen + Ids(a))
    ensures Clean(a + b, seen) && Ids(a + b) == Ids(a) + Ids(b)
  {
    hide NodeOk;
    var whole := a + b;
    IdsJoin(a, b);
    forall i, j | 0 <= i < j < |whole| ensures IdOf(whole[i].block) != IdOf(whole[j].block) {
      if i < |a| && j >= |a| {
        assert IdOf(a[i].block) in Ids(a) && IdOf(b[j - |a|].block) in Ids(b);
      }
    }
  }

  lemma IdsJoin(a: seq<Node>, b: seq<Node>)
    ensures Ids(a + b) == Ids(a) + Ids(b)
  {
    forall id | id in Ids(b) ensures id in Ids(a + b) {
      var i :| 0 <= i < |b| && IdOf(b[i].block) == id;
      assert (a + b)[|a| + i] == b[i];
    }
    forall id | id in Ids(a) ensures id in Ids(a + b) {
      var i :| 0 <= i < |a| && IdOf(a[i].block) == id;
      assert (a + b)[i] == a[i];
    }
  }

  /** What a walk that started with these lists has made of them. */
  ghost predicate Collected(nodes: seq<Node>, wasEntries: seq<Entry>, wasSeen: set<Id>, entries: seq<Entry>, seen: set<Id>) {
    && entries == wasEntries + Entries(nodes)
    && seen == wasSeen + Ids(nodes)
    && Clean(nodes, wasSeen)
  }

  lemma CollectedNext(a: seq<Node>, b: seq<Node>, e0: seq<Entry>, s0: set<Id>, e1: seq<Entry>, s1: set<Id>, e2: seq<Entry>, s2: set<Id>)
    requires Collected(a, e0, s0, e1, s1) && Collected(b, e1, s1, e2, s2)
    ensures Collected(a + b, e0, s0, e2, s2)
  {
    CleanJoin(a, b, s0);
    assert Entries(a + b) == Entries(a) + Entries(b);
  }

  lemma CollectedSelf(node: Node, e0: seq<Entry>, s0: set<Id>)
    requires NodeOk(node) && !node.block.Empty? && node.block.id !in s0
    ensures Collected([node], e0, s0, e0 + [Entry(node.block, node.context.owner)], s0 + {node.block.id})
  {
    hide NodeOk, Children;
    assert Entries([node]) == [Entry(node.block, node.context.owner)];
    assert IdOf([node][0].block) in Ids([node]);
    assert Ids([node]) == {node.block.id};
  }

  /** A fault of a block itself is a fault of its subtree. */
  lemma OwnFault(b: Block, c: Context, seen: set<Id>, e: CompileError)
    requires !b.Empty?
    requires if e.DuplicateBlock? then e.id == b.id && b.id in seen else Shows(Node(b, c), e)
    ensures Explains(Flatten(b, c), seen, e)
  {
    hide Children, Shows;
    assert Flatten(b, c)[0] == Node(b, c);
    assert IdOf(Flatten(b, c)[0].block) in Ids(Flatten(b, c));
  }

  lemma FlattenUnfolds(b: Block, c: Context)
    requires !b.Empty?
    ensures Flatten(b, c) == [Node(b, c)] + FlattenFrom(b, c, 0)
  {
    hide Children;
  }

  class Collector {
    var entries: seq<Entry>
    var seen: set<Id>

    constructor ()
      ensures entries == [] && seen == {}
    {
      entries, seen := [], {};
    }

    /** `collect`: appends a subtree in pre-order, or names a fault that is really there. */
    method Collect(block: Block, owner: Option<Id>, promptAvailable: bool, ghost c: Context) returns (r: Option<CompileError>)
      requires !block.Empty? && c.owner == owner && c.notice == promptAvailable
      modifies this
      ensures r.None? ==> Collected(Flatten(block, c), old(entries), old(seen), entries, seen)
      ensures r.Some? ==> Explains(Flatten(block, c), old(seen), r.value)
      decreases block, |Children(block)| + 1
    {
      hide Children, Flatten, Explains, Collected, LacksStep;
      if block.id in seen {
        OwnFault(block, c, seen, DuplicateBlock(block.id));
        return Some(DuplicateBlock(block.id));
      }
      if (block.RecordMessage? || block.ExternalCall?) && !promptAvailable {
        OwnFault(block, c, seen, NoPromptNotice(block.id));
        return Some(NoPromptNotice(block.id));
      }
      if block.ReturnToMenu? && owner.None? {
        OwnFault(block, c, seen, ReturnOutsideMenu(block.id));
        return Some(ReturnOutsideMenu(block.id));
      }
      seen, entries := seen + {block.id}, entries + [Entry(block, owner)];
      r := CollectChildren(block, owner, promptAvailable, c, old(entries), old(seen));
    }

    /** The loop of `collect` over the slots of a block. */
    method CollectChildren(block: Block, owner: Option<Id>, promptAvailable: bool, ghost c: Context, ghost e0: seq<Entry>, ghost s0: set<Id>)
      returns (r: Option<CompileError>)
      requires !block.Empty? && c.owner == owner && c.notice == promptAvailable && block.id !in s0
      requires block.RecordMessage? || block.ExternalCall? ==> promptAvailable
      requires block.ReturnToMenu? ==> owner.Some?
      requires entries == e0 + [Entry(block, owner)] && seen == s0 + {block.id}
      modifies this
      ensures r.None? ==> Collected(Flatten(block, c), e0, s0, entries, seen)
      ensures r.Some? ==> Explains(Flatten(block, c), s0, r.value)
      decreases block, |Children(block)|
    {
      hide Children, Flatten, Explains, Collected;
      var children := Children(block);
      var i := 0;
      while i < |children|
        invariant 0 <= i <= |children|
        invariant forall j :: 0 <= j < i ==> !children[j].Empty?
      {
        if children[i] == Empty {
          assert LacksStep(Node(block, c));
          OwnFault(block, c, s0, MissingStep(block.id));
          return Some(MissingStep(block.id));
        }
        i := i + 1;
      }
      CollectedSelf(Node(block, c), e0, s0);
      FlattenUnfolds(block, c);
      i := 0;
      ghost var done := [Node(block, c)];
      while i < |children|
        invariant 0 <= i <= |children|
        invariant Collected(done, e0, s0, entries, seen)
        invariant Flatten(block, c) == done + FlattenFrom(block, c, i)
      {
        ghost var context := ChildContext(block, c, i);
        ghost var part := Flatten(children[i], context);
        ghost var e1, s1 := entries, seen;
        assert Flatten(block, c) == done + (part + FlattenFrom(block, c, i + 1)) == done + part + FlattenFrom(block, c, i + 1);
        var childOwner := if block.CollectDigit? then Some(block.id) else owner;
        var childPrompt := promptAvailable || ((block.PlayPrompt? || block.CollectDigit?) && block.promptId != "");
        r := Collect(children[i], childOwner, childPrompt, context);
        if r.Some? {
          SeenSoFar(done, e0, s0, e1, s1);
          ExplainsWhole(part, done, FlattenFrom(block, c, i + 1), s0, r.value);
          return r;
        }
        CollectedNext(done, part, e0, s0, e1, s1, entries, seen);
        done := done + part;
        i := i + 1;
      }
      assert done + [] == done;
      return None;
    }
  }

  lemma SeenSoFar(done: seq<Node>, e0: seq<Entry>, s0: set<Id>, e1: seq<Entry>, s1: set<Id>)
    requires Collected(done, e0, s0, e1, s1)
    ensures s1 == s0 + Ids(done)
  {
  }

  /** `program_counter`: the dictionary from block ids to positions, later positions last. */
  method NumberBlocks(entries: seq<Entry>, ghost nodes: seq<Node>) returns (counter: map<Id, nat>)
    requires entries == Entries(nodes)
    ensures forall id :: id in counter ==> counter[id] == PcOf(nodes, id) && counter[id] < |nodes|
    ensures forall id :: id !in counter ==> PcOf(nodes, id) == |nodes|
  {
    counter := map[];
    var i := 0;
    while i < |entries|
      invariant 0 <= i <= |entries|
      invariant forall id :: id in counter ==> counter[id] == PcBefore(nodes, i, id) && counter[id] < i
      invariant forall id :: id !in counter ==> PcBefore(nodes, i, id) == |nodes|
    {
      hide PcBefore;
      forall id ensures PcBefore(nodes, i + 1, id) == if IdOf(entries[i].block) == id then i else PcBefore(nodes, i, id) {
        PcBeforeNext(nodes, i, id);
      }
      counter := counter[IdOf(entries[i].block) := i];
      i := i + 1;
    }
  }

  lemma PcBeforeNext(nodes: seq<Node>, n: nat, id: Id)
    requires n < |nodes|
    ensures PcBefore(nodes, n + 1, id) == if IdOf(nodes[n].block) == id then n else PcBefore(nodes, n, id)
  {
  }

  /** The emission loop: one instruction for each entry, its slots looked up in the dictionary. */
  method EmitLoop(entries: seq<Entry>, counter: map<Id, nat>, behavior: RecordingBehavior, ghost nodes: seq<Node>)
    returns (instructions: seq<Instruction>)
    requires entries == Entries(nodes)
    requires forall id :: id in counter ==> counter[id] == PcOf(nodes, id) && counter[id] < |nodes|
    requires forall id :: id !in counter ==> PcOf(nodes, id) == |nodes|
    ensures instructions == EmitAll(nodes, behavior)
  {
    instructions := [];
    var i := 0;
    while i < |entries|
      invariant 0 <= i <= |entries| && |instructions| == i
      invariant forall k :: 0 <= k < i ==> instructions[k] == Emit(nodes, k, behavior)
    {
      var ins := EmitOne(entries, i, counter, behavior, nodes);
      instructions := instructions + [ins];
      i := i + 1;
    }
  }

  method EmitOne(entries: seq<Entry>, i: nat, counter: map<Id, nat>, behavior: RecordingBehavior, ghost nodes: seq<Node>)
    returns (ins: Instruction)
    requires entries == Entries(nodes) && i < |entries|
    requires forall id :: id in counter ==> counter[id] == PcOf(nodes, id) && counter[id] < |nodes|
    requires forall id :: id !in counter ==> PcOf(nodes, id) == |nodes|
    ensures ins == Emit(nodes, i, behavior)
  {
    hide PcOf, SortBranches;
    var pc := (id: Id) => if id in counter then counter[id] else |entries|;
    assert forall id :: pc(id) == PcOf(nodes, id);
    match entries[i].block {
      case Empty => ins := End(i, "");
      case PlayPrompt(id, promptId, next) => ins := Play(i, id, promptId, pc(IdOf(next)));
      case CollectDigit(id, promptId, bargeIn, timeoutMs, attempts, limit, branches, onTimeout, onInvalid, onReturnLimit) =>
        var sorted := SortBranches(branches);
        var targets := seq(|sorted|, j requires 0 <= j < |sorted| => (sorted[j].digit, pc(IdOf(sorted[j].root))));
        assert targets == BranchPcs(nodes, sorted);
        ins := Collect(i, id, promptId, bargeIn, timeoutMs, attempts, limit, targets,
          pc(IdOf(onTimeout)), pc(IdOf(onInvalid)), pc(IdOf(onReturnLimit)));
      case ScheduleBranch(id, scheduleId, onOpen, onClosed, onHoliday) =>
        ins := Schedule(i, id, scheduleId, pc(IdOf(onOpen)), pc(IdOf(onClosed)), pc(IdOf(onHoliday)));
      case RecordMessage(id, next, onUnavailable) =>
        ins := Record(i, id, behavior.maximumDurationSeconds * 1000, behavior.finishKey, pc(IdOf(next)), pc(IdOf(onUnavailable)));
      case ExternalCall(id, phoneNumber, answerSeconds, next, onNotConnected, onSystemFailure) =>
        ins := External(i, id, phoneNumber, answerSeconds * 1000, pc(IdOf(next)), pc(IdOf(onNotConnected)), pc(IdOf(onSystemFailure)));
      case ReturnToMenu(id) =>
        ins := Return(i, id, if entries[i].owner.Some? then pc(entries[i].owner.value) else |entries|);
      case EndCall(id) => ins := End(i, id);
    }
  }

  /** Its worst case is v. */
  ghost predicate WorstCase(c: Config, d: Durations, v: nat) {
    exists k: nat :: Halts(c, d, Spot(0, map[]), k) && v == Best(c, d, Spot(0, map[]), k)
  }

  /** `maximum_cost(0, zeros)`. */
  method SearchCost(config: Config, durations: Durations) returns (r: Option<nat>)
    requires InRange(config) && 0 < |config.instructions|
    ensures r.Some? ==> WorstCase(config, durations, r.value) && !Unbounded(config, durations)
    ensures r.None? ==> Unbounded(config, durations)
  {
    hide Halts, Best, Moves;
    var search := new CostSearch(config, durations);
    r := search.MaximumCost(Spot(0, map[]));
  }

  /**
    `compile_flow_v4`: a program is returned exactly for a compilable flow whose worst case exists
    and fits ten minutes; the whole flow can be read back from its tape, which records as configured
    and has that worst case.  Errors are true, and the cycle error is raised exactly for a flow with
    a trapped return.
  */
  method CompileFlowV4(root: Block, behavior: RecordingBehavior, durations: Durations) returns (r: Result<Program, CompileError>)
    ensures r.Ok? ==>
      && Compilable(root) && !Trapped(root)
      && r.value.config == TapeOf(root, behavior)
      && Rebuild(r.value.config, 0) == Ordered(root) && RecordsAs(r.value.config, behavior)
      && WorstCase(TapeOf(root, behavior), durations, r.value.maximumAutomatedSessionMs)
      && r.value.maximumAutomatedSessionMs <= MAXIMUM_SESSION_MS
    ensures r.Err? ==>
      match r.error
      case EmptyFlow => root.Empty?
      case UnboundedCycle => Compilable(root) && Trapped(root)
      case TooLong => Compilable(root) && exists v :: v > MAXIMUM_SESSION_MS && WorstCase(TapeOf(root, behavior), durations, v)
      case e => !Compilable(root) && Explains(Nodes(root), {}, e)
  {
    hide Children, Flatten, Explains, Emit, PcOf, Unbounded, WorstCase, Trapped, AllOk, DistinctIds, Rebuild, Ordered, RecordsAs;
    if root == Empty { return Err(EmptyFlow); }
    var collector := new Collector();
    var fault := collector.Collect(root, None, false, TOP);
    if fault.Some? {
      ExplainedNotClean(Nodes(root), {}, fault.value);
      OnlyWalkFaults(Nodes(root), {}, fault.value);
      return Err(fault.value);
    }
    assert collector.entries == Entries(Nodes(root));
    var counter := NumberBlocks(collector.entries, Nodes(root));
    var instructions := EmitLoop(collector.entries, counter, behavior, Nodes(root));
    var config := Config(4, 0, instructions);
    assert config == TapeOf(root, behavior);
    TapeHoldsFlow(root, behavior);
    TapeRecordsAs(root, behavior);
    A.CompiledInRange(root, behavior);
    RootFirst(root);
    GuardExact(root, behavior, durations);
    var cost := SearchCost(config, durations);
    if cost.None? { return Err(UnboundedCycle); }
    if cost.value > MAXIMUM_SESSION_MS { return Err(TooLong); }
    return Ok(Program(config, cost.value));
  }

  lemma OnlyWalkFaults(nodes: seq<Node>, seen: set<Id>, e: CompileError)
    requires Explains(nodes, seen, e)
    ensures !e.EmptyFlow? && !e.UnboundedCycle? && !e.TooLong?
  {
    hide LacksStep;
  }
}
