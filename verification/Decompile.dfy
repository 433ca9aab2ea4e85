/**
  The flow read back from its tape.  `Rebuild` looks at nothing but a tape, so whatever it recovers
  the tape must carry: numbers to dial, prompts, schedules, times, keys and every slot.
*/
module Decompile {
  import opened Prelude
  import opened Flow
  import opened Tape
  import opened Simulation
  import opened Lowering

  /** The block whose instruction is at pc; a slot that does not lead ahead is taken for empty. */
  function Rebuild(c: Config, pc: nat): Block
    decreases |c.instructions| - pc, 0
  {
    if pc >= |c.instructions| then Empty else
    match c.instructions[pc]
    case Play(_, id, promptId, nextPc) => PlayPrompt(id, promptId, Below(c, pc, nextPc))
    case Collect(_, id, promptId, bargeIn, timeoutMs, attempts, limit, branches, onTimeoutPc, onInvalidPc, onReturnLimitPc) =>
      CollectDigit(id, promptId, bargeIn, timeoutMs, attempts, limit, RebuildBranches(c, pc, branches),
        Below(c, pc, onTimeoutPc), Below(c, pc, onInvalidPc), Below(c, pc, onReturnLimitPc))
    case Schedule(_, id, scheduleId, onOpenPc, onClosedPc, onHolidayPc) =>
      ScheduleBranch(id, scheduleId, Below(c, pc, onOpenPc), Below(c, pc, onClosedPc), Below(c, pc, onHolidayPc))
    case Record(_, id, _, _, nextPc, onUnavailablePc) => RecordMessage(id, Below(c, pc, nextPc), Below(c, pc, onUnavailablePc))
    case External(_, id, phoneNumber, answerTimeoutMs, onCompletedPc, onNotConnectedPc, onSystemFailurePc) =>
      ExternalCall(id, phoneNumber, answerTimeoutMs / 1000,
        Below(c, pc, onCompletedPc), Below(c, pc, onNotConnectedPc), Below(c, pc, onSystemFailurePc))
    case Return(_, id, _) => ReturnToMenu(id)
    case End(_, id) => EndCall(id)
  }

  function Below(c: Config, pc: nat, target: nat): Block
    requires pc < |c.instructions|
    decreases |c.instructions| - pc - 1, 2
  {
    if pc < target then Rebuild(c, target) else Empty
  }

  function RebuildBranches(c: Config, pc: nat, branches: seq<(Key, nat)>): (r: seq<Branch>)
    requires pc < |c.instructions|
    ensures |r| == |branches|
    ensures forall i :: 0 <= i < |r| ==> r[i] == Branch(branches[i].0, Below(c, pc, branches[i].1))
    decreases |c.instructions| - pc - 1, 3
  {
    seq(|branches|, i requires 0 <= i < |branches| => Branch(branches[i].0, Below(c, pc, branches[i].1)))
  }

  // ---------------------------------------------------------------- the flow with its branches in key order

  function Ordered(b: Block): Block {
    match b
    case Empty => Empty
    case PlayPrompt(id, promptId, next) => PlayPrompt(id, promptId, Ordered(next))
    case CollectDigit(id, promptId, bargeIn, timeoutMs, attempts, limit, branches, onTimeout, onInvalid, onReturnLimit) =>
      SortedRootsSmaller(b);
      CollectDigit(id, promptId, bargeIn, timeoutMs, attempts, limit, OrderedBranches(b, SortBranches(branches)),
        Ordered(onTimeout), Ordered(onInvalid), Ordered(onReturnLimit))
    case ScheduleBranch(id, scheduleId, onOpen, onClosed, onHoliday) =>
      ScheduleBranch(id, scheduleId, Ordered(onOpen), Ordered(onClosed), Ordered(onHoliday))
    case RecordMessage(id, next, onUnavailable) => RecordMessage(id, Ordered(next), Ordered(onUnavailable))
    case ExternalCall(id, phoneNumber, answerSeconds, next, onNotConnected, onSystemFailure) =>
      ExternalCall(id, phoneNumber, answerSeconds, Ordered(next), Ordered(onNotConnected), Ordered(onSystemFailure))
    case ReturnToMenu(id) => ReturnToMenu(id)
    case EndCall(id) => EndCall(id)
  }

  function OrderedBranches(b: Block, bs: seq<Branch>): (r: seq<Branch>)
    requires forall i :: 0 <= i < |bs| ==> bs[i].root < b
    ensures |r| == |bs|
    ensures forall i :: 0 <= i < |bs| ==> r[i] == Branch(bs[i].digit, Ordered(bs[i].root))
    decreases b, 0
  {
    seq(|bs|, i requires 0 <= i < |bs| => Branch(bs[i].digit, Ordered(bs[i].root)))
  }

  /** Everywhere in the flow the editor saved the branches of a menu in key order. */
  ghost predicate InKeyOrder(b: Block) {
    && (b.CollectDigit? ==> RanksSorted(b.branches))
    && forall i :: 0 <= i < |Children(b)| ==> InKeyOrder(Children(b)[i])
  }

  lemma {:induction false} SortSorted(bs: seq<Branch>)
    requires RanksSorted(bs)
    ensures SortBranches(bs) == bs
  {
    if bs != [] {
      SortSorted(bs[1..]);
      assert bs == [bs[0]] + bs[1..];
    }
  }

  lemma MenuIsSelf(b: Block)
    requires b.CollectDigit? && RanksSorted(b.branches)
    requires forall i :: 0 <= i < |Children(b)| ==> Ordered(Children(b)[i]) == Children(b)[i]
    ensures Ordered(b) == b
  {
    var cs, branches, n := Children(b), b.branches, |b.branches|;
    SortSorted(branches);
    SortedRootsSmaller(b);
    assert cs == Roots(branches) + [b.onTimeout, b.onInvalid, b.onReturnLimit];
    assert cs[n] == b.onTimeout && cs[n + 1] == b.onInvalid && cs[n + 2] == b.onReturnLimit;
    hide RanksSorted, SortBranches;
    forall i | 0 <= i < n ensures OrderedBranches(b, branches)[i] == branches[i] { assert cs[i] == branches[i].root; }
    assert OrderedBranches(b, branches) == branches;
  }

  lemma OtherIsSelf(b: Block)
    requires !b.CollectDigit?
    requires forall i :: 0 <= i < |Children(b)| ==> Ordered(Children(b)[i]) == Children(b)[i]
    ensures Ordered(b) == b
  {
    var cs := Children(b);
    match b
    case PlayPrompt(_, _, next) => assert cs[0] == next;
    case ScheduleBranch(_, _, onOpen, onClosed, onHoliday) => assert cs[0] == onOpen && cs[1] == onClosed && cs[2] == onHoliday;
    case RecordMessage(_, next, onUnavailable) => assert cs[0] == next && cs[1] == onUnavailable;
    case ExternalCall(_, _, _, next, onNotConnected, onSystemFailure) =>
      assert cs[0] == next && cs[1] == onNotConnected && cs[2] == onSystemFailure;
    case _ =>
  }

  /** Putting in order changes nothing where there is nothing to put in order. */
  lemma {:induction false} OrderedIsSelf(b: Block)
    requires InKeyOrder(b)
    ensures Ordered(b) == b
  {
    hide Ordered, Children;
    forall i | 0 <= i < |Children(b)| ensures Ordered(Children(b)[i]) == Children(b)[i] { OrderedIsSelf(Children(b)[i]); }
    if b.CollectDigit? { MenuIsSelf(b); } else { OtherIsSelf(b); }
  }

  // ---------------------------------------------------------------- nothing is lost

  /** Behind every slot of an instruction the block of that slot is read back, if it is further on. */
  lemma SlotRebuilt(root: Block, behavior: RecordingBehavior, k: nat, i: nat)
    requires Compilable(root) && k < |Nodes(root)| && i < |Children(Nodes(root)[k].block)|
    requires forall j :: k < j < |Nodes(root)| ==> Rebuild(TapeOf(root, behavior), j) == Ordered(Nodes(root)[j].block)
    ensures var nodes := Nodes(root);
            var targets := Targets(Emit(nodes, k, behavior));
            && |targets| == |Children(nodes[k].block)|
            && Below(TapeOf(root, behavior), k, targets[i]) == Ordered(Children(nodes[k].block)[i])
  {
    hide Children, Flatten, Emit, Targets, Ordered, Rebuild, Offset;
    SlotAt(root, behavior, k, i);
  }

  lemma {:induction false} RebuiltAt(root: Block, behavior: RecordingBehavior, k: nat)
    requires Compilable(root) && k < |Nodes(root)|
    ensures Rebuild(TapeOf(root, behavior), k) == Ordered(Nodes(root)[k].block)
    decreases |Nodes(root)| - k
  {
    var nodes, c := Nodes(root), TapeOf(root, behavior);
    var b, ins := nodes[k].block, c.instructions[k];
    forall j | k < j < |nodes| ensures Rebuild(c, j) == Ordered(nodes[j].block) { RebuiltAt(root, behavior, j); }
    var targets, children := Targets(ins), Children(b);
    SlotsMatch(nodes, k, behavior);
    forall i | 0 <= i < |children| ensures Below(c, k, targets[i]) == Ordered(children[i]) { SlotRebuilt(root, behavior, k, i); }
    NodesNonEmpty(root, k);
    RebuiltOne(nodes, behavior, c, k);
  }

  lemma RebuiltOne(nodes: seq<Node>, behavior: RecordingBehavior, c: Config, k: nat)
    requires k < |nodes| && c.instructions == EmitAll(nodes, behavior) && !nodes[k].block.Empty?
    requires |Targets(c.instructions[k])| == |Children(nodes[k].block)|
    requires forall i :: 0 <= i < |Children(nodes[k].block)| ==> Below(c, k, Targets(c.instructions[k])[i]) == Ordered(Children(nodes[k].block)[i])
    ensures Rebuild(c, k) == Ordered(nodes[k].block)
  {
    hide PcOf, Below, SortBranches;
    var b, ins := nodes[k].block, c.instructions[k];
    var targets, children := Targets(ins), Children(b);
    match b
    case CollectDigit(_, _, _, _, _, _, branches, onTimeout, onInvalid, onReturnLimit) =>
      var sorted, n := SortBranches(branches), |branches|;
      assert children == Roots(sorted) + [onTimeout, onInvalid, onReturnLimit];
      assert children[n] == onTimeout && children[n + 1] == onInvalid && children[n + 2] == onReturnLimit;
      assert targets[n] == ins.onTimeoutPc && targets[n + 1] == ins.onInvalidPc && targets[n + 2] == ins.onReturnLimitPc;
      SortedRootsSmaller(b);
      forall i | 0 <= i < n ensures RebuildBranches(c, k, ins.branches)[i] == OrderedBranches(b, sorted)[i] {
        assert targets[i] == ins.branches[i].1 && children[i] == sorted[i].root;
      }
      assert RebuildBranches(c, k, ins.branches) == OrderedBranches(b, sorted);
    case PlayPrompt(_, _, next) => assert children[0] == next && targets[0] == ins.nextPc;
    case ScheduleBranch(_, _, onOpen, onClosed, onHoliday) =>
      assert children[0] == onOpen && children[1] == onClosed && children[2] == onHoliday;
    case RecordMessage(_, next, onUnavailable) => assert children[0] == next && children[1] == onUnavailable;
    case ExternalCall(_, _, _, next, onNotConnected, onSystemFailure) =>
      assert children[0] == next && children[1] == onNotConnected && children[2] == onSystemFailure;
    case _ =>
  }

  /** The whole flow can be read back from its tape, with its branches in key order; so a flow saved in
      key order is read back as it is. */
  lemma TapeHoldsFlow(root: Block, behavior: RecordingBehavior)
    requires Compilable(root)
    ensures Rebuild(TapeOf(root, behavior), 0) == Ordered(root)
    ensures InKeyOrder(root) ==> Rebuild(TapeOf(root, behavior), 0) == root
  {
    hide Flatten, Children, Rebuild, Ordered, Emit, InKeyOrder;
    RootFirst(root);
    RebuiltAt(root, behavior, 0);
    if InKeyOrder(root) { OrderedIsSelf(root); }
  }

  /** Every recording on a tape is as long, and ends with the key, that the configuration says. */
  ghost predicate RecordsAs(c: Config, behavior: RecordingBehavior) {
    forall k :: 0 <= k < |c.instructions| && c.instructions[k].Record? ==>
      c.instructions[k].maximumDurationMs == 1000 * behavior.maximumDurationSeconds && c.instructions[k].finishKey == behavior.finishKey
  }

  lemma TapeRecordsAs(root: Block, behavior: RecordingBehavior)
    ensures RecordsAs(TapeOf(root, behavior), behavior)
  {
    hide Flatten, PcOf;
  }

  /** Two flows saved in key order with one tape are one flow. */
  lemma TapeDeterminesFlow(a: Block, b: Block, x: RecordingBehavior, y: RecordingBehavior)
    requires Compilable(a) && Compilable(b) && InKeyOrder(a) && InKeyOrder(b)
    requires TapeOf(a, x) == TapeOf(b, y)
    ensures a == b
    ensures (exists k :: 0 <= k < |Nodes(a)| && Nodes(a)[k].block.RecordMessage?) ==> x == y
  {
    hide Flatten, Children, Rebuild, Ordered, InKeyOrder, PcOf;
    TapeHoldsFlow(a, x);
    TapeHoldsFlow(b, y);
    if k :| 0 <= k < |Nodes(a)| && Nodes(a)[k].block.RecordMessage? {
      assert TapeOf(a, x).instructions[k] == Emit(Nodes(a), k, x);
      assert TapeOf(b, y).instructions[k] == Emit(Nodes(b), k, y);
    }
  }
}
