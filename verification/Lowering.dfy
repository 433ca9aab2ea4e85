/**
  The tape of a flow: the instruction emission of server/app/compiler_v4.py as a function of
  the pre-order list of blocks, and the shape every compiled tape has.
*/
module Lowering {
  import opened Prelude
  import opened Flow
  import opened Tape
  import opened Simulation

  datatype RecordingBehavior = RecordingBehavior(maximumDurationSeconds: RecordingSeconds, finishKey: Option<Key>)

  /** `program_counter`: the number of the last listed block with an id, or the list's length. */
  function PcOf(nodes: seq<Node>, id: Id): (r: nat)
    ensures r <= |nodes|
    ensures r < |nodes| ==> IdOf(nodes[r].block) == id
  {
    PcBefore(nodes, |nodes|, id)
  }

  function PcBefore(nodes: seq<Node>, n: nat, id: Id): (r: nat)
    requires n <= |nodes|
    ensures r < n || r == |nodes|
    ensures r < n ==> IdOf(nodes[r].block) == id
    ensures forall k :: r < k < n ==> IdOf(nodes[k].block) != id
    ensures r == |nodes| ==> forall k :: 0 <= k < n ==> IdOf(nodes[k].block) != id
  {
    if n == 0 then |nodes|
    else if IdOf(nodes[n - 1].block) == id then n - 1
    else PcBefore(nodes, n - 1, id)
  }

  /** `pc(block)`. */
  function Pc(nodes: seq<Node>, b: Block): nat {
    PcOf(nodes, IdOf(b))
  }

  function BranchPcs(nodes: seq<Node>, bs: seq<Branch>): (r: seq<(Key, nat)>)
    ensures |r| == |bs|
    ensures forall i :: 0 <= i < |bs| ==> r[i] == (bs[i].digit, Pc(nodes, bs[i].root))
  {
    seq(|bs|, i requires 0 <= i < |bs| => (bs[i].digit, Pc(nodes, bs[i].root)))
  }

  /** The instruction of one listed block. */
  function Emit(nodes: seq<Node>, k: nat, behavior: RecordingBehavior): Instruction
    requires k < |nodes|
  {
    match nodes[k].block
    case Empty => End(k, "")
    case PlayPrompt(id, promptId, next) => Play(k, id, promptId, Pc(nodes, next))
    case CollectDigit(id, promptId, bargeIn, timeoutMs, attempts, limit, branches, onTimeout, onInvalid, onReturnLimit) =>
      Collect(k, id, promptId, bargeIn, timeoutMs, attempts, limit, BranchPcs(nodes, SortBranches(branches)),
              Pc(nodes, onTimeout), Pc(nodes, onInvalid), Pc(nodes, onReturnLimit))
    case ScheduleBranch(id, scheduleId, onOpen, onClosed, onHoliday) =>
      Schedule(k, id, scheduleId, Pc(nodes, onOpen), Pc(nodes, onClosed), Pc(nodes, onHoliday))
    case RecordMessage(id, next, onUnavailable) =>
      Record(k, id, behavior.maximumDurationSeconds * 1000, behavior.finishKey, Pc(nodes, next), Pc(nodes, onUnavailable))
    case ExternalCall(id, phoneNumber, answerSeconds, next, onNotConnected, onSystemFailure) =>
      External(k, id, phoneNumber, answerSeconds * 1000, Pc(nodes, next), Pc(nodes, onNotConnected), Pc(nodes, onSystemFailure))
    case ReturnToMenu(id) =>
      Return(k, id, if nodes[k].context.owner.Some? then PcOf(nodes, nodes[k].context.owner.value) else |nodes|)
    case EndCall(id) => End(k, id)
  }

  function Nodes(root: Block): seq<Node> {
    Flatten(root, TOP)
  }

  function EmitAll(nodes: seq<Node>, behavior: RecordingBehavior): (r: seq<Instruction>)
    ensures |r| == |nodes|
    ensures forall k :: 0 <= k < |nodes| ==> r[k] == Emit(nodes, k, behavior)
  {
    seq(|nodes|, k requires 0 <= k < |nodes| => Emit(nodes, k, behavior))
  }

  function TapeOf(root: Block, behavior: RecordingBehavior): Config {
    Config(4, 0, EmitAll(Nodes(root), behavior))
  }

  // ---------------------------------------------------------------- what `collect` demands

  /** The demands `collect` makes of one block, given what it carries to it. */
  ghost predicate NodeOk(node: Node) {
    && (forall i :: 0 <= i < |Children(node.block)| ==> !Children(node.block)[i].Empty?)
    && (node.block.RecordMessage? || node.block.ExternalCall? ==> node.context.notice)
    && (node.block.ReturnToMenu? ==> node.context.owner.Some?)
  }

  ghost predicate DistinctIds(nodes: seq<Node>) {
    forall i, j :: 0 <= i < j < |nodes| ==> IdOf(nodes[i].block) != IdOf(nodes[j].block)
  }

  ghost predicate AllOk(nodes: seq<Node>) {
    forall k :: 0 <= k < |nodes| ==> NodeOk(nodes[k])
  }

  /** Every check of `collect` passes from the root down. */
  ghost predicate Compilable(root: Block) {
    && !root.Empty?
    && AllOk(Nodes(root))
    && DistinctIds(Nodes(root))
  }

  // ---------------------------------------------------------------- shape of compiled tapes

  lemma PcOfNode(nodes: seq<Node>, k: nat)
    requires DistinctIds(nodes) && k < |nodes|
    ensures PcOf(nodes, IdOf(nodes[k].block)) == k
  {
    var r := PcOf(nodes, IdOf(nodes[k].block));
    assert r >= k;
  }

  lemma CollectSlots(nodes: seq<Node>, k: nat, behavior: RecordingBehavior)
    requires k < |nodes| && nodes[k].block.CollectDigit?
    ensures var targets, children := Targets(Emit(nodes, k, behavior)), Children(nodes[k].block);
            |targets| == |children| && forall i :: 0 <= i < |children| ==> targets[i] == Pc(nodes, children[i])
  {
    hide PcOf, SortBranches;
    var b := nodes[k].block;
    var sorted := SortBranches(b.branches);
    var targets, children := Targets(Emit(nodes, k, behavior)), Children(b);
    assert targets == BranchTargets(BranchPcs(nodes, sorted)) + [Pc(nodes, b.onTimeout), Pc(nodes, b.onInvalid), Pc(nodes, b.onReturnLimit)];
    assert children == Roots(sorted) + [b.onTimeout, b.onInvalid, b.onReturnLimit];
    forall i | 0 <= i < |children| ensures targets[i] == Pc(nodes, children[i]) {
      if i < |sorted| {
        assert children[i] == Roots(sorted)[i] && targets[i] == BranchTargets(BranchPcs(nodes, sorted))[i];
      }
    }
  }

  lemma SlotsMatch(nodes: seq<Node>, k: nat, behavior: RecordingBehavior)
    requires k < |nodes|
    ensures var targets, children := Targets(Emit(nodes, k, behavior)), Children(nodes[k].block);
            |targets| == |children| && forall i :: 0 <= i < |children| ==> targets[i] == Pc(nodes, children[i])
  {
    hide PcOf, SortBranches;
    if nodes[k].block.CollectDigit? { CollectSlots(nodes, k, behavior); }
  }

  lemma EmitHeader(nodes: seq<Node>, k: nat, behavior: RecordingBehavior)
    requires k < |nodes|
    ensures Emit(nodes, k, behavior).pc == k
    ensures Emit(nodes, k, behavior).blockId == IdOf(nodes[k].block)
  {
    hide PcOf;
  }

  /** Slot i of instruction k is the counter of the i-th child, which lies ahead of k. */
  lemma SlotAt(root: Block, behavior: RecordingBehavior, k: nat, i: nat)
    requires Compilable(root) && k < |Nodes(root)|
    requires i < |Children(Nodes(root)[k].block)|
    ensures |Targets(Emit(Nodes(root), k, behavior))| == |Children(Nodes(root)[k].block)|
    ensures var nodes := Nodes(root);
            var at, node := Targets(Emit(nodes, k, behavior))[i], nodes[k];
            && at == k + Offset(node.block, i)
            && k < at < |nodes|
            && nodes[at] == Node(Children(node.block)[i], ChildContext(node.block, node.context, i))
  {
    var nodes := Nodes(root);
    SlotsMatch(nodes, k, behavior);
    ChildAt(root, k, i);
  }

  lemma ChildAt(root: Block, k: nat, i: nat)
    requires Compilable(root) && k < |Nodes(root)|
    requires i < |Children(Nodes(root)[k].block)|
    ensures var nodes := Nodes(root);
            var node := nodes[k];
            var at := k + Offset(node.block, i);
            && Pc(nodes, Children(node.block)[i]) == at
            && k < at < |nodes|
            && nodes[at] == Node(Children(node.block)[i], ChildContext(node.block, node.context, i))
  {
    hide Children, Flatten, PcOf, ChildContext, Offset;
    var nodes := Nodes(root);
    assert NodeOk(nodes[k]);
    Down(root, TOP, k, i);
    PcOfNode(nodes, k + Offset(nodes[k].block, i));
  }

  /** The menu a block belongs to is listed before it and spans it. */
  lemma {:induction false} OwnerAt(root: Block, k: nat)
    requires Compilable(root) && k < |Nodes(root)| && Nodes(root)[k].context.owner.Some?
    ensures var nodes := Nodes(root);
            var m := PcOf(nodes, nodes[k].context.owner.value);
            && m < k < m + Size(nodes[m].block) <= |nodes|
            && nodes[m].block.CollectDigit?
            && nodes[m].block.id == nodes[k].context.owner.value
    decreases k
  {
    hide Children, Flatten;
    var nodes := Nodes(root);
    if k > 0 {
      var p, i := Up(root, TOP, k);
      Subtree(root, TOP, p);
      Down(root, TOP, p, i);
      Subtree(root, TOP, k);
      if nodes[p].block.CollectDigit? {
        PcOfNode(nodes, p);
      } else {
        OwnerAt(root, p);
        var m := PcOf(nodes, nodes[p].context.owner.value);
        SpanNests(root, m, p);
      }
    }
  }

  /** Spans of listed blocks nest. */
  lemma {:induction false} SpanNests(root: Block, m: nat, p: nat)
    requires m < p < |Nodes(root)|
    requires p < m + Size(Nodes(root)[m].block)
    ensures p + Size(Nodes(root)[p].block) <= m + Size(Nodes(root)[m].block) <= |Nodes(root)|
  {
    hide Children, Flatten;
    var nodes := Nodes(root);
    Subtree(root, TOP, m);
    var menu := nodes[m];
    FlattenLength(menu.block, menu.context);
    assert nodes[m..m + Size(menu.block)][p - m] == nodes[p];
    Subtree(menu.block, menu.context, p - m);
  }

  lemma NodesNonEmpty(root: Block, k: nat)
    requires k < |Nodes(root)|
    ensures !Nodes(root)[k].block.Empty?
  {
    hide Children, Flatten;
    Subtree(root, TOP, k);
  }

  lemma RootFirst(root: Block)
    requires !root.Empty?
    ensures |Nodes(root)| > 0 && Nodes(root)[0] == Node(root, TOP)
  {
  }
}
