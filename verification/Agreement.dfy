/**
  Compiler and verifier agree: the device accepts the tape of a compiled flow exactly when the
  flow keeps a handful of limits that the compiler itself does not look at.
*/
module Agreement {
  import opened Prelude
  import opened Flow
  import opened Tape
  import opened Simulation
  import opened Lowering
  import opened Meaning

  // ---------------------------------------------------------------- a compiled tape is a tree

  /** k is the i-th child of p. */
  ghost predicate IsChild(root: Block, p: nat, i: nat, k: nat) {
    && p < |Nodes(root)| && i < |Children(Nodes(root)[p].block)|
    && k == p + Offset(Nodes(root)[p].block, i)
  }

  /** A block above q in the tree and before it in the order has no child that is also q's child. */
  lemma SecondParent(root: Block, p: nat, i: nat, q: nat, j: nat, k: nat)
    requires Compilable(root) && IsChild(root, p, i, k) && IsChild(root, q, j, k)
    ensures p >= q
  {
    hide Children, Flatten, Offset, Compilable, Size, SizeFrom, ChildContext;
    Down(root, TOP, p, i);
    Down(root, TOP, q, j);
    if p < q {
      var b := Nodes(root)[p].block;
      CompilableNode(root, p);
      CompilableNode(root, q);
      NodesNonEmpty(root, p);
      SizePositive(Children(Nodes(root)[q].block)[j]);
      OffsetFirst(b);
      var l := LocateChild(b, 0, q - p);
      Down(root, TOP, p, l);
      ChildSlice(b, Nodes(root)[p].context, l);
      if q > p + Offset(b, l) { SpanNests(root, p + Offset(b, l), q); }
      if l >= i { OffsetMonotone(b, i, l); } else { OffsetMonotone(b, l + 1, i); }
    }
  }

  lemma CompilableNode(root: Block, k: nat)
    requires Compilable(root) && k < |Nodes(root)|
    ensures NodeOk(Nodes(root)[k])
  {
    hide Flatten, Children;
    var nodes := Nodes(root);
    assert NodeOk(nodes[k]);
  }

  lemma OffsetFirst(b: Block)
    ensures Offset(b, 0) == 1
  {
  }

  lemma {:induction false} OffsetMonotone(b: Block, i: nat, j: nat)
    requires i <= j <= |Children(b)|
    ensures Offset(b, i) <= Offset(b, j)
    decreases j - i
  {
    hide Children;
    if i < j { OffsetMonotone(b, i, j - 1); }
  }

  lemma OneParent(root: Block, p: nat, i: nat, q: nat, j: nat, k: nat)
    requires Compilable(root) && IsChild(root, p, i, k) && IsChild(root, q, j, k)
    ensures p == q && i == j
  {
    hide Children, Flatten, Offset;
    SecondParent(root, p, i, q, j, k);
    SecondParent(root, q, j, p, i, k);
    var b := Nodes(root)[p].block;
    assert NodeOk(Nodes(root)[p]);
    if i < j { OffsetGrows(b, i, j); SizePositive(Children(b)[i]); }
    if j < i { OffsetGrows(b, j, i); SizePositive(Children(b)[j]); }
  }

  lemma SizePositive(b: Block)
    requires !b.Empty?
    ensures Size(b) >= 1
  {
    hide Children;
  }

  /** The edges of the tape are the parent-child pairs of the tree. */
  lemma EdgesAreChildren(root: Block, behavior: RecordingBehavior, k: nat, i: nat)
    requires Compilable(root) && k < |Nodes(root)|
    ensures var c := TapeOf(root, behavior);
            && (IsEdge(c, k, i) <==> i < |Children(Nodes(root)[k].block)|)
            && (IsEdge(c, k, i) ==> Target(c, k, i) < |Nodes(root)| && IsChild(root, k, i, Target(c, k, i)))
  {
    hide Children, Emit, Targets, Offset, Flatten;
    SlotsMatch(Nodes(root), k, behavior);
    if i < |Children(Nodes(root)[k].block)| { SlotAt(root, behavior, k, i); }
  }

  lemma CompiledInRange(root: Block, behavior: RecordingBehavior)
    requires Compilable(root)
    ensures InRange(TapeOf(root, behavior))
  {
    var c, nodes := TapeOf(root, behavior), Nodes(root);
    forall k | 0 <= k < |nodes| ensures InstructionOk(c, k) {
      hide Children, Targets, Flatten, PcOf;
      EmitHeader(nodes, k, behavior);
      NodesNonEmpty(root, k);
      forall i | 0 <= i < |Targets(c.instructions[k])| ensures Targets(c.instructions[k])[i] < |nodes| {
        assert IsEdge(c, k, i);
        EdgesAreChildren(root, behavior, k, i);
      }
      if nodes[k].block.ReturnToMenu? {
        assert NodeOk(nodes[k]);
        OwnerAt(root, k);
      }
    }
  }

  lemma CompiledOneOwner(root: Block, behavior: RecordingBehavior)
    requires Compilable(root)
    ensures OneOwner(TapeOf(root, behavior))
  {
    hide Children, Emit, Targets, Flatten, Offset;
    var c, nodes := TapeOf(root, behavior), Nodes(root);
    forall s, i, t | Owns(c, s, i, t) ensures t > 0 && IsChild(root, s, i, t) {
      EdgesAreChildren(root, behavior, s, i);
      Down(root, TOP, s, i);
    }
    forall t | 0 <= t < |nodes| && t != 0 ensures HasOwner(c, t) {
      var p, i := Up(root, TOP, t);
      EdgesAreChildren(root, behavior, p, i);
      assert Owns(c, p, i, t);
    }
    forall t, s, i, s', i' | Owns(c, s, i, t) && Owns(c, s', i', t) ensures s == s' && i == i' {
      OneParent(root, s, i, s', i', t);
    }
  }

  // ---------------------------------------------------------------- the placement of a compiled tape

  /** A play prompt step that has chosen its prompt. */
  ghost predicate PromptsChosen(root: Block) {
    forall k :: 0 <= k < |Nodes(root)| && Nodes(root)[k].block.PlayPrompt? ==> Nodes(root)[k].block.promptId != ""
  }

  ghost function MenuPc(nodes: seq<Node>, menu: Option<Id>): int {
    if menu.Some? then PcOf(nodes, menu.value) else -1
  }

  ghost predicate HasParent(root: Block, k: nat) {
    exists p: nat, i: nat :: IsChild(root, p, i, k)
  }

  ghost function ParentPc(root: Block, k: nat): (r: int)
    ensures HasParent(root, k) ==> r >= 0 && exists i: nat :: IsChild(root, r, i, k)
  {
    if HasParent(root, k) then (var p: nat, i: nat :| IsChild(root, p, i, k); p) else -1
  }

  /** What the compiler carried to a block, said in program counters. */
  ghost function PlaceOf(root: Block, k: nat): Place
    requires k < |Nodes(root)|
  {
    var nodes, context := Nodes(root), Nodes(root)[k].context;
    Place(context.depth, if k == 0 then -1 else ParentPc(root, k), MenuPc(nodes, context.owner), MenuPc(nodes, context.forbidden), context.notice)
  }

  ghost function PlacesOf(root: Block): (r: seq<Place>)
    ensures |r| == |Nodes(root)|
    ensures forall k :: 0 <= k < |r| ==> r[k] == PlaceOf(root, k)
  {
    seq(|Nodes(root)|, k requires 0 <= k < |Nodes(root)| => PlaceOf(root, k))
  }

  /** The walk on the tape carries to a child what the compiler carried to it in the tree. */
  lemma PlaceOfChild(root: Block, behavior: RecordingBehavior, k: nat, i: nat)
    requires Compilable(root) && PromptsChosen(root) && IsEdge(TapeOf(root, behavior), k, i)
    ensures var c := TapeOf(root, behavior);
            var t := Target(c, k, i);
            t < |Nodes(root)| && PlaceOf(root, t) == ChildPlace(c.instructions[k], k, PlaceOf(root, k), i)
  {
    hide Children, Targets, Flatten, Offset, PcOf;
    var c, nodes := TapeOf(root, behavior), Nodes(root);
    var t := Target(c, k, i);
    EdgesAreChildren(root, behavior, k, i);
    SlotsMatch(nodes, k, behavior);
    ChildAt(root, k, i);
    assert HasParent(root, t);
    var p: nat := ParentPc(root, t);
    var j: nat :| IsChild(root, p, j, t);
    OneParent(root, p, j, k, i, t);
    PcOfNode(nodes, k);
    NodesNonEmpty(root, k);
  }

  lemma CompiledPlacement(root: Block, behavior: RecordingBehavior)
    requires Compilable(root) && PromptsChosen(root)
    ensures Placement(TapeOf(root, behavior), PlacesOf(root))
  {
    hide Children, Emit, Targets, Flatten, Offset, ChildPlace;
    var c, places := TapeOf(root, behavior), PlacesOf(root);
    RootFirst(root);
    forall s, i | IsEdge(c, s, i) && Target(c, s, i) < |places|
      ensures places[Target(c, s, i)] == ChildPlace(c.instructions[s], s, places[s], i)
    {
      PlaceOfChild(root, behavior, s, i);
    }
  }

  /** The forbidden menu, where there is one, is the menu the block belongs to. */
  lemma {:induction false} ForbiddenIsOwner(root: Block, k: nat)
    requires Compilable(root) && k < |Nodes(root)| && Nodes(root)[k].context.forbidden.Some?
    ensures Nodes(root)[k].context.owner == Nodes(root)[k].context.forbidden
    decreases k
  {
    hide Children, Flatten, Offset;
    if k > 0 {
      var p, i := Up(root, TOP, k);
      if !Nodes(root)[p].block.CollectDigit? { ForbiddenIsOwner(root, p); }
    }
  }

  // ---------------------------------------------------------------- the limits

  /** A return inside the return-limit branch of the very menu it would return to. */
  ghost predicate SelfReturn(node: Node) {
    node.block.ReturnToMenu? && node.context.owner.Some? && node.context.forbidden == node.context.owner
  }

  ghost predicate NoSelfReturn(root: Block) {
    forall k :: 0 <= k < |Nodes(root)| ==> !SelfReturn(Nodes(root)[k])
  }

  /** The limits of the device that the compiler leaves to server/app/validation.py. */
  ghost predicate WithinLimits(root: Block) {
    && |Nodes(root)| <= MAXIMUM_NODES
    && (forall k :: 0 <= k < |Nodes(root)| ==> Nodes(root)[k].context.depth <= MAXIMUM_DEPTH)
    && NoSelfReturn(root)
    && PromptsChosen(root)
    && (forall k :: 0 <= k < |Nodes(root)| ==> MenuUsable(Nodes(root)[k].block))
  }

  ghost predicate MenuUsable(b: Block) {
    b.CollectDigit? ==>
      && |b.branches| >= 1
      && DistinctDigits(b.branches)
      && (b.allowPromptBargeIn ==> b.promptId != "")
  }

  /** The bounds `ParseRevisionConfig` puts on single PLAY and COLLECT lines. */
  ghost predicate LineParses(ins: Instruction) {
    && (ins.Play? ==> ins.promptId != "")
    && (ins.Collect? ==>
          && 1 <= |ins.branches| <= 12
          && (forall i, j :: 0 <= i < j < |ins.branches| ==> Rank(ins.branches[i].0) < Rank(ins.branches[j].0))
          && (ins.allowPromptBargeIn ==> ins.promptId != ""))
  }

  ghost predicate DeviceAccepts(c: Config) {
    && (forall k :: 0 <= k < |c.instructions| ==> LineParses(c.instructions[k]))
    && WellOwned(c)
  }

  /** Strictly increasing ranks below twelve leave room for at most twelve branches. */
  lemma {:induction false} AtMostTwelve(bs: seq<Branch>)
    requires RanksIncrease(bs)
    ensures |bs| > 0 ==> Rank(bs[|bs| - 1].digit) >= |bs| - 1
    ensures |bs| <= 12
  {
    if |bs| > 1 {
      AtMostTwelve(bs[..|bs| - 1]);
    }
  }

  lemma LineParsesIff(nodes: seq<Node>, k: nat, behavior: RecordingBehavior)
    requires k < |nodes| && !nodes[k].block.Empty?
    ensures LineParses(Emit(nodes, k, behavior)) <==>
      MenuUsable(nodes[k].block) && (nodes[k].block.PlayPrompt? ==> nodes[k].block.promptId != "")
  {
    hide PcOf, SortBranches;
    var b, ins := nodes[k].block, Emit(nodes, k, behavior);
    if b.CollectDigit? {
      var sorted := SortBranches(b.branches);
      SortedStrictlyIffDistinct(b.branches);
      if RanksIncrease(sorted) { AtMostTwelve(sorted); }
      assert forall i :: 0 <= i < |sorted| ==> ins.branches[i].0 == sorted[i].digit;
      if LineParses(ins) {
        forall i, j | 0 <= i < j < |sorted| ensures Rank(sorted[i].digit) < Rank(sorted[j].digit) {
          assert Rank(ins.branches[i].0) < Rank(ins.branches[j].0);
        }
      }
    }
  }

  lemma ShapeIff(root: Block, behavior: RecordingBehavior, k: nat)
    requires Compilable(root) && k < |Nodes(root)|
    ensures ShapeOk(TapeOf(root, behavior).instructions[k], PlaceOf(root, k)) <==>
      Nodes(root)[k].context.depth <= MAXIMUM_DEPTH && !SelfReturn(Nodes(root)[k])
    ensures NoticeOk(TapeOf(root, behavior), TapeOf(root, behavior).instructions[k], PlaceOf(root, k))
  {
    hide Children, Flatten, PcOf, ParentPc;
    var nodes := Nodes(root);
    var context := nodes[k].context;
    NodesNonEmpty(root, k);
    assert NodeOk(nodes[k]);
    if context.owner.Some? { OwnerAt(root, k); }
    if context.forbidden.Some? { ForbiddenIsOwner(root, k); }
  }

  /** The device accepts a compiled tape if and only if the flow keeps the limits. */
  lemma CompilerVerifierAgree(root: Block, behavior: RecordingBehavior)
    requires Compilable(root)
    ensures DeviceAccepts(TapeOf(root, behavior)) <==> WithinLimits(root)
  {
    hide Children, Emit, Targets, Flatten, PlaceOf, OneOwner, LineParses, MenuUsable, SelfReturn, ShapeOk, NoticeOk;
    var c, nodes := TapeOf(root, behavior), Nodes(root);
    forall k | 0 <= k < |nodes|
      ensures LineParses(c.instructions[k]) <==> MenuUsable(nodes[k].block) && (nodes[k].block.PlayPrompt? ==> nodes[k].block.promptId != "")
      ensures ShapeOk(c.instructions[k], PlaceOf(root, k)) <==> nodes[k].context.depth <= MAXIMUM_DEPTH && !SelfReturn(nodes[k])
      ensures NoticeOk(c, c.instructions[k], PlaceOf(root, k))
    {
      NodesNonEmpty(root, k);
      LineParsesIff(nodes, k, behavior);
      ShapeIff(root, behavior, k);
    }
    RootFirst(root);
    CompiledInRange(root, behavior);
    CompiledOneOwner(root, behavior);
    if PromptsChosen(root) {
      CompiledPlacement(root, behavior);
      if places :| Placed(c, places) {
        forall k | 0 <= k < |nodes| ensures places[k] == PlaceOf(root, k) {
          PlacementUnique(c, places, PlacesOf(root), k);
        }
      }
      if WithinLimits(root) { assert Placed(c, PlacesOf(root)); }
    }
  }
}
