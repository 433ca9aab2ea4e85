/**
  When the cycle guard of `maximum_cost` speaks (server/app/compiler_v4.py), said about the flow itself.
  A return inside the return-limit branch of its own menu goes round for ever once that menu is used
  up; the guard finds it exactly when the walk can get there.
*/
module CycleGuard {
  import opened Prelude
  import opened Flow
  import opened Tape
  import opened Session
  import opened SessionCost
  import opened Simulation
  import opened Lowering
  import A = Agreement

  // ---------------------------------------------------------------- what the guard is about

  /** An ordinary return to menu m: one outside the return-limit branch. */
  ghost predicate UsesUp(root: Block, m: nat, r: nat) {
    && m < |Nodes(root)| && r < |Nodes(root)|
    && Nodes(root)[m].block.CollectDigit? && Nodes(root)[r].block.ReturnToMenu?
    && Nodes(root)[r].context.owner == Some(Nodes(root)[m].block.id)
    && Nodes(root)[r].context.forbidden != Nodes(root)[r].context.owner
  }

  ghost predicate Exhaustible(root: Block, m: nat) {
    exists r: nat :: UsesUp(root, m, r)
  }

  /** Slot i of block p is the return-limit branch of a menu. */
  ghost predicate LimitSlot(root: Block, p: nat, i: nat) {
    p < |Nodes(root)| && Nodes(root)[p].block.CollectDigit? && i == |Children(Nodes(root)[p].block)| - 1
  }

  /** The way in from p: a return-limit branch opens only for a menu that has an ordinary return. */
  ghost predicate Opens(root: Block, p: nat, i: nat, k: nat) {
    A.IsChild(root, p, i, k) && (LimitSlot(root, p, i) ==> Exhaustible(root, p))
  }

  /** A walk can get to block k: every return-limit branch on the way down to it can open. */
  ghost predicate Live(root: Block, k: nat)
    decreases k
  {
    k == 0 || exists p: nat, i: nat :: p < k && Opens(root, p, i, k) && Live(root, p)
  }

  /** Some return that a walk can get to lies in the return-limit branch of its own menu. */
  ghost predicate Trapped(root: Block) {
    exists s: nat :: s < |Nodes(root)| && A.SelfReturn(Nodes(root)[s]) && Live(root, s)
  }

  lemma RootIsLive(root: Block)
    ensures Live(root, 0)
  {
  }

  lemma {:induction false} NoSelfReturnNotTrapped(root: Block)
    requires A.NoSelfReturn(root)
    ensures !Trapped(root)
  {
  }

  /** The block above k, and what being live says about it. */
  lemma LiveAbove(root: Block, k: nat) returns (p: nat, i: nat)
    requires Compilable(root) && 0 < k < |Nodes(root)|
    ensures p < k && A.IsChild(root, p, i, k) && !Nodes(root)[p].block.Empty?
    ensures Nodes(root)[k] == Node(Children(Nodes(root)[p].block)[i], ChildContext(Nodes(root)[p].block, Nodes(root)[p].context, i))
    ensures Live(root, k) ==> Live(root, p) && Opens(root, p, i, k)
  {
    hide Children, Flatten, Offset;
    p, i := Up(root, TOP, k);
    NodesNonEmpty(root, p);
    if Live(root, k) {
      var q: nat, j: nat :| q < k && Opens(root, q, j, k) && Live(root, q);
      A.OneParent(root, p, i, q, j, k);
    }
  }

  /** The menu a live block belongs to is live, and if the block is in its return-limit branch, exhaustible. */
  lemma {:induction false} LiveMenu(root: Block, k: nat)
    requires Compilable(root) && k < |Nodes(root)| && Live(root, k) && Nodes(root)[k].context.owner.Some?
    ensures var m := PcOf(Nodes(root), Nodes(root)[k].context.owner.value);
            m < k && Nodes(root)[m].block.CollectDigit? && Live(root, m)
            && (Nodes(root)[k].context.forbidden == Nodes(root)[k].context.owner ==> Exhaustible(root, m))
    decreases k
  {
    hide Children, Flatten, Offset, PcOf, Live, Exhaustible;
    var nodes := Nodes(root);
    OwnerAt(root, k);
    if k == 0 { RootFirst(root); }
    var p, i := LiveAbove(root, k);
    if nodes[p].block.CollectDigit? {
      PcOfNode(nodes, p);
    } else {
      LiveMenu(root, p);
    }
  }

  /** Outside its own return-limit branch a return lies before the whole of that branch. */
  lemma {:induction false} ReturnBeforeLimit(root: Block, k: nat)
    requires Compilable(root) && k < |Nodes(root)|
    requires var context := Nodes(root)[k].context; context.owner.Some? && context.forbidden != context.owner
    ensures var nodes := Nodes(root);
            var m := PcOf(nodes, nodes[k].context.owner.value);
            && m < |nodes| && nodes[m].block.CollectDigit?
            && k + Size(nodes[k].block) <= m + Offset(nodes[m].block, |Children(nodes[m].block)| - 1)
    decreases k
  {
    hide Children, Flatten, Offset;
    var nodes := Nodes(root);
    OwnerAt(root, k);
    var p, i := Up(root, TOP, k);
    Down(root, TOP, p, i);
    if nodes[p].block.CollectDigit? {
      PcOfNode(nodes, p);
      var last := |Children(nodes[p].block)| - 1;
      A.OffsetMonotone(nodes[p].block, i + 1, last);
      OffsetGrows(nodes[p].block, i, last);
    } else {
      ReturnBeforeLimit(root, p);
    }
  }

  lemma LimitTarget(root: Block, behavior: RecordingBehavior, m: nat)
    requires Compilable(root) && m < |Nodes(root)| && Nodes(root)[m].block.CollectDigit?
    ensures var b := Nodes(root)[m].block;
            Emit(Nodes(root), m, behavior).onReturnLimitPc == m + Offset(b, |Children(b)| - 1)
  {
    hide Flatten, Offset, PcOf, SortBranches;
    var nodes := Nodes(root);
    var b := nodes[m].block;
    ChildAt(root, m, |Children(b)| - 1);
    assert Children(b)[|Children(b)| - 1] == b.onReturnLimit;
  }


  // ---------------------------------------------------------------- moves of a compiled tape

  /** Every child of a block is one move away, except the return-limit branch of a menu. */
  lemma ChildMove(root: Block, behavior: RecordingBehavior, d: Durations, s: Spot, i: nat)
    requires Compilable(root) && s.pc < |Nodes(root)|
    requires i < |Children(Nodes(root)[s.pc].block)| && !LimitSlot(root, s.pc, i)
    ensures var c := TapeOf(root, behavior);
            i < |Moves(c, d, s)| && Moves(c, d, s)[i].next == Spot(s.pc + Offset(Nodes(root)[s.pc].block, i), s.counts)
  {
    hide Children, Flatten, Offset, PcOf, Emit;
    var c := TapeOf(root, behavior);
    SlotAt(root, behavior, s.pc, i);
    EmitKind(root, behavior, s.pc);
    var ins := c.instructions[s.pc];
    if ins.Record? { assert Targets(ins)[0] == ins.nextPc && Targets(ins)[1] == ins.onUnavailablePc; }
  }

  lemma EmitKind(root: Block, behavior: RecordingBehavior, k: nat)
    requires Compilable(root) && k < |Nodes(root)|
    ensures var b, ins := Nodes(root)[k].block, Emit(Nodes(root), k, behavior);
            && (b.CollectDigit? <==> ins.Collect?) && (b.ReturnToMenu? <==> ins.Return?)
            && |Targets(ins)| == |Children(b)|
  {
    hide Flatten, PcOf, Children;
    NodesNonEmpty(root, k);
    SlotsMatch(Nodes(root), k, behavior);
  }

  /** And those are all the moves of a block that is not a return. */
  lemma MovesAreChildren(root: Block, behavior: RecordingBehavior, d: Durations, s: Spot, i: nat)
    requires Compilable(root) && s.pc < |Nodes(root)| && !Nodes(root)[s.pc].block.ReturnToMenu?
    requires i < |Moves(TapeOf(root, behavior), d, s)|
    ensures i < |Children(Nodes(root)[s.pc].block)| && !LimitSlot(root, s.pc, i)
  {
    hide Children, Flatten, Offset, PcOf, Emit;
    EmitKind(root, behavior, s.pc);
  }

  /** A return goes to its menu while returns are left, and to the return-limit branch after that. */
  lemma ReturnMove(root: Block, behavior: RecordingBehavior, d: Durations, s: Spot)
    requires Compilable(root) && s.pc < |Nodes(root)| && Nodes(root)[s.pc].block.ReturnToMenu?
    ensures Nodes(root)[s.pc].context.owner.Some?
    ensures var c, nodes := TapeOf(root, behavior), Nodes(root);
            var m := PcOf(nodes, nodes[s.pc].context.owner.value);
            && m < s.pc && nodes[m].block.CollectDigit? && IdOf(nodes[m].block) == nodes[s.pc].context.owner.value
            && |Moves(c, d, s)| == 1
            && Moves(c, d, s)[0].next ==
               if Get(s.counts, m) < nodes[m].block.maximumMenuReturns
               then Spot(m, s.counts[m := Get(s.counts, m) + 1])
               else Spot(m + Offset(nodes[m].block, |Children(nodes[m].block)| - 1), s.counts)
  {
    hide Flatten, PcOf, Offset, SortBranches;
    var nodes := Nodes(root);
    A.CompilableNode(root, s.pc);
    OwnerAt(root, s.pc);
    LimitTarget(root, behavior, PcOf(nodes, nodes[s.pc].context.owner.value));
  }

  // ---------------------------------------------------------------- without a trapped return the search ends

  /** From s to next: (returns left, blocks ahead) falls, and next is live. */
  ghost predicate Lowers(root: Block, c: Config, s: Spot, next: Spot) {
    && next.pc < |Nodes(root)| && Live(root, next.pc)
    && (ReturnsLeft(c, next.counts, |c.instructions|) < ReturnsLeft(c, s.counts, |c.instructions|)
        || (next.counts == s.counts && s.pc < next.pc))
  }

  lemma LiveMove(root: Block, behavior: RecordingBehavior, d: Durations, s: Spot, i: nat)
    requires Compilable(root) && !Trapped(root) && s.pc < |Nodes(root)| && Live(root, s.pc)
    requires i < |Moves(TapeOf(root, behavior), d, s)|
    ensures Lowers(root, TapeOf(root, behavior), s, Moves(TapeOf(root, behavior), d, s)[i].next)
  {
    hide Children, Flatten, Offset, PcOf, Moves, ReturnsLeft, Exhaustible, Emit, Lowers, Trapped, Live;
    if Nodes(root)[s.pc].block.ReturnToMenu? {
      LiveReturnMove(root, behavior, d, s);
      ReturnMove(root, behavior, d, s);
    } else {
      LiveChildMove(root, behavior, d, s, i);
    }
  }

  lemma LiveReturnMove(root: Block, behavior: RecordingBehavior, d: Durations, s: Spot)
    requires Compilable(root) && !Trapped(root) && s.pc < |Nodes(root)| && Live(root, s.pc) && Nodes(root)[s.pc].block.ReturnToMenu?
    ensures var c := TapeOf(root, behavior); |Moves(c, d, s)| == 1 && Lowers(root, c, s, Moves(c, d, s)[0].next)
  {
    hide Children, Flatten, Offset, PcOf, Moves, ReturnsLeft, Exhaustible, Emit, Live, Compilable;
    var nodes := Nodes(root);
    ReturnMove(root, behavior, d, s);
    LiveMenu(root, s.pc);
    assert !A.SelfReturn(nodes[s.pc]);
    var m := PcOf(nodes, nodes[s.pc].context.owner.value);
    assert UsesUp(root, m, s.pc);
    LiveReturn(root, behavior, m, s.pc, s.counts);
  }

  lemma LiveChildMove(root: Block, behavior: RecordingBehavior, d: Durations, s: Spot, i: nat)
    requires Compilable(root) && s.pc < |Nodes(root)| && Live(root, s.pc) && !Nodes(root)[s.pc].block.ReturnToMenu?
    requires i < |Moves(TapeOf(root, behavior), d, s)|
    ensures Lowers(root, TapeOf(root, behavior), s, Moves(TapeOf(root, behavior), d, s)[i].next)
  {
    hide Children, Flatten, Offset, PcOf, Moves, ReturnsLeft, Exhaustible, Emit, Compilable;
    var nodes := Nodes(root);
    MovesAreChildren(root, behavior, d, s, i);
    ChildMove(root, behavior, d, s, i);
    SlotAt(root, behavior, s.pc, i);
    assert Opens(root, s.pc, i, s.pc + Offset(nodes[s.pc].block, i));
  }

  /** An ordinary return opens the return-limit branch of its menu, which lies ahead of it. */
  lemma LiveReturn(root: Block, behavior: RecordingBehavior, m: nat, r: nat, counts: map<nat, nat>)
    requires Compilable(root) && UsesUp(root, m, r) && Live(root, m)
    ensures var c, b := TapeOf(root, behavior), Nodes(root)[m].block;
            var limit := m + Offset(b, |Children(b)| - 1);
            && r < limit < |Nodes(root)| && Live(root, limit)
            && (Get(counts, m) < b.maximumMenuReturns ==>
                  ReturnsLeft(c, counts[m := Get(counts, m) + 1], |c.instructions|) < ReturnsLeft(c, counts, |c.instructions|))
  {
    hide Children, Flatten, Offset, PcOf, ReturnsLeft, Emit;
    var c, nodes := TapeOf(root, behavior), Nodes(root);
    MenuLimit(root, behavior, m);
    var last: nat := |Children(nodes[m].block)| - 1;
    ReturnBeforeLimit(root, r);
    PcOfNode(nodes, m);
    NodesNonEmpty(root, r);
    A.SizePositive(nodes[r].block);
    ChildAt(root, m, last);
    assert Opens(root, m, last, m + Offset(nodes[m].block, last));
    if Get(counts, m) < nodes[m].block.maximumMenuReturns { ReturnUsesOne(c, counts, m, |c.instructions|); }
  }

  lemma MenuLimit(root: Block, behavior: RecordingBehavior, m: nat)
    requires m < |Nodes(root)| && Nodes(root)[m].block.CollectDigit?
    ensures var ins := TapeOf(root, behavior).instructions[m];
            ins.Collect? && ins.maximumMenuReturns == Nodes(root)[m].block.maximumMenuReturns
    ensures |Children(Nodes(root)[m].block)| >= 3
  {
    hide Flatten, PcOf, SortBranches;
  }

  lemma {:induction false} LiveHalts(root: Block, behavior: RecordingBehavior, d: Durations, s: Spot) returns (k: nat)
    requires Compilable(root) && !Trapped(root) && s.pc < |Nodes(root)| && Live(root, s.pc)
    ensures Halts(TapeOf(root, behavior), d, s, k)
    decreases ReturnsLeft(TapeOf(root, behavior), s.counts, |Nodes(root)|), |Nodes(root)| - s.pc, |Moves(TapeOf(root, behavior), d, s)| + 1
  {
    hide Moves, Trapped, Live, Compilable, Flatten;
    k := LiveHaltsFirst(root, behavior, d, s, |Moves(TapeOf(root, behavior), d, s)|);
    k := k + 1;
  }

  lemma {:induction false} LiveHaltsFirst(root: Block, behavior: RecordingBehavior, d: Durations, s: Spot, n: nat) returns (k: nat)
    requires Compilable(root) && !Trapped(root) && s.pc < |Nodes(root)| && Live(root, s.pc)
    requires n <= |Moves(TapeOf(root, behavior), d, s)|
    ensures forall i :: 0 <= i < n ==> Halts(TapeOf(root, behavior), d, Moves(TapeOf(root, behavior), d, s)[i].next, k)
    decreases ReturnsLeft(TapeOf(root, behavior), s.counts, |Nodes(root)|), |Nodes(root)| - s.pc, n
  {
    hide Moves, Trapped, Live, Compilable, Halts, Flatten;
    var c := TapeOf(root, behavior);
    k := 0;
    if n > 0 {
      var before := LiveHaltsFirst(root, behavior, d, s, n - 1);
      LiveMove(root, behavior, d, s, n - 1);
      var own := LiveHalts(root, behavior, d, Moves(c, d, s)[n - 1].next);
      k := if before < own then own else before;
      forall i | 0 <= i < n ensures Halts(c, d, Moves(c, d, s)[i].next, k) {
        Settled(c, d, Moves(c, d, s)[i].next, if i < n - 1 then before else own, k);
      }
    }
  }

  // ---------------------------------------------------------------- a trapped return goes round for ever

  ghost predicate CanReach(c: Config, d: Durations, a: Spot, s: Spot) {
    exists n: nat :: Reaches(c, d, a, s, n)
  }

  lemma ReachSelf(c: Config, d: Durations, a: Spot)
    ensures CanReach(c, d, a, a)
  {
    assert Reaches(c, d, a, a, 0);
  }

  lemma ReachStep(c: Config, d: Durations, a: Spot, s: Spot, i: nat)
    requires CanReach(c, d, a, s) && i < |Moves(c, d, s)|
    ensures CanReach(c, d, a, Moves(c, d, s)[i].next)
  {
    hide Moves, Reaches;
    var n: nat :| Reaches(c, d, a, s, n);
    ReachesNext(c, d, a, s, n, i);
  }

  lemma {:induction false} ReachTrans(c: Config, d: Durations, a: Spot, b: Spot, s: Spot)
    requires CanReach(c, d, a, b) && CanReach(c, d, b, s)
    ensures CanReach(c, d, a, s)
  {
    hide Moves, Reaches;
    var n: nat :| Reaches(c, d, a, b, n);
    var m: nat :| Reaches(c, d, b, s, m);
    ReachesSum(c, d, a, b, s, n, m);
  }

  lemma {:induction false} ReachesSum(c: Config, d: Durations, a: Spot, b: Spot, s: Spot, n: nat, m: nat)
    requires Reaches(c, d, a, b, n) && Reaches(c, d, b, s, m)
    ensures Reaches(c, d, a, s, n + m)
    decreases n
  {
    hide Moves;
    if n > 0 {
      var i :| 0 <= i < |Moves(c, d, a)| && Reaches(c, d, Moves(c, d, a)[i].next, b, n - 1);
      ReachesSum(c, d, Moves(c, d, a)[i].next, b, s, n - 1, m);
    }
  }

  /** Down from a menu to a block of its own, without a return: from the menu itself, or from its
      return-limit branch for a block in there. */
  lemma {:induction false} GoDown(root: Block, behavior: RecordingBehavior, d: Durations, m: nat, k: nat, counts: map<nat, nat>)
    requires Compilable(root) && m < |Nodes(root)| && k < |Nodes(root)| && Nodes(root)[m].block.CollectDigit?
    requires Nodes(root)[k].context.owner == Some(Nodes(root)[m].block.id)
    ensures var limit := m + Offset(Nodes(root)[m].block, |Children(Nodes(root)[m].block)| - 1);
            var from := if Nodes(root)[k].context.forbidden == Nodes(root)[k].context.owner then limit else m;
            CanReach(TapeOf(root, behavior), d, Spot(from, counts), Spot(k, counts))
    decreases k
  {
    hide Children, Flatten, Offset, PcOf, Moves, Emit, CanReach, Compilable;
    var c, nodes := TapeOf(root, behavior), Nodes(root);
    var limit := m + Offset(nodes[m].block, |Children(nodes[m].block)| - 1);
    if k == 0 { CompilableRoot(root); }
    var p, i := LiveAbove(root, k);
    if nodes[p].block.CollectDigit? {
      SameMenu(root, p, m);
      if i == |Children(nodes[p].block)| - 1 {
        ReachSelf(c, d, Spot(limit, counts));
      } else {
        ReachSelf(c, d, Spot(m, counts));
        ChildMove(root, behavior, d, Spot(m, counts), i);
        ReachStep(c, d, Spot(m, counts), Spot(m, counts), i);
      }
    } else {
      GoDown(root, behavior, d, m, p, counts);
      ChildMove(root, behavior, d, Spot(p, counts), i);
      ReachStep(c, d, Spot(if nodes[k].context.forbidden == nodes[k].context.owner then limit else m, counts), Spot(p, counts), i);
    }
  }

  lemma CompilableRoot(root: Block)
    requires Compilable(root)
    ensures |Nodes(root)| > 0 && Nodes(root)[0] == Node(root, TOP)
  {
    RootFirst(root);
  }

  lemma SameMenu(root: Block, p: nat, m: nat)
    requires Compilable(root) && p < |Nodes(root)| && m < |Nodes(root)|
    requires Nodes(root)[p].block.CollectDigit? && Nodes(root)[m].block.CollectDigit? && Nodes(root)[p].block.id == Nodes(root)[m].block.id
    ensures p == m
  {
    hide PcOf, Flatten;
    PcOfNode(Nodes(root), p);
    PcOfNode(Nodes(root), m);
  }

  /** From a menu with an ordinary return the walk can use up its returns and fall through. */
  lemma {:induction false} UseUp(root: Block, behavior: RecordingBehavior, d: Durations, m: nat, r: nat, counts: map<nat, nat>) returns (after: map<nat, nat>)
    requires Compilable(root) && UsesUp(root, m, r)
    ensures Get(after, m) >= Nodes(root)[m].block.maximumMenuReturns
    ensures var limit := m + Offset(Nodes(root)[m].block, |Children(Nodes(root)[m].block)| - 1);
            CanReach(TapeOf(root, behavior), d, Spot(m, counts), Spot(limit, after))
    decreases Nodes(root)[m].block.maximumMenuReturns - Get(counts, m)
  {
    hide Children, Flatten, Offset, PcOf, Moves, Emit, CanReach, Compilable;
    var c, nodes := TapeOf(root, behavior), Nodes(root);
    GoDown(root, behavior, d, m, r, counts);
    ReturnMove(root, behavior, d, Spot(r, counts));
    SameMenu(root, PcOf(nodes, nodes[r].context.owner.value), m);
    ReachStep(c, d, Spot(m, counts), Spot(r, counts), 0);
    if Get(counts, m) < nodes[m].block.maximumMenuReturns {
      var next := counts[m := Get(counts, m) + 1];
      after := UseUp(root, behavior, d, m, r, next);
      ReachTrans(c, d, Spot(m, counts), Spot(m, next), Spot(m + Offset(nodes[m].block, |Children(nodes[m].block)| - 1), after));
    } else {
      after := counts;
    }
  }

  /** A live block is reached from the start. */
  lemma {:induction false} LiveReached(root: Block, behavior: RecordingBehavior, d: Durations, k: nat) returns (counts: map<nat, nat>)
    requires Compilable(root) && k < |Nodes(root)| && Live(root, k)
    ensures CanReach(TapeOf(root, behavior), d, Spot(0, map[]), Spot(k, counts))
    decreases k
  {
    hide Children, Flatten, Offset, PcOf, Moves, Emit, CanReach, Compilable, Live;
    var c, nodes, start := TapeOf(root, behavior), Nodes(root), Spot(0, map[]);
    if k == 0 {
      counts := map[];
      ReachSelf(c, d, start);
    } else {
      var p, i := LiveAbove(root, k);
      var before := LiveReached(root, behavior, d, p);
      if LimitSlot(root, p, i) {
        var r: nat :| UsesUp(root, p, r);
        counts := UseUp(root, behavior, d, p, r, before);
        ReachTrans(c, d, start, Spot(p, before), Spot(k, counts));
      } else {
        counts := before;
        ChildMove(root, behavior, d, Spot(p, before), i);
        ReachStep(c, d, start, Spot(p, before), i);
      }
    }
  }

  /** No number of moves is enough for every run of the tape. */
  ghost predicate Unbounded(c: Config, d: Durations) {
    forall k: nat :: !Halts(c, d, Spot(0, map[]), k)
  }

  /** The guard speaks exactly for a flow with a trapped return. */
  lemma GuardExact(root: Block, behavior: RecordingBehavior, d: Durations)
    requires Compilable(root)
    ensures Unbounded(TapeOf(root, behavior), d) <==> Trapped(root)
  {
    hide Children, Flatten, Halts, Trapped, Live;
    if Trapped(root) {
      TrappedRunsOn(root, behavior, d);
    } else {
      RootFirst(root);
      RootIsLive(root);
      var k := LiveHalts(root, behavior, d, Spot(0, map[]));
    }
  }

  lemma TrappedRunsOn(root: Block, behavior: RecordingBehavior, d: Durations)
    requires Compilable(root) && Trapped(root)
    ensures forall k: nat :: !Halts(TapeOf(root, behavior), d, Spot(0, map[]), k)
  {
    hide Children, Flatten, Offset, PcOf, Moves, Emit, CanReach, Compilable, Live, Halts, Exhaustible;
    var c, nodes, start := TapeOf(root, behavior), Nodes(root), Spot(0, map[]);
    var s: nat :| s < |nodes| && A.SelfReturn(nodes[s]) && Live(root, s);
    var after := TrapSprings(root, behavior, d, s);
    ReachesForAll(c, d, start, Spot(s, after));
  }

  /** The counts under which a trapped return comes back to itself. */
  lemma TrapSprings(root: Block, behavior: RecordingBehavior, d: Durations, s: nat) returns (after: map<nat, nat>)
    requires Compilable(root) && s < |Nodes(root)| && A.SelfReturn(Nodes(root)[s]) && Live(root, s)
    ensures CanReach(TapeOf(root, behavior), d, Spot(0, map[]), Spot(s, after))
    ensures Goes(TapeOf(root, behavior), d, Spot(s, after))
  {
    hide Children, Flatten, Offset, PcOf, Moves, Emit, CanReach, Compilable, Live;
    var c, nodes, start := TapeOf(root, behavior), Nodes(root), Spot(0, map[]);
    var m := PcOf(nodes, nodes[s].context.owner.value);
    LiveMenu(root, s);
    ReturnMove(root, behavior, d, Spot(s, map[]));
    var limit := m + Offset(nodes[m].block, |Children(nodes[m].block)| - 1);
    var before := LiveReached(root, behavior, d, m);
    var r: nat :| UsesUp(root, m, r);
    after := UseUp(root, behavior, d, m, r, before);
    GoDown(root, behavior, d, m, s, after);
    ReachTrans(c, d, start, Spot(m, before), Spot(limit, after));
    ReachTrans(c, d, start, Spot(limit, after), Spot(s, after));
    ReturnMove(root, behavior, d, Spot(s, after));
    GoesRound(c, d, Spot(s, after));
  }

  /** Some move leads back to where it started. */
  ghost predicate Goes(c: Config, d: Durations, s: Spot) {
    exists n: nat :: n > 0 && Reaches(c, d, s, s, n)
  }

  lemma GoesRound(c: Config, d: Durations, s: Spot)
    requires |Moves(c, d, s)| == 1 && CanReach(c, d, Moves(c, d, s)[0].next, s)
    ensures Goes(c, d, s)
  {
    hide Moves;
    var n: nat :| Reaches(c, d, Moves(c, d, s)[0].next, s, n);
    assert Reaches(c, d, s, s, n + 1);
  }

  lemma ReachesForAll(c: Config, d: Durations, a: Spot, s: Spot)
    requires CanReach(c, d, a, s) && Goes(c, d, s)
    ensures forall k: nat :: !Halts(c, d, a, k)
  {
    hide Moves, Reaches, Halts;
    var n: nat :| Reaches(c, d, a, s, n);
    var m: nat :| m > 0 && Reaches(c, d, s, s, m);
    forall k: nat ensures !Halts(c, d, a, k) {
      if Halts(c, d, a, k) {
        HaltsAlong(c, d, a, s, n, k);
        CycleNeverHalts(c, d, s, m, k - n);
      }
    }
  }

  // ---------------------------------------------------------------- a trap that cannot spring

  /** A menu nothing returns to, with a return to itself in the branch that would follow. */
  const IDLE_TRAP := CollectDigit("menu", "greeting", false, 5000, 3, 2, [Branch('1', EndCall("one"))],
                                  EndCall("silence"), EndCall("other"), ReturnToMenu("back"))

  function IdleContext(i: nat): Context {
    Context(2, Some("menu"), if i == 3 then Some("menu") else None, true)
  }

  lemma Leaf(b: Block, c: Context)
    requires b.EndCall? || b.ReturnToMenu?
    ensures Flatten(b, c) == [Node(b, c)] && Children(b) == []
  {
    assert FlattenFrom(b, c, 0) == [];
  }

  lemma IdleChildren()
    ensures Children(IDLE_TRAP) == [EndCall("one"), EndCall("silence"), EndCall("other"), ReturnToMenu("back")]
  {
    var bs := [Branch('1', EndCall("one"))];
    assert bs[1..] == [];
    assert SortBranches(bs) == bs;
    assert Roots(bs) == [EndCall("one")];
  }

  lemma IdleNodes()
    ensures Nodes(IDLE_TRAP) ==
      [Node(IDLE_TRAP, TOP), Node(EndCall("one"), IdleContext(0)), Node(EndCall("silence"), IdleContext(1)),
       Node(EndCall("other"), IdleContext(2)), Node(ReturnToMenu("back"), IdleContext(3))]
  {
    IdleChildren();
    var b := IDLE_TRAP;
    hide Children, SortBranches;
    forall i | 0 <= i < 4 ensures Flatten(Children(b)[i], ChildContext(b, TOP, i)) == [Node(Children(b)[i], IdleContext(i))] {
      Leaf(Children(b)[i], ChildContext(b, TOP, i));
    }
    assert FlattenFrom(b, TOP, 4) == [];
    assert FlattenFrom(b, TOP, 3) == [Node(Children(b)[3], IdleContext(3))];
    assert FlattenFrom(b, TOP, 2) == [Node(Children(b)[2], IdleContext(2))] + FlattenFrom(b, TOP, 3);
    assert FlattenFrom(b, TOP, 1) == [Node(Children(b)[1], IdleContext(1))] + FlattenFrom(b, TOP, 2);
    assert FlattenFrom(b, TOP, 0) == [Node(Children(b)[0], IdleContext(0))] + FlattenFrom(b, TOP, 1);
  }

  lemma IdleCompiles()
    ensures Compilable(IDLE_TRAP)
  {
    IdleNodes();
    IdleChildren();
    var nodes := Nodes(IDLE_TRAP);
    forall k | 0 <= k < |nodes| ensures NodeOk(nodes[k]) {
      if k > 0 { Leaf(nodes[k].block, nodes[k].context); }
    }
    assert nodes[0].block.id == "menu" && nodes[1].block.id == "one" && nodes[2].block.id == "silence";
    assert nodes[3].block.id == "other" && nodes[4].block.id == "back";
    DifferentWords();
  }

  lemma DifferentWords()
    ensures "menu" != "one" && "menu" != "silence" && "menu" != "other" && "menu" != "back" && "one" != "silence"
    ensures "one" != "other" && "one" != "back" && "silence" != "other" && "silence" != "back" && "other" != "back"
  {
    assert |"menu"| == 4 && |"one"| == 3 && |"silence"| == 7 && |"other"| == 5 && |"back"| == 4 && "menu"[0] != "back"[0];
  }

  /** It is compiled without complaint, and the device refuses it all the same. */
  lemma IdleTrapCompilesButIsRefused(behavior: RecordingBehavior)
    ensures Compilable(IDLE_TRAP) && !Trapped(IDLE_TRAP)
    ensures exists s: nat :: s < |Nodes(IDLE_TRAP)| && A.SelfReturn(Nodes(IDLE_TRAP)[s])
    ensures !A.DeviceAccepts(TapeOf(IDLE_TRAP, behavior))
  {
    IdleCompiles();
    IdleNodes();
    assert A.SelfReturn(Nodes(IDLE_TRAP)[4]);
    hide Compilable, A.DeviceAccepts, TapeOf;
    A.CompilerVerifierAgree(IDLE_TRAP, behavior);
    IdleIsNotTrapped();
  }

  lemma IdleIsNotTrapped()
    requires Compilable(IDLE_TRAP)
    ensures !Trapped(IDLE_TRAP)
  {
    IdleNodes();
    IdleChildren();
    hide Compilable, Flatten, Children, Live, Nodes;
    var nodes := Nodes(IDLE_TRAP);
    forall k | 1 <= k < 5 ensures Children(nodes[k].block) == [] { Leaf(nodes[k].block, nodes[k].context); }
    forall s: nat | s < |nodes| && A.SelfReturn(nodes[s]) ensures !Live(IDLE_TRAP, s) {
      assert s == 4;
      var p, i := LiveAbove(IDLE_TRAP, 4);
      assert p == 0 && i == 3;
      assert LimitSlot(IDLE_TRAP, 0, 3);
      forall r: nat ensures !UsesUp(IDLE_TRAP, 0, r) {}
    }
  }
}
