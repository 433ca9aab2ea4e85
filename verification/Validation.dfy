/**
  `validate_configuration_v4` of server/app/validation.py: the walk behind the editor, which looks
  at everything and gathers complaints where the compiler stops at the first.

  It visits digit branches as saved, not in key order, so what it has seen is a multiset of nodes.
*/
module Validation {
  import opened Prelude
  import opened Flow
  import opened Tape
  import opened Simulation
  import opened Lowering
  import A = Agreement

  /** The prompts and schedules a configuration may name. */
  datatype Library = Library(prompts: set<string>, schedules: set<string>)

  /** Everything the walk asks of one block but that its id is new. */
  ghost predicate Sound(node: Node, library: Library) {
    && NodeOk(node)
    && !A.SelfReturn(node)
    && A.MenuUsable(node.block)
    && (node.block.PlayPrompt? ==> node.block.promptId != "")
    && Known(node.block, library)
  }

  predicate Known(b: Block, library: Library) {
    match b
    case PlayPrompt(_, promptId, _) => promptId != "" ==> promptId in library.prompts
    case CollectDigit(_, promptId, _, _, _, _, _, _, _, _) => promptId != "" ==> promptId in library.prompts
    case ScheduleBranch(_, scheduleId, _, _, _) => scheduleId != "" && scheduleId in library.schedules
    case _ => true
  }

  ghost predicate AllKnown(root: Block, library: Library) {
    forall k :: 0 <= k < |Nodes(root)| ==> Known(Nodes(root)[k].block, library)
  }

  // ---------------------------------------------------------------- bags of nodes

  ghost function IdsOf(m: multiset<Node>): set<Id> {
    set n | n in m :: IdOf(n.block)
  }

  ghost predicate AllSound(m: multiset<Node>, library: Library) {
    forall n :: n in m ==> Sound(n, library)
  }

  /** Nothing to complain about in these blocks when these ids are taken. */
  ghost predicate Tidy(m: multiset<Node>, seen: set<Id>, library: Library) {
    AllSound(m, library) && |IdsOf(m)| == |m| && IdsOf(m) !! seen
  }

  ghost predicate AtMost(m: multiset<Node>, depth: nat) {
    forall n :: n in m ==> n.context.depth <= depth
  }

  lemma IdsJoin(a: multiset<Node>, b: multiset<Node>)
    ensures IdsOf(a + b) == IdsOf(a) + IdsOf(b)
  {
  }

  lemma OneId(n: Node)
    ensures IdsOf(multiset{n}) == {IdOf(n.block)}
  {
  }

  lemma {:induction false} IdsAtMost(m: multiset<Node>)
    ensures |IdsOf(m)| <= |m|
    decreases |m|
  {
    if n: Node :| n in m {
      hide IdsOf;
      var rest := m - multiset{n};
      IdsAtMost(rest);
      assert m == rest + multiset{n};
      IdsJoin(rest, multiset{n});
      OneId(n);
    }
  }

  lemma TidyJoin(a: multiset<Node>, b: multiset<Node>, seen: set<Id>, library: Library)
    ensures Tidy(a + b, seen, library) <==> Tidy(a, seen, library) && Tidy(b, seen + IdsOf(a), library)
  {
    hide Sound, IdsOf;
    IdsJoin(a, b);
    IdsAtMost(a);
    IdsAtMost(b);
    assert |IdsOf(a) + IdsOf(b)| == |IdsOf(a)| + |IdsOf(b)| - |IdsOf(a) * IdsOf(b)|;
    assert forall n :: n in a + b <==> n in a || n in b;
    assert AllSound(a + b, library) <==> AllSound(a, library) && AllSound(b, library);
  }

  ghost predicate Listed(nodes: seq<Node>, id: Id) {
    exists i :: 0 <= i < |nodes| && IdOf(nodes[i].block) == id
  }

  lemma ListedIds(nodes: seq<Node>, id: Id)
    ensures id in IdsOf(multiset(nodes)) <==> Listed(nodes, id)
  {
    if id in IdsOf(multiset(nodes)) {
      var n: Node :| n in multiset(nodes) && IdOf(n.block) == id;
      var i :| 0 <= i < |nodes| && nodes[i] == n;
    }
    if Listed(nodes, id) {
      var i :| 0 <= i < |nodes| && IdOf(nodes[i].block) == id;
      assert nodes[i] in multiset(nodes);
    }
  }

  lemma DistinctNext(rest: seq<Node>, last: Node)
    ensures DistinctIds(rest + [last]) <==> DistinctIds(rest) && !Listed(rest, IdOf(last.block))
  {
    var nodes := rest + [last];
    assert forall i :: 0 <= i < |rest| ==> nodes[i] == rest[i];
    assert nodes[|rest|] == last;
  }

  /** A list repeats no id exactly when its bag has as many ids as blocks. */
  lemma {:induction false} IdsCount(nodes: seq<Node>)
    ensures |IdsOf(multiset(nodes))| == |nodes| <==> DistinctIds(nodes)
  {
    hide IdsOf, Listed, DistinctIds, IdOf;
    if nodes == [] {
      NoIds(nodes);
    } else {
      var last, rest := nodes[|nodes| - 1], nodes[..|nodes| - 1];
      assert nodes == rest + [last];
      IdsCount(rest);
      IdsAtMost(multiset(rest));
      IdsJoin(multiset(rest), multiset{last});
      OneId(last);
      assert multiset(nodes) == multiset(rest) + multiset{last};
      ListedIds(rest, IdOf(last.block));
      DistinctNext(rest, last);
    }
  }

  lemma NoIds(nodes: seq<Node>)
    requires nodes == []
    ensures IdsOf(multiset(nodes)) == {} && DistinctIds(nodes)
  {
  }

  // ---------------------------------------------------------------- the slots of a block

  /** A slot and the menu its blocks must not return to. */
  datatype Slot = Slot(block: Block, forbidden: Option<Id>)

  function BranchSlots(bs: seq<Branch>): (r: seq<Slot>)
    ensures |r| == |bs|
    ensures forall i :: 0 <= i < |bs| ==> r[i] == Slot(bs[i].root, None)
  {
    seq(|bs|, i requires 0 <= i < |bs| => Slot(bs[i].root, None))
  }

  /** The slots in the order in which the walk visits them. */
  function Slots(b: Block, forbidden: Option<Id>): (r: seq<Slot>)
    ensures forall i :: 0 <= i < |r| ==> r[i].block < b
  {
    match b
    case PlayPrompt(_, _, next) => [Slot(next, forbidden)]
    case RecordMessage(_, next, onUnavailable) => [Slot(next, forbidden), Slot(onUnavailable, forbidden)]
    case ExternalCall(_, _, _, next, onNotConnected, onSystemFailure) =>
      [Slot(next, forbidden), Slot(onNotConnected, forbidden), Slot(onSystemFailure, forbidden)]
    case CollectDigit(id, _, _, _, _, _, branches, onTimeout, onInvalid, onReturnLimit) =>
      assert forall i :: 0 <= i < |branches| ==> branches[i].root < b;
      BranchSlots(branches) + [Slot(onTimeout, None), Slot(onInvalid, None), Slot(onReturnLimit, Some(id))]
    case ScheduleBranch(_, _, onOpen, onClosed, onHoliday) =>
      [Slot(onOpen, forbidden), Slot(onClosed, forbidden), Slot(onHoliday, forbidden)]
    case _ => []
  }

  /** What the walk carries into every slot of a block. */
  function OwnerBelow(b: Block, owner: Option<Id>): Option<Id> {
    if b.CollectDigit? then Some(b.id) else owner
  }

  function NoticeBelow(b: Block, notice: bool): bool {
    notice || ((b.PlayPrompt? || b.CollectDigit?) && b.promptId != "")
  }

  ghost function Bag(b: Block, c: Context): multiset<Node> {
    multiset(Flatten(b, c))
  }

  /** The blocks behind slots at one depth, below one menu. */
  ghost function SlotBag(slots: seq<Slot>, depth: nat, owner: Option<Id>, notice: bool): multiset<Node> {
    if slots == [] then multiset{} else
      Bag(slots[0].block, Context(depth, owner, slots[0].forbidden, notice)) + SlotBag(slots[1..], depth, owner, notice)
  }

  lemma SlotBagNext(slots: seq<Slot>, depth: nat, owner: Option<Id>, notice: bool)
    requires slots != []
    ensures SlotBag(slots, depth, owner, notice) ==
            Bag(slots[0].block, Context(depth, owner, slots[0].forbidden, notice)) + SlotBag(slots[1..], depth, owner, notice)
  {
  }

  lemma {:induction false} SlotBagJoin(a: seq<Slot>, b: seq<Slot>, depth: nat, owner: Option<Id>, notice: bool)
    ensures SlotBag(a + b, depth, owner, notice) == SlotBag(a, depth, owner, notice) + SlotBag(b, depth, owner, notice)
  {
    hide Bag;
    if a == [] {
      assert a + b == b;
    } else {
      SlotBagNext(a + b, depth, owner, notice);
      SlotBagNext(a, depth, owner, notice);
      hide SlotBag;
      SlotBagJoin(a[1..], b, depth, owner, notice);
      assert (a + b)[1..] == a[1..] + b;
    }
  }

  /** The bag behind the slots of a branch and those after it. */
  lemma BranchesNext(b: Branch, bs: seq<Branch>, depth: nat, owner: Option<Id>, notice: bool)
    ensures SlotBag(BranchSlots([b] + bs), depth, owner, notice) ==
            Bag(b.root, Context(depth, owner, None, notice)) + SlotBag(BranchSlots(bs), depth, owner, notice)
  {
    hide Bag, SlotBag;
    SlotBagNext(BranchSlots([b] + bs), depth, owner, notice);
    assert BranchSlots([b] + bs)[1..] == BranchSlots(bs);
  }

  lemma {:induction false} InsertKeepsBag(b: Branch, bs: seq<Branch>, depth: nat, owner: Option<Id>, notice: bool)
    ensures SlotBag(BranchSlots(Insert(b, bs)), depth, owner, notice) ==
            SlotBag(BranchSlots([b] + bs), depth, owner, notice)
  {
    hide Bag, SlotBag, BranchSlots;
    if bs != [] && Rank(b.digit) > Rank(bs[0].digit) {
      InsertKeepsBag(b, bs[1..], depth, owner, notice);
      BranchesNext(bs[0], Insert(b, bs[1..]), depth, owner, notice);
      BranchesNext(b, bs[1..], depth, owner, notice);
      BranchesNext(b, bs, depth, owner, notice);
      BranchesNext(bs[0], bs[1..], depth, owner, notice);
      assert bs == [bs[0]] + bs[1..];
    }
  }

  /** Key order and saved order hold the same blocks. */
  lemma {:induction false} SortKeepsBag(bs: seq<Branch>, depth: nat, owner: Option<Id>, notice: bool)
    ensures SlotBag(BranchSlots(SortBranches(bs)), depth, owner, notice) == SlotBag(BranchSlots(bs), depth, owner, notice)
  {
    hide Bag, Insert, SlotBag;
    if bs != [] {
      SortKeepsBag(bs[1..], depth, owner, notice);
      var sorted := SortBranches(bs[1..]);
      InsertKeepsBag(bs[0], sorted, depth, owner, notice);
      BranchesNext(bs[0], sorted, depth, owner, notice);
      BranchesNext(bs[0], bs[1..], depth, owner, notice);
      assert bs == [bs[0]] + bs[1..];
    }
  }

  /** The slots of a block in numbering order. */
  ghost function NumberedSlots(b: Block, forbidden: Option<Id>): (r: seq<Slot>)
    ensures !b.CollectDigit? ==> r == Slots(b, forbidden)
    ensures |r| == |Children(b)|
  {
    if b.CollectDigit? then
      BranchSlots(SortBranches(b.branches)) + [Slot(b.onTimeout, None), Slot(b.onInvalid, None), Slot(b.onReturnLimit, Some(b.id))]
    else Slots(b, forbidden)
  }

  lemma NumberedSlotAt(b: Block, c: Context, i: nat)
    requires i < |Children(b)|
    ensures NumberedSlots(b, c.forbidden)[i] == Slot(Children(b)[i], ChildContext(b, c, i).forbidden)
  {
    hide SortBranches;
    if b.CollectDigit? {
      assert Children(b) == Roots(SortBranches(b.branches)) + [b.onTimeout, b.onInvalid, b.onReturnLimit];
    }
  }

  lemma ContextBelow(b: Block, c: Context, i: nat)
    requires i < |Children(b)|
    ensures ChildContext(b, c, i) ==
            Context(c.depth + 1, OwnerBelow(b, c.owner), ChildContext(b, c, i).forbidden, NoticeBelow(b, c.notice))
  {
    hide Children;
  }

  lemma FlattenFromNext(b: Block, c: Context, i: nat)
    requires i < |Children(b)|
    ensures multiset(FlattenFrom(b, c, i)) == Bag(Children(b)[i], ChildContext(b, c, i)) + multiset(FlattenFrom(b, c, i + 1))
  {
    hide Children, Flatten, ChildContext;
  }

  lemma FlattenFromEnd(b: Block, c: Context)
    ensures FlattenFrom(b, c, |Children(b)|) == []
  {
    hide Children;
  }

  lemma {:induction false} FlattenFromBag(b: Block, c: Context, i: nat)
    requires i <= |Children(b)|
    ensures multiset(FlattenFrom(b, c, i)) ==
            SlotBag(NumberedSlots(b, c.forbidden)[i..], c.depth + 1, OwnerBelow(b, c.owner), NoticeBelow(b, c.notice))
    decreases |Children(b)| - i
  {
    hide Children, NumberedSlots, ChildContext, Bag, OwnerBelow, NoticeBelow, FlattenFrom, SlotBag;
    var slots := NumberedSlots(b, c.forbidden);
    if i == |Children(b)| {
      FlattenFromEnd(b, c);
      assert slots[i..] == [];
      NoSlots(c.depth + 1, OwnerBelow(b, c.owner), NoticeBelow(b, c.notice));
    } else {
      FlattenFromNext(b, c, i);
      FlattenFromBag(b, c, i + 1);
      NumberedSlotAt(b, c, i);
      ContextBelow(b, c, i);
      SlotBagNext(slots[i..], c.depth + 1, OwnerBelow(b, c.owner), NoticeBelow(b, c.notice));
      assert slots[i..][1..] == slots[i + 1..];
    }
  }

  /** The blocks under a block are those behind its slots, in whatever order these are visited. */
  lemma BagOfSlots(b: Block, c: Context)
    requires !b.Empty?
    ensures Bag(b, c) == multiset{Node(b, c)} +
            SlotBag(Slots(b, c.forbidden), c.depth + 1, OwnerBelow(b, c.owner), NoticeBelow(b, c.notice))
  {
    hide Children, FlattenFrom, SlotBag;
    FlattenFromBag(b, c, 0);
    var slots := NumberedSlots(b, c.forbidden);
    assert slots[0..] == slots;
    if b.CollectDigit? {
      var rest := [Slot(b.onTimeout, None), Slot(b.onInvalid, None), Slot(b.onReturnLimit, Some(b.id))];
      SortKeepsBag(b.branches, c.depth + 1, Some(b.id), NoticeBelow(b, c.notice));
      SlotBagJoin(BranchSlots(SortBranches(b.branches)), rest, c.depth + 1, Some(b.id), NoticeBelow(b, c.notice));
      SlotBagJoin(BranchSlots(b.branches), rest, c.depth + 1, Some(b.id), NoticeBelow(b, c.notice));
    }
  }

  /** Whether some slot is free does not depend on the order. */
  lemma MissingInAnyOrder(b: Block, forbidden: Option<Id>)
    ensures Missing(Slots(b, forbidden)) <==> exists i :: 0 <= i < |Children(b)| && Children(b)[i].Empty?
  {
    hide SortBranches;
    var slots, children := Slots(b, forbidden), Children(b);
    if b.CollectDigit? {
      var bs, n := b.branches, |b.branches|;
      var sorted := SortBranches(bs);
      if i :| 0 <= i < |slots| && slots[i].block.Empty? {
        if i < n {
          SortMembers(bs, bs[i]);
          var j :| 0 <= j < |sorted| && sorted[j] == bs[i];
          assert children[j].Empty?;
        } else {
          assert slots[n + (i - n)].block == children[n + (i - n)];
        }
      }
      if i :| 0 <= i < |children| && children[i].Empty? {
        if i < n {
          SortMembers(bs, sorted[i]);
          var j :| 0 <= j < |bs| && bs[j] == sorted[i];
          assert slots[j].block.Empty?;
        } else {
          assert slots[n + (i - n)].block == children[n + (i - n)];
        }
      }
    } else {
      assert |slots| == |children| && forall i :: 0 <= i < |slots| ==> slots[i].block == children[i];
    }
  }

  ghost predicate Missing(slots: seq<Slot>) {
    exists i :: 0 <= i < |slots| && slots[i].block.Empty?
  }

  // ---------------------------------------------------------------- the walk

  /** Where the walk stands: the ids seen, whether it has complained, and how deep it has been. */
  datatype Tally = Tally(seen: set<Id>, failed: bool, maximumDepth: nat)

  /** What visiting these blocks makes of a tally. */
  ghost predicate Visited(m: multiset<Node>, library: Library, t: Tally, u: Tally) {
    && (t.failed ==> u.failed)
    && (!t.failed ==> (u.failed <==> !Tidy(m, t.seen, library)))
    && (!u.failed ==> u.seen == t.seen + IdsOf(m) && Deepest(m, t.maximumDepth, u.maximumDepth))
  }

  ghost predicate Deepest(m: multiset<Node>, was: nat, now: nat) {
    forall depth: nat :: Agrees(m, was, now, depth)
  }

  ghost predicate Agrees(m: multiset<Node>, was: nat, now: nat, depth: nat) {
    now <= depth <==> was <= depth && AtMost(m, depth)
  }

  lemma DeepestJoin(a: multiset<Node>, b: multiset<Node>, x: nat, y: nat, z: nat)
    requires Deepest(a, x, y) && Deepest(b, y, z)
    ensures Deepest(a + b, x, z)
  {
    hide AtMost;
    forall depth: nat ensures Agrees(a + b, x, z, depth) {
      assert Agrees(a, x, y, depth) && Agrees(b, y, z, depth);
      AtMostJoin(a, b, depth);
    }
  }

  lemma AtMostJoin(a: multiset<Node>, b: multiset<Node>, depth: nat)
    ensures AtMost(a + b, depth) <==> AtMost(a, depth) && AtMost(b, depth)
  {
    assert forall n :: n in a + b <==> n in a || n in b;
  }

  lemma VisitedJoin(a: multiset<Node>, b: multiset<Node>, library: Library, t: Tally, u: Tally, v: Tally)
    requires Visited(a, library, t, u) && Visited(b, library, u, v)
    ensures Visited(a + b, library, t, v)
  {
    hide Tidy, IdsOf, Deepest;
    TidyJoin(a, b, t.seen, library);
    IdsJoin(a, b);
    if !v.failed { DeepestJoin(a, b, t.maximumDepth, u.maximumDepth, v.maximumDepth); }
  }

  lemma VisitedNone(library: Library, t: Tally)
    ensures Visited(multiset{}, library, t, t)
  {
    assert IdsOf(multiset{}) == {};
  }

  /** A block whose id is new adds its own complaint, if any. */
  lemma VisitedOne(n: Node, library: Library, t: Tally, u: Tally)
    requires IdOf(n.block) !in t.seen
    requires u == Tally(t.seen + {IdOf(n.block)}, t.failed || !Sound(n, library), if n.context.depth > t.maximumDepth then n.context.depth else t.maximumDepth)
    ensures Visited(multiset{n}, library, t, u)
  {
    hide Sound;
    OneId(n);
    assert AllSound(multiset{n}, library) <==> Sound(n, library);
    forall depth: nat ensures Agrees(multiset{n}, t.maximumDepth, u.maximumDepth, depth) {
      assert AtMost(multiset{n}, depth) <==> n.context.depth <= depth;
    }
  }

  /** A block seen before is a complaint whatever lies below it. */
  lemma VisitedTwice(b: Block, c: Context, library: Library, t: Tally, u: Tally)
    requires !b.Empty? && b.id in t.seen && u.failed
    ensures Visited(Bag(b, c), library, t, u)
  {
    hide Flatten, AllSound;
    assert Flatten(b, c)[0] == Node(b, c);
    assert Node(b, c) in Bag(b, c);
    assert b.id in IdsOf(Bag(b, c));
  }

  lemma SoundBlock(b: Block, c: Context, library: Library)
    requires !b.Empty?
    ensures Sound(Node(b, c), library) <==>
      && !Missing(Slots(b, c.forbidden))
      && BlockOk(b, c.owner, c.forbidden, c.notice, library)
  {
    hide Children, Slots, Known, DistinctDigits, Missing;
    MissingInAnyOrder(b, c.forbidden);
  }

  /** What the walk asks of a block whose slots are all filled. */
  ghost predicate BlockOk(b: Block, owner: Option<Id>, forbidden: Option<Id>, notice: bool, library: Library) {
    && Known(b, library)
    && (b.PlayPrompt? ==> b.promptId != "")
    && (b.RecordMessage? || b.ExternalCall? ==> notice)
    && (b.CollectDigit? ==>
          && |b.branches| >= 1 && DistinctDigits(b.branches)
          && (b.allowPromptBargeIn ==> b.promptId != ""))
    && (b.ReturnToMenu? ==> owner.Some? && owner != forbidden)
  }

  function Digits(bs: seq<Branch>): (r: set<Key>) {
    set b <- bs :: b.digit
  }

  lemma DigitsNext(rest: seq<Branch>, last: Branch)
    ensures Digits(rest + [last]) == Digits(rest) + {last.digit}
    ensures DistinctDigits(rest + [last]) <==> DistinctDigits(rest) && last.digit !in Digits(rest)
  {
    var bs := rest + [last];
    assert forall i :: 0 <= i < |rest| ==> rest[i] == bs[i];
    assert bs[|rest|] == last;
  }

  lemma {:induction false} DigitsCount(bs: seq<Branch>)
    ensures |Digits(bs)| <= |bs|
    ensures |Digits(bs)| == |bs| <==> DistinctDigits(bs)
  {
    if bs != [] {
      hide Digits, DistinctDigits;
      var last, rest := bs[|bs| - 1], bs[..|bs| - 1];
      assert bs == rest + [last];
      DigitsCount(rest);
      DigitsNext(rest, last);
    }
  }

  class Validator {
    const library: Library
    var seen: set<Id>
    var failed: bool
    var maximumDepth: nat

    ghost function Now(): Tally
      reads this
    {
      Tally(seen, failed, maximumDepth)
    }

    constructor (library: Library)
      ensures this.library == library && Now() == Tally({}, false, 0)
    {
      this.library, seen, failed, maximumDepth := library, {}, false, 0;
    }

    /** `visit`: complains unless the subtree is tidy, and never stops early but at a repeated id. */
    method Visit(block: Block, depth: nat, owner: Option<Id>, forbidden: Option<Id>, promptAvailable: bool)
      requires !block.Empty?
      modifies this
      ensures Visited(Bag(block, Context(depth, owner, forbidden, promptAvailable)), library, old(Now()), Now())
      decreases block, 1, 0
    {
      hide Visited, Bag, Sound, Slots, BlockOk, Missing, SlotBag, IdsOf;
      ghost var c := Context(depth, owner, forbidden, promptAvailable);
      maximumDepth := if depth > maximumDepth then depth else maximumDepth;
      if block.id in seen {
        failed := true;
        VisitedTwice(block, c, library, old(Now()), Now());
        return;
      }
      seen := seen + {block.id};
      var complaint := Complains(block, owner, forbidden, promptAvailable);
      failed := failed || complaint;
      SoundBlock(block, c, library);
      VisitedOne(Node(block, c), library, old(Now()), Now());
      ghost var here := Now();
      VisitSlots(block, Slots(block, forbidden), depth + 1, OwnerBelow(block, owner), NoticeBelow(block, promptAvailable));
      BagOfSlots(block, c);
      VisitedJoin(multiset{Node(block, c)}, SlotBag(Slots(block, forbidden), depth + 1, OwnerBelow(block, owner), NoticeBelow(block, promptAvailable)), library, old(Now()), here, Now());
    }

    /** The checks `visit` makes at one block, its free slots among them. */
    method Complains(block: Block, owner: Option<Id>, forbidden: Option<Id>, promptAvailable: bool) returns (complaint: bool)
      requires !block.Empty?
      ensures complaint <==> Missing(Slots(block, forbidden)) || !BlockOk(block, owner, forbidden, promptAvailable, library)
    {
      var slots := Slots(block, forbidden);
      complaint := false;
      var i := 0;
      while i < |slots|
        invariant 0 <= i <= |slots|
        invariant complaint <==> Missing(slots[..i])
      {
        hide Slots;
        complaint := complaint || slots[i].block == Empty;
        assert slots[..i + 1] == slots[..i] + [slots[i]];
        MissingNext(slots[..i], slots[i]);
        i := i + 1;
      }
      assert slots[..i] == slots;
      hide Slots, Missing, DistinctDigits;
      if !Known(block, library) { complaint := true; }
      match block {
        case PlayPrompt(_, promptId, _) => if promptId == "" { complaint := true; }
        case RecordMessage(_, _, _) => if !promptAvailable { complaint := true; }
        case ExternalCall(_, _, _, _, _, _) => if !promptAvailable { complaint := true; }
        case CollectDigit(_, promptId, bargeIn, _, _, _, branches, _, _, _) =>
          if bargeIn && promptId == "" { complaint := true; }
          if |branches| == 0 { complaint := true; }
          DigitsCount(branches);
          if |branches| != |Digits(branches)| { complaint := true; }
        case ReturnToMenu(_) =>
          if owner.None? { complaint := true; } else if owner == forbidden { complaint := true; }
        case _ =>
      }
    }

    /** The loops of `visit` over the slots of a block. */
    method VisitSlots(block: Block, slots: seq<Slot>, depth: nat, owner: Option<Id>, promptAvailable: bool)
      requires forall i :: 0 <= i < |slots| ==> slots[i].block < block
      modifies this
      ensures Visited(SlotBag(slots, depth, owner, promptAvailable), library, old(Now()), Now())
      decreases block, 0, 0
    {
      hide Visited, Bag, SlotBag;
      VisitedNone(library, Now());
      NoSlots(depth, owner, promptAvailable);
      var i := 0;
      while i < |slots|
        invariant 0 <= i <= |slots|
        invariant Visited(SlotBag(slots[..i], depth, owner, promptAvailable), library, old(Now()), Now())
      {
        ghost var was := Now();
        ghost var bag := Bag(slots[i].block, Context(depth, owner, slots[i].forbidden, promptAvailable));
        if slots[i].block != Empty {
          Visit(slots[i].block, depth, owner, slots[i].forbidden, promptAvailable);
        } else {
          NoBlocks(Context(depth, owner, slots[i].forbidden, promptAvailable));
          VisitedNone(library, Now());
        }
        VisitedJoin(SlotBag(slots[..i], depth, owner, promptAvailable), bag, library, old(Now()), was, Now());
        assert slots[..i + 1] == slots[..i] + [slots[i]];
        SlotBagJoin(slots[..i], [slots[i]], depth, owner, promptAvailable);
        OneSlot(slots[i], depth, owner, promptAvailable);
        i := i + 1;
      }
      assert slots[..i] == slots;
    }
  }

  lemma MissingNext(slots: seq<Slot>, slot: Slot)
    ensures Missing(slots + [slot]) <==> Missing(slots) || slot.block.Empty?
  {
    assert (slots + [slot])[|slots|] == slot;
    assert forall i :: 0 <= i < |slots| ==> (slots + [slot])[i] == slots[i];
  }

  lemma NoSlots(depth: nat, owner: Option<Id>, notice: bool)
    ensures SlotBag([], depth, owner, notice) == multiset{}
  {
  }

  lemma NoBlocks(c: Context)
    ensures Bag(Empty, c) == multiset{}
  {
  }

  lemma OneSlot(slot: Slot, depth: nat, owner: Option<Id>, notice: bool)
    ensures SlotBag([slot], depth, owner, notice) == Bag(slot.block, Context(depth, owner, slot.forbidden, notice))
  {
    hide Bag;
    SlotBagNext([slot], depth, owner, notice);
    NoSlots(depth, owner, notice);
  }

  /** A whole walk without complaint saw a compilable flow, all known, with the limits but for size. */
  lemma TidyMeaning(root: Block, library: Library)
    requires !root.Empty?
    ensures Tidy(Bag(root, TOP), {}, library) <==>
      && Compilable(root) && AllKnown(root, library)
      && A.NoSelfReturn(root) && A.PromptsChosen(root)
      && forall k :: 0 <= k < |Nodes(root)| ==> A.MenuUsable(Nodes(root)[k].block)
  {
    hide Flatten, NodeOk, A.SelfReturn, A.MenuUsable, DistinctIds, Known, IdsOf;
    var nodes := Nodes(root);
    IdsCount(nodes);
    assert forall k :: 0 <= k < |nodes| ==> nodes[k] in multiset(nodes);
    assert AllSound(multiset(nodes), library) <==> forall k :: 0 <= k < |nodes| ==> Sound(nodes[k], library);
  }

  lemma DepthMeaning(root: Block, depth: nat)
    ensures AtMost(Bag(root, TOP), depth) <==> forall k :: 0 <= k < |Nodes(root)| ==> Nodes(root)[k].context.depth <= depth
  {
    hide Flatten;
    var nodes := Nodes(root);
    assert forall k :: 0 <= k < |nodes| ==> nodes[k] in multiset(nodes);
  }

  /** `validate_configuration_v4`, the flow's part: no complaint exactly for a compilable flow within the limits. */
  method ValidateConfigurationV4(root: Block, library: Library) returns (ok: bool)
    ensures ok <==> Compilable(root) && A.WithinLimits(root) && AllKnown(root, library)
  {
    hide Flatten, Tidy, AtMost, IdsOf, Bag, Compilable, AllKnown, A.NoSelfReturn, A.PromptsChosen, A.MenuUsable;
    if root == Empty {
      NothingToCompile();
      return false;
    }
    var validator := new Validator(library);
    validator.Visit(root, 1, None, None, false);
    TidyMeaning(root, library);
    DepthMeaning(root, MAXIMUM_DEPTH);
    if !validator.failed {
      SeenSize(root, library);
      assert Agrees(Bag(root, TOP), 0, validator.maximumDepth, MAXIMUM_DEPTH);
    }
    ok := !validator.failed && |validator.seen| <= MAXIMUM_NODES && validator.maximumDepth <= MAXIMUM_DEPTH;
  }

  lemma NothingToCompile()
    ensures !Compilable(Empty)
  {
  }

  lemma SeenSize(root: Block, library: Library)
    requires Tidy(Bag(root, TOP), {}, library)
    ensures |IdsOf(Bag(root, TOP))| == |Nodes(root)|
  {
  }
}
