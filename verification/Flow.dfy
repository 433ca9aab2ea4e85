/**
  The owned block tree of a V4 flow: server/app/schemas.py and server/app/flow_v2.py.

  A slot that holds no block (`None` in the schema) is the block `Empty`.  The tree is
  laid out in pre-order by `Flatten`, which also records for every block what the
  recursive walks of the compiler and of the device verifier carry down to it.
*/
module Flow {
  import opened Prelude

  type Id = string

  predicate IsKey(c: char) {
    '0' <= c <= '9' || c == '*' || c == '#'
  }

  type Key = c: char | IsKey(c) witness '0'
  type TimeoutMs = n: nat | 1000 <= n <= 15000 witness 5000
  type Attempts = n: nat | 1 <= n <= 3 witness 3
  type MenuReturns = n: nat | 1 <= n <= 3 witness 2
  type AnswerSeconds = n: nat | 5 <= n <= 120 witness 30
  type RecordingSeconds = n: nat | 10 <= n <= 180 witness 60

  datatype Branch = Branch(digit: Key, root: Block)

  datatype Block =
    | Empty
    | PlayPrompt(id: Id, promptId: string, next: Block)
    | CollectDigit(id: Id, promptId: string, allowPromptBargeIn: bool, timeoutMs: TimeoutMs,
                   maximumAttempts: Attempts, maximumMenuReturns: MenuReturns, branches: seq<Branch>,
                   onTimeout: Block, onInvalid: Block, onReturnLimit: Block)
    | ScheduleBranch(id: Id, scheduleId: string, onOpen: Block, onClosed: Block, onHoliday: Block)
    | RecordMessage(id: Id, next: Block, onUnavailable: Block)
    | ExternalCall(id: Id, phoneNumber: string, answerSeconds: AnswerSeconds,
                   next: Block, onNotConnected: Block, onSystemFailure: Block)
    | ReturnToMenu(id: Id)
    | EndCall(id: Id)

  // ---------------------------------------------------------------- digit order

  const DTMF_ORDER := "0123456789*#"

  function Rank(k: Key): (r: nat)
    ensures r < |DTMF_ORDER| && DTMF_ORDER[r] == k
  {
    if '0' <= k <= '9' then k as int - '0' as int else if k == '*' then 10 else 11
  }

  ghost predicate DistinctDigits(bs: seq<Branch>) {
    forall i, j :: 0 <= i < j < |bs| ==> bs[i].digit != bs[j].digit
  }

  ghost predicate RanksIncrease(bs: seq<Branch>) {
    forall i, j :: 0 <= i < j < |bs| ==> Rank(bs[i].digit) < Rank(bs[j].digit)
  }

  ghost predicate RanksSorted(bs: seq<Branch>) {
    forall i, j :: 0 <= i < j < |bs| ==> Rank(bs[i].digit) <= Rank(bs[j].digit)
  }

  /** The position of a branch in a list already in key order, ahead of its equals. */
  function Insert(b: Branch, bs: seq<Branch>): (r: seq<Branch>)
    ensures multiset(r) == multiset{b} + multiset(bs)
    ensures |r| == |bs| + 1
  {
    if bs == [] || Rank(b.digit) <= Rank(bs[0].digit) then [b] + bs
    else
      assert bs == [bs[0]] + bs[1..];
      [bs[0]] + Insert(b, bs[1..])
  }

  /** Python's stable `sorted` by the position of the key in DTMF_ORDER. */
  function SortBranches(bs: seq<Branch>): (r: seq<Branch>)
    ensures multiset(r) == multiset(bs)
    ensures |r| == |bs|
  {
    if bs == [] then [] else
      assert bs == [bs[0]] + bs[1..];
      Insert(bs[0], SortBranches(bs[1..]))
  }

  lemma {:induction false} InsertSorted(b: Branch, bs: seq<Branch>)
    requires RanksSorted(bs)
    ensures RanksSorted(Insert(b, bs))
  {
    if bs == [] || Rank(b.digit) <= Rank(bs[0].digit) {
    } else {
      InsertSorted(b, bs[1..]);
      var rest := Insert(b, bs[1..]);
      forall j | 0 <= j < |rest| ensures Rank(bs[0].digit) <= Rank(rest[j].digit) {
        assert rest[j] in multiset(rest);
        assert rest[j] == b || rest[j] in bs[1..];
      }
    }
  }

  lemma {:induction false} SortBranchesSorted(bs: seq<Branch>)
    ensures RanksSorted(SortBranches(bs))
  {
    if bs != [] {
      SortBranchesSorted(bs[1..]);
      InsertSorted(bs[0], SortBranches(bs[1..]));
    }
  }

  /** Membership survives sorting, in both directions. */
  lemma SortMembers(bs: seq<Branch>, b: Branch)
    ensures b in SortBranches(bs) <==> b in bs
  {
    assert b in multiset(bs) <==> b in multiset(SortBranches(bs));
  }

  lemma {:induction false} DistinctByCount(bs: seq<Branch>)
    ensures DistinctDigits(bs) ==> forall b :: b in bs ==> multiset(bs)[b] == 1
  {
    if DistinctDigits(bs) && bs != [] {
      assert bs == [bs[0]] + bs[1..];
      DistinctByCount(bs[1..]);
      assert bs[0] !in bs[1..];
    }
  }

  /** Two entries of a list with the same value make that value occur twice. */
  lemma TwiceCounts(bs: seq<Branch>, i: int, j: int)
    requires 0 <= i < j < |bs| && bs[i] == bs[j]
    ensures multiset(bs)[bs[i]] >= 2
  {
    assert bs == bs[..j] + ([bs[j]] + bs[j + 1..]);
    assert bs[i] == bs[..j][i];
    assert bs[i] in multiset(bs[..j]);
  }

  lemma SortDistinct(bs: seq<Branch>)
    requires DistinctDigits(bs)
    ensures DistinctDigits(SortBranches(bs))
  {
    var s := SortBranches(bs);
    forall i, j | 0 <= i < j < |s| ensures s[i].digit != s[j].digit {
      SortMembers(bs, s[i]);
      SortMembers(bs, s[j]);
      if s[i] == s[j] {
        TwiceCounts(s, i, j);
        DistinctByCount(bs);
      }
    }
  }

  lemma StrictIfDistinct(bs: seq<Branch>)
    requires DistinctDigits(bs)
    ensures RanksIncrease(SortBranches(bs))
  {
    hide SortBranches;
    var s := SortBranches(bs);
    SortBranchesSorted(bs);
    SortDistinct(bs);
    forall i, j | 0 <= i < j < |s| ensures Rank(s[i].digit) < Rank(s[j].digit) {
      assert DTMF_ORDER[Rank(s[i].digit)] == s[i].digit;
    }
  }

  lemma DistinctIfStrict(bs: seq<Branch>)
    requires RanksIncrease(SortBranches(bs))
    ensures DistinctDigits(bs)
  {
    hide SortBranches;
    var s := SortBranches(bs);
    DistinctByCount(s);
    forall i, j | 0 <= i < j < |bs| ensures bs[i].digit != bs[j].digit {
      SortMembers(bs, bs[i]);
      SortMembers(bs, bs[j]);
      var a :| 0 <= a < |s| && s[a] == bs[i];
      var c :| 0 <= c < |s| && s[c] == bs[j];
      if a == c {
        TwiceCounts(bs, i, j);
      }
    }
  }

  /** The order the device parser demands of COLLECT branches holds exactly for distinct keys. */
  lemma SortedStrictlyIffDistinct(bs: seq<Branch>)
    ensures RanksIncrease(SortBranches(bs)) <==> DistinctDigits(bs)
  {
    if DistinctDigits(bs) { StrictIfDistinct(bs); }
    if RanksIncrease(SortBranches(bs)) { DistinctIfStrict(bs); }
  }

  // ---------------------------------------------------------------- the tree

  function Roots(bs: seq<Branch>): (r: seq<Block>)
    ensures |r| == |bs|
    ensures forall i :: 0 <= i < |bs| ==> r[i] == bs[i].root
  {
    seq(|bs|, i requires 0 <= i < |bs| => bs[i].root)
  }

  lemma SortedRootsSmaller(b: Block)
    requires b.CollectDigit?
    ensures forall i :: 0 <= i < |b.branches| ==> SortBranches(b.branches)[i].root < b
  {
    hide SortBranches;
    forall i | 0 <= i < |b.branches| ensures SortBranches(b.branches)[i].root < b {
      SortMembers(b.branches, SortBranches(b.branches)[i]);
      var j :| 0 <= j < |b.branches| && b.branches[j] == SortBranches(b.branches)[i];
      assert b.branches[j].root < b;
    }
  }

  /** `owned_children`: the slots of a block, digit branches first and the return limit last. */
  function Children(b: Block): (cs: seq<Block>)
    ensures forall i :: 0 <= i < |cs| ==> cs[i] < b
    ensures b.CollectDigit? ==> |cs| == |b.branches| + 3
  {
    match b
    case PlayPrompt(_, _, next) => [next]
    case CollectDigit(_, _, _, _, _, _, branches, onTimeout, onInvalid, onReturnLimit) =>
      SortedRootsSmaller(b);
      Roots(SortBranches(branches)) + [onTimeout, onInvalid, onReturnLimit]
    case ScheduleBranch(_, _, onOpen, onClosed, onHoliday) => [onOpen, onClosed, onHoliday]
    case RecordMessage(_, next, onUnavailable) => [next, onUnavailable]
    case ExternalCall(_, _, _, next, onNotConnected, onSystemFailure) => [next, onNotConnected, onSystemFailure]
    case _ => []
  }

  /** What a walk from the root carries to a block. */
  datatype Context = Context(
    depth: nat,
    owner: Option<Id>,      // the innermost menu above the block
    forbidden: Option<Id>,  // that menu, when the block lies in its return-limit branch
    notice: bool)           // a prompt has been chosen somewhere above

  datatype Node = Node(block: Block, context: Context)

  const TOP := Context(1, None, None, false)

  function ChildContext(b: Block, c: Context, i: nat): Context
    requires i < |Children(b)|
  {
    Context(
      c.depth + 1,
      if b.CollectDigit? then Some(b.id) else c.owner,
      if b.CollectDigit? then (if i == |Children(b)| - 1 then Some(b.id) else None) else c.forbidden,
      c.notice || ((b.PlayPrompt? || b.CollectDigit?) && b.promptId != ""))
  }

  /** The blocks of a subtree in the order in which they are numbered. */
  function Flatten(b: Block, c: Context): (r: seq<Node>)
    ensures r == [] <==> b.Empty?
    ensures r != [] ==> r[0] == Node(b, c)
    decreases b, |Children(b)| + 1
  {
    if b.Empty? then [] else [Node(b, c)] + FlattenFrom(b, c, 0)
  }

  function FlattenFrom(b: Block, c: Context, i: nat): seq<Node>
    requires i <= |Children(b)|
    decreases b, |Children(b)| - i
  {
    if i == |Children(b)| then [] else
      Flatten(Children(b)[i], ChildContext(b, c, i)) + FlattenFrom(b, c, i + 1)
  }

  ghost function Size(b: Block): (n: nat)
    decreases b, |Children(b)| + 1
  {
    if b.Empty? then 0 else 1 + SizeFrom(b, 0)
  }

  ghost function SizeFrom(b: Block, i: nat): nat
    requires i <= |Children(b)|
    decreases b, |Children(b)| - i
  {
    if i == |Children(b)| then 0 else Size(Children(b)[i]) + SizeFrom(b, i + 1)
  }

  /** How far behind a block its i-th child is numbered. */
  ghost function Offset(b: Block, i: nat): nat
    requires i <= |Children(b)|
  {
    if i == 0 then 1 else Offset(b, i - 1) + Size(Children(b)[i - 1])
  }

  lemma {:induction false} FlattenLength(b: Block, c: Context)
    ensures |Flatten(b, c)| == Size(b)
    decreases b, |Children(b)| + 1
  {
    hide Children;
    if !b.Empty? { FlattenFromLength(b, c, 0); }
  }

  lemma {:induction false} FlattenFromLength(b: Block, c: Context, i: nat)
    requires i <= |Children(b)|
    ensures |FlattenFrom(b, c, i)| == SizeFrom(b, i)
    decreases b, |Children(b)| - i
  {
    hide Children;
    if i < |Children(b)| {
      FlattenLength(Children(b)[i], ChildContext(b, c, i));
      FlattenFromLength(b, c, i + 1);
    }
  }

  lemma {:induction false} OffsetAndRest(b: Block, i: nat)
    requires !b.Empty? && i <= |Children(b)|
    ensures Offset(b, i) + SizeFrom(b, i) == Size(b)
  {
    hide Children;
    if i > 0 { OffsetAndRest(b, i - 1); }
  }

  /** From the i-th child on, the layout of a block is the layout of its remaining children. */
  lemma {:induction false} FlattenTail(b: Block, c: Context, i: nat)
    requires !b.Empty? && i <= |Children(b)|
    ensures Offset(b, i) <= |Flatten(b, c)|
    ensures Flatten(b, c)[Offset(b, i)..] == FlattenFrom(b, c, i)
  {
    hide Children;
    FlattenLength(b, c);
    OffsetAndRest(b, i);
    if i > 0 {
      FlattenTail(b, c, i - 1);
      var child := Children(b)[i - 1];
      FlattenLength(child, ChildContext(b, c, i - 1));
      var whole := Flatten(b, c);
      var from := Offset(b, i - 1);
      assert whole[Offset(b, i)..] == whole[from..][Size(child)..];
    }
  }

  /** The layout of the i-th child sits at its offset. */
  lemma ChildSlice(b: Block, c: Context, i: nat)
    requires !b.Empty? && i < |Children(b)|
    ensures Offset(b, i) + Size(Children(b)[i]) == Offset(b, i + 1) <= |Flatten(b, c)|
    ensures Flatten(b, c)[Offset(b, i)..Offset(b, i + 1)] == Flatten(Children(b)[i], ChildContext(b, c, i))
  {
    hide Children;
    FlattenTail(b, c, i);
    FlattenTail(b, c, i + 1);
    var child := Children(b)[i];
    FlattenLength(child, ChildContext(b, c, i));
    var whole := Flatten(b, c);
    assert whole[Offset(b, i)..Offset(b, i + 1)] == whole[Offset(b, i)..][..Size(child)];
  }

  /** Every later position of a layout belongs to exactly one child. */
  lemma {:induction false} LocateChild(b: Block, i: nat, k: nat) returns (j: nat)
    requires !b.Empty? && i <= |Children(b)| && Offset(b, i) <= k < Size(b)
    ensures i <= j < |Children(b)| && Offset(b, j) <= k < Offset(b, j + 1)
    decreases |Children(b)| - i
  {
    hide Children;
    OffsetAndRest(b, i);
    if k < Offset(b, i + 1) {
      j := i;
    } else {
      j := LocateChild(b, i + 1, k);
    }
  }

  lemma SliceOfSlice<T>(s: seq<T>, from: nat, to: nat, k: nat, n: nat)
    requires from <= k < to <= |s| && k + n <= to
    ensures s[from..to][k - from] == s[k]
    ensures s[from..to][k - from..k - from + n] == s[k..k + n]
  {
    assert s[from..to] == s[from..k] + s[k..k + n] + s[k + n..to];
  }

  /** The positions behind a block hold precisely that block's own layout. */
  lemma {:induction false} Subtree(b: Block, c: Context, k: nat)
    requires k < |Flatten(b, c)|
    ensures var node := Flatten(b, c)[k];
            && !node.block.Empty?
            && k + Size(node.block) <= |Flatten(b, c)|
            && Flatten(b, c)[k..k + Size(node.block)] == Flatten(node.block, node.context)
    decreases b
  {
    hide Children;
    FlattenLength(b, c);
    if k == 0 {
      assert Flatten(b, c)[0..Size(b)] == Flatten(b, c);
    } else {
      var i := LocateChild(b, 0, k);
      ChildSlice(b, c, i);
      var child, cc := Children(b)[i], ChildContext(b, c, i);
      FlattenLength(child, cc);
      Subtree(child, cc, k - Offset(b, i));
      SliceOfSlice(Flatten(b, c), Offset(b, i), Offset(b, i + 1), k, Size(Flatten(child, cc)[k - Offset(b, i)].block));
    }
  }

  /** Going down: the i-th child of the block at k is at k plus its offset. */
  lemma Down(b: Block, c: Context, k: nat, i: nat)
    requires k < |Flatten(b, c)|
    requires i < |Children(Flatten(b, c)[k].block)|
    ensures var whole, parent := Flatten(b, c), Flatten(b, c)[k];
            var child, at := Children(parent.block)[i], k + Offset(parent.block, i);
            && k < at && at + Size(child) <= k + Size(parent.block) <= |whole|
            && (!child.Empty? ==> at < |whole| && whole[at] == Node(child, ChildContext(parent.block, parent.context, i)))
  {
    hide Children;
    Subtree(b, c, k);
    var whole, parent := Flatten(b, c), Flatten(b, c)[k];
    var child, at := Children(parent.block)[i], Offset(parent.block, i);
    ChildSlice(parent.block, parent.context, i);
    FlattenLength(parent.block, parent.context);
    var own := Flatten(parent.block, parent.context);
    OffsetPositive(parent.block, i);
    assert own == whole[k..k + Size(parent.block)];
    var part := Flatten(child, ChildContext(parent.block, parent.context, i));
    FlattenLength(child, ChildContext(parent.block, parent.context, i));
    if !child.Empty? {
      assert part[0] == own[at..at + Size(child)][0] == own[at] == whole[k + at];
    }
  }

  lemma {:induction false} OffsetPositive(b: Block, i: nat)
    requires i <= |Children(b)|
    ensures Offset(b, i) >= 1
  {
    hide Children;
    if i > 0 { OffsetPositive(b, i - 1); }
  }

  lemma {:induction false} OffsetGrows(b: Block, i: nat, j: nat)
    requires i < j <= |Children(b)|
    ensures Offset(b, i) + Size(Children(b)[i]) <= Offset(b, j)
  {
    hide Children;
    if i + 1 < j { OffsetGrows(b, i, j - 1); }
  }

  /** Going up: every block but the root is some child of an earlier one. */
  lemma {:induction false} Up(b: Block, c: Context, k: nat) returns (p: nat, i: nat)
    requires 0 < k < |Flatten(b, c)|
    ensures p < k && i < |Children(Flatten(b, c)[p].block)|
    ensures var parent := Flatten(b, c)[p];
            && k == p + Offset(parent.block, i)
            && Flatten(b, c)[k] == Node(Children(parent.block)[i], ChildContext(parent.block, parent.context, i))
    decreases b
  {
    hide Children;
    FlattenLength(b, c);
    var whole := Flatten(b, c);
    i := LocateChild(b, 0, k);
    ChildSlice(b, c, i);
    OffsetPositive(b, i);
    var child, cc := Children(b)[i], ChildContext(b, c, i);
    var from, part := Offset(b, i), Flatten(Children(b)[i], ChildContext(b, c, i));
    assert forall x :: 0 <= x < |part| ==> part[x] == whole[from + x];
    if k == from {
      p := 0;
    } else {
      p, i := Up(child, cc, k - from);
      p := p + from;
    }
  }

  // ---------------------------------------------------------------- walk_blocks

  /** The (block, depth) pairs of a subtree in numbering order. */
  function Walk(b: Block, depth: nat): seq<(Block, nat)>
    decreases b, |Children(b)| + 1
  {
    if b.Empty? then [] else [(b, depth)] + WalkFrom(b, depth, 0)
  }

  function WalkFrom(b: Block, depth: nat, i: nat): seq<(Block, nat)>
    requires i <= |Children(b)|
    decreases b, |Children(b)| - i
  {
    if i == |Children(b)| then [] else Walk(Children(b)[i], depth + 1) + WalkFrom(b, depth, i + 1)
  }

  function Depths(nodes: seq<Node>): (r: seq<(Block, nat)>)
    ensures |r| == |nodes|
  {
    seq(|nodes|, i requires 0 <= i < |nodes| => (nodes[i].block, nodes[i].context.depth))
  }

  /** The walk sees the blocks exactly as the compiler numbers them. */
  lemma {:induction false} WalkIsNumbering(b: Block, c: Context)
    ensures Walk(b, c.depth) == Depths(Flatten(b, c))
    decreases b, |Children(b)| + 1
  {
    hide Children;
    if !b.Empty? {
      WalkFromIsNumbering(b, c, 0);
      assert Depths([Node(b, c)] + FlattenFrom(b, c, 0)) == [(b, c.depth)] + Depths(FlattenFrom(b, c, 0));
    }
  }

  lemma {:induction false} WalkFromIsNumbering(b: Block, c: Context, i: nat)
    requires i <= |Children(b)|
    ensures WalkFrom(b, c.depth, i) == Depths(FlattenFrom(b, c, i))
    decreases b, |Children(b)| - i
  {
    hide Children;
    if i < |Children(b)| {
      var first, rest := Flatten(Children(b)[i], ChildContext(b, c, i)), FlattenFrom(b, c, i + 1);
      WalkIsNumbering(Children(b)[i], ChildContext(b, c, i));
      WalkFromIsNumbering(b, c, i + 1);
      assert Depths(first + rest) == Depths(first) + Depths(rest);
    }
  }

  /** What a stack of pending subtrees still has to yield, top first. */
  ghost function Pending(stack: seq<(Block, nat)>): seq<(Block, nat)> {
    if stack == [] then [] else
      Walk(stack[|stack| - 1].0, stack[|stack| - 1].1) + Pending(stack[..|stack| - 1])
  }

  lemma PushedLast(stack: seq<(Block, nat)>, b: Block, depth: nat)
    ensures Pending(stack + [(b, depth)]) == Walk(b, depth) + Pending(stack)
  {
    assert (stack + [(b, depth)])[..|stack|] == stack;
  }

  lemma PushStep(block: Block, depth: nat, i: nat, stack: seq<(Block, nat)>, r: seq<(Block, nat)>)
    requires i < |Children(block)|
    requires Pending(r) == WalkFrom(block, depth, i + 1) + Pending(stack)
    ensures Pending(r + [(Children(block)[i], depth + 1)]) == WalkFrom(block, depth, i) + Pending(stack)
    ensures Children(block)[i].Empty? ==> Pending(r) == WalkFrom(block, depth, i) + Pending(stack)
  {
    hide Children;
    var own := Walk(Children(block)[i], depth + 1);
    var later, below := WalkFrom(block, depth, i + 1), Pending(stack);
    PushedLast(r, Children(block)[i], depth + 1);
    assert own + (later + below) == (own + later) + below;
  }

  predicate NoneEmpty(stack: seq<(Block, nat)>) {
    forall k :: 0 <= k < |stack| ==> stack[k].0 != Empty
  }

  /** Pushing the children from the last to the first makes the stack yield them in order. */
  method PushChildren(block: Block, depth: nat, stack: seq<(Block, nat)>) returns (r: seq<(Block, nat)>)
    requires !block.Empty?
    requires NoneEmpty(stack)
    ensures NoneEmpty(r)
    ensures Pending(r) == WalkFrom(block, depth, 0) + Pending(stack)
  {
    var children := Children(block);
    var i := |children|;
    r := stack;
    assert WalkFrom(block, depth, i) == [];
    assert Pending(r) == WalkFrom(block, depth, i) + Pending(stack);
    while i > 0
      invariant 0 <= i <= |children|
      invariant Pending(r) == WalkFrom(block, depth, i) + Pending(stack)
      invariant NoneEmpty(r)
    {
      i := i - 1;
      PushStep(block, depth, i, stack, r);
      if children[i] != Empty {
        r := r + [(children[i], depth + 1)];
      }
    }
  }

  /** `walk_blocks`: the explicit-stack traversal. */
  method WalkBlocks(root: Block) returns (out: seq<(Block, nat)>)
    ensures out == Depths(Flatten(root, TOP))
  {
    WalkIsNumbering(root, TOP);
    out := [];
    if root == Empty { return; }
    var stack := [(root, 1)];
    assert Pending(stack) == Walk(root, 1) + Pending([]) == Walk(root, 1);
    while stack != []
      invariant out + Pending(stack) == Walk(root, 1)
      invariant NoneEmpty(stack)
      decreases |Pending(stack)|
    {
      var (block, depth) := stack[|stack| - 1];
      ghost var rest := stack[..|stack| - 1];
      ghost var yielded, below := out, Pending(rest);
      ghost var under := WalkFrom(block, depth, 0);
      assert Pending(stack) == ([(block, depth)] + under) + below;
      stack := stack[..|stack| - 1];
      out := out + [(block, depth)];
      stack := PushChildren(block, depth, stack);
      assert yielded + (([(block, depth)] + under) + below) == out + (under + below);
    }
  }
}
