/**
  The flat runtime tape and what it means for the device to accept one:
  the instruction records of helper/src/revision_config.h and the declarative reading of
  the rules that `ValidateProgramV2` enforces (helper/src/revision_config.cpp).
*/
module Tape {
  import opened Prelude
  import opened Flow

  type DurationMs = n: nat | 10_000 <= n <= 180_000 witness 60_000
  type AnswerMs = n: nat | 5_000 <= n <= 120_000 witness 30_000

  datatype Instruction =
    | Play(pc: nat, blockId: Id, promptId: string, nextPc: nat)
    | Collect(pc: nat, blockId: Id, promptId: string, allowPromptBargeIn: bool, timeoutMs: TimeoutMs,
              maximumAttempts: Attempts, maximumMenuReturns: MenuReturns, branches: seq<(Key, nat)>,
              onTimeoutPc: nat, onInvalidPc: nat, onReturnLimitPc: nat)
    | Schedule(pc: nat, blockId: Id, scheduleId: string, onOpenPc: nat, onClosedPc: nat, onHolidayPc: nat)
    | Record(pc: nat, blockId: Id, maximumDurationMs: DurationMs, finishKey: Option<Key>, nextPc: nat, onUnavailablePc: nat)
    | External(pc: nat, blockId: Id, phoneNumber: string, answerTimeoutMs: AnswerMs,
               onCompletedPc: nat, onNotConnectedPc: nat, onSystemFailurePc: nat)
    | Return(pc: nat, blockId: Id, menuPc: nat)
    | End(pc: nat, blockId: Id)

  datatype Config = Config(schemaVersion: nat, entryPc: nat, instructions: seq<Instruction>)

  const MAXIMUM_NODES := 64
  const MAXIMUM_DEPTH := 8

  function BranchTargets(bs: seq<(Key, nat)>): (r: seq<nat>)
    ensures |r| == |bs|
    ensures forall i :: 0 <= i < |bs| ==> r[i] == bs[i].1
  {
    seq(|bs|, i requires 0 <= i < |bs| => bs[i].1)
  }

  /** The instructions an instruction owns, in the order the verifier adds them. */
  function Targets(ins: Instruction): (r: seq<nat>)
    ensures ins.Collect? ==> |r| == |ins.branches| + 3
  {
    match ins
    case Play(_, _, _, nextPc) => [nextPc]
    case Collect(_, _, _, _, _, _, _, branches, onTimeoutPc, onInvalidPc, onReturnLimitPc) =>
      BranchTargets(branches) + [onTimeoutPc, onInvalidPc, onReturnLimitPc]
    case Schedule(_, _, _, onOpenPc, onClosedPc, onHolidayPc) => [onOpenPc, onClosedPc, onHolidayPc]
    case Record(_, _, _, _, nextPc, onUnavailablePc) => [nextPc, onUnavailablePc]
    case External(_, _, _, _, onCompletedPc, onNotConnectedPc, onSystemFailurePc) =>
      [onCompletedPc, onNotConnectedPc, onSystemFailurePc]
    case Return(_, _, _) => []
    case End(_, _) => []
  }

  /** Checks of one instruction that look at nothing but its own fields and the program size. */
  predicate InstructionOk(c: Config, s: nat)
    requires s < |c.instructions|
  {
    var ins := c.instructions[s];
    && ins.pc == s
    && (forall i :: 0 <= i < |Targets(ins)| ==> Targets(ins)[i] < |c.instructions|)
    && (ins.Return? ==> ins.menuPc < |c.instructions| && c.instructions[ins.menuPc].Collect?)
    && (ins.Record? ==> c.schemaVersion >= 3)
    && (ins.External? ==> c.schemaVersion == 4)
  }

  ghost predicate InRange(c: Config) {
    && c.entryPc < |c.instructions|
    && forall s :: 0 <= s < |c.instructions| ==> InstructionOk(c, s)
  }

  ghost predicate IsEdge(c: Config, s: int, i: int) {
    0 <= s < |c.instructions| && 0 <= i < |Targets(c.instructions[s])|
  }

  ghost function Target(c: Config, s: int, i: int): nat
    requires IsEdge(c, s, i)
  {
    Targets(c.instructions[s])[i]
  }

  /** The i-th edge of s leads to t. */
  ghost predicate Owns(c: Config, s: int, i: int, t: int) {
    IsEdge(c, s, i) && Target(c, s, i) == t
  }

  ghost predicate HasOwner(c: Config, t: int) {
    exists s, i :: Owns(c, s, i, t)
  }

  /** The entry is owned by nobody and every other instruction by exactly one edge. */
  ghost predicate OneOwner(c: Config) {
    && !HasOwner(c, c.entryPc)
    && (forall t :: 0 <= t < |c.instructions| && t != c.entryPc ==> HasOwner(c, t))
    && (forall t, s, i, s', i' :: Owns(c, s, i, t) && Owns(c, s', i', t) ==> s == s' && i == i')
  }

  /** What the recursive walk from the entry carries to an instruction; -1 stands for "none". */
  datatype Place = Place(depth: nat, parent: int, owner: int, forbidden: int, notice: bool)

  const ENTRY_PLACE := Place(1, -1, -1, -1, false)

  function ChildPlace(ins: Instruction, pc: nat, place: Place, i: int): Place {
    Place(
      place.depth + 1,
      pc,
      if ins.Collect? then pc else place.owner,
      if ins.Collect? then (if i == |Targets(ins)| - 1 then pc else -1) else place.forbidden,
      place.notice || ins.Play? || (ins.Collect? && ins.promptId != ""))
  }

  /** `places` is what the walk carries to every instruction of the program. */
  ghost predicate Placement(c: Config, places: seq<Place>) {
    && |places| == |c.instructions|
    && c.entryPc < |places|
    && places[c.entryPc] == ENTRY_PLACE
    && forall s, i :: IsEdge(c, s, i) && Target(c, s, i) < |places| ==>
         places[Target(c, s, i)] == ChildPlace(c.instructions[s], s, places[s], i)
  }

  /** Depth and menu-return rules at one instruction. */
  predicate ShapeOk(ins: Instruction, place: Place) {
    && place.depth <= MAXIMUM_DEPTH
    && (ins.Return? ==> place.owner >= 0 && ins.menuPc == place.owner && ins.menuPc != place.forbidden)
  }

  /** The V4 rule that a caller hears a prompt before being recorded or connected. */
  predicate NoticeOk(c: Config, ins: Instruction, place: Place) {
    c.schemaVersion == 4 && (ins.Record? || ins.External?) ==> place.notice
  }

  ghost predicate Placed(c: Config, places: seq<Place>) {
    && Placement(c, places)
    && forall s :: 0 <= s < |places| ==> ShapeOk(c.instructions[s], places[s]) && NoticeOk(c, c.instructions[s], places[s])
  }

  /** The V3 rule: RECORD is owned by PLAY. */
  ghost predicate RecordFollowsPlay(c: Config) {
    c.schemaVersion == 3 ==>
      forall t :: 0 <= t < |c.instructions| && c.instructions[t].Record? ==>
        exists s, i :: Owns(c, s, i, t) && c.instructions[s].Play?
  }

  /** A tape the device may run: a tree of instructions whose returns and notices are in order. */
  ghost predicate WellOwned(c: Config) {
    && 1 <= |c.instructions| <= MAXIMUM_NODES
    && InRange(c)
    && OneOwner(c)
    && RecordFollowsPlay(c)
    && exists places :: Placed(c, places)
  }

  // ---------------------------------------------------------------- ancestors

  /** a is q or one of the instructions q hangs below. */
  ghost predicate Above(places: seq<Place>, a: nat, q: nat)
    requires q < |places|
    decreases places[q].depth
  {
    || q == a
    || (&& 0 <= places[q].parent < |places|
        && places[places[q].parent].depth < places[q].depth
        && Above(places, a, places[q].parent))
  }

  lemma {:induction false} AboveDepth(places: seq<Place>, a: nat, q: nat)
    requires q < |places| && Above(places, a, q)
    ensures a < |places|
    ensures q == a || places[a].depth < places[q].depth
    decreases places[q].depth
  {
    if q != a { AboveDepth(places, a, places[q].parent); }
  }

  lemma {:induction false} AboveTrans(places: seq<Place>, a: nat, b: nat, q: nat)
    requires q < |places| && b < |places| && Above(places, b, q) && Above(places, a, b)
    ensures Above(places, a, q)
    decreases places[q].depth
  {
    if q != b { AboveTrans(places, a, b, places[q].parent); }
  }

  /** Two ancestors at the same depth are the same instruction. */
  lemma {:induction false} AboveUnique(places: seq<Place>, a: nat, b: nat, q: nat)
    requires q < |places| && Above(places, a, q) && Above(places, b, q)
    requires a < |places| && b < |places| && places[a].depth == places[b].depth
    ensures a == b
    decreases places[q].depth
  {
    AboveDepth(places, a, q);
    AboveDepth(places, b, q);
    if q != a && q != b { AboveUnique(places, a, b, places[q].parent); }
  }

  /** Everything strictly below an instruction is below one of the instructions it owns. */
  lemma {:induction false} AboveThroughChild(c: Config, places: seq<Place>, a: nat, q: nat) returns (i: nat)
    requires InRange(c) && OneOwner(c) && Placement(c, places)
    requires q < |places| && Above(places, a, q) && q != a
    ensures IsEdge(c, a, i) && Above(places, Target(c, a, i), q)
    decreases places[q].depth
  {
    assert HasOwner(c, q);
    var s, j :| Owns(c, s, j, q);
    assert places[q].parent == s;
    if s == a {
      i := j;
    } else {
      i := AboveThroughChild(c, places, a, s);
    }
  }

  lemma ChildBelow(c: Config, places: seq<Place>, s: nat, i: nat)
    requires InRange(c) && Placement(c, places) && IsEdge(c, s, i)
    ensures Target(c, s, i) < |places| && places[Target(c, s, i)].parent == s
    ensures places[Target(c, s, i)].depth == places[s].depth + 1
    ensures Above(places, s, Target(c, s, i))
  {
    assert InstructionOk(c, s);
    assert Above(places, s, s);
  }

  lemma {:induction false} EntryAboveAll(c: Config, places: seq<Place>, q: nat)
    requires InRange(c) && OneOwner(c) && Placement(c, places) && q < |places|
    ensures Above(places, c.entryPc, q)
    decreases places[q].depth
  {
    if q != c.entryPc {
      assert HasOwner(c, q);
      var s, i :| Owns(c, s, i, q);
      EntryAboveAll(c, places, s);
    }
  }

  /** A program has at most one placement. */
  lemma {:induction false} PlacementUnique(c: Config, p: seq<Place>, q: seq<Place>, t: nat)
    requires InRange(c) && OneOwner(c) && Placement(c, p) && Placement(c, q) && t < |p|
    ensures p[t] == q[t]
    decreases p[t].depth
  {
    if t != c.entryPc {
      assert HasOwner(c, t);
      var s, i :| Owns(c, s, i, t);
      PlacementUnique(c, p, q, s);
    }
  }
}
