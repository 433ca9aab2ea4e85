/**
  `ValidateProgramV2` of helper/src/revision_config.cpp: the device's own check of a tape.
  It counts owners with in-place tables, walks the tape with a set of visited counters and
  walks it again for the notice rule.  It accepts exactly the well-owned tapes.
*/
module ProgramVerifier {
  import opened Prelude
  import opened Tape

  type Edges = set<(int, int)>

  ghost predicate AreEdges(c: Config, added: Edges) {
    forall e :: e in added ==> IsEdge(c, e.0, e.1)
  }

  /** The edges seen so far that lead to t. */
  ghost function Into(c: Config, added: Edges, t: int): Edges
    requires AreEdges(c, added)
  {
    set e | e in added && Target(c, e.0, e.1) == t
  }

  lemma IntoGrows(c: Config, added: Edges, e: (int, int), t: int)
    requires AreEdges(c, added) && IsEdge(c, e.0, e.1)
    ensures Into(c, added + {e}, t) == Into(c, added, t) + (if Target(c, e.0, e.1) == t then {e} else {})
  {
  }

  lemma AtMostOne<T>(s: set<T>)
    ensures |s| <= 1 <==> forall x, y :: x in s && y in s ==> x == y
  {
    if |s| > 1 {
      var x :| x in s;
      assert |s - {x}| > 0;
      var y :| y in s - {x};
    } else if x :| x in s {
      assert |s - {x}| == 0;
    }
  }

  /** Exactly the edges of the first s instructions and the first i edges of the next one. */
  ghost predicate Covers(c: Config, added: Edges, s: nat, i: nat) {
    forall a, b :: (a, b) in added <==> IsEdge(c, a, b) && (a < s || (a == s && b < i))
  }

  /** The owner tables agree with the edges seen so far. */
  ghost predicate CountsOk(c: Config, added: Edges, incoming: seq<nat>, parent: seq<int>) {
    && |incoming| == |parent| == |c.instructions|
    && AreEdges(c, added)
    && (forall t :: 0 <= t < |incoming| ==> incoming[t] == |Into(c, added, t)|)
    && (forall t :: 0 <= t < |incoming| ==> if incoming[t] == 0 then parent[t] == -1 else ParentSeen(c, added, t, parent[t]))
  }

  /** s is the source of an edge seen to t. */
  ghost predicate ParentSeen(c: Config, added: Edges, t: nat, s: int) {
    exists i :: (s, i) in added && Owns(c, s, i, t)
  }

  lemma CountsAfter(c: Config, added: Edges, incoming: seq<nat>, parent: seq<int>, source: nat, i: nat)
    requires CountsOk(c, added, incoming, parent)
    requires IsEdge(c, source, i) && (source, i) !in added && Target(c, source, i) < |incoming|
    ensures var t := Target(c, source, i);
            CountsOk(c, added + {(source, i)}, incoming[t := incoming[t] + 1], if parent[t] < 0 then parent[t := source] else parent)
  {
    hide Targets;
    var now, target := added + {(source, i)}, Target(c, source, i);
    forall t | 0 <= t < |incoming|
      ensures |Into(c, now, t)| == incoming[t] + if t == target then 1 else 0
    {
      IntoGrows(c, added, (source, i), t);
    }
    assert (source, i) in now && Owns(c, source, i, target);
    forall t | 0 <= t < |incoming| && incoming[t] != 0 ensures ParentSeen(c, now, t, parent[t]) {
      var j :| (parent[t], j) in added && Owns(c, parent[t], j, t);
      assert (parent[t], j) in now;
    }
  }

  ghost predicate OwnersByCount(c: Config, incoming: seq<nat>) {
    && |incoming| == |c.instructions|
    && c.entryPc < |incoming|
    && incoming[c.entryPc] == 0
    && forall t :: 0 <= t < |incoming| && t != c.entryPc ==> incoming[t] == 1
  }

  /** A full count of zero, or of at most one, decides who owns an instruction. */
  lemma CountDecides(c: Config, added: Edges, incoming: seq<nat>, parent: seq<int>, t: nat)
    requires CountsOk(c, added, incoming, parent) && Covers(c, added, |c.instructions|, 0) && t < |incoming|
    ensures incoming[t] == 0 <==> !HasOwner(c, t)
    ensures incoming[t] <= 1 <==> forall s, i, s', i' :: Owns(c, s, i, t) && Owns(c, s', i', t) ==> s == s' && i == i'
  {
    var into := Into(c, added, t);
    AtMostOne(into);
    assert forall s, i :: Owns(c, s, i, t) <==> (s, i) in into;
    assert forall e :: e in into ==> Owns(c, e.0, e.1, t);
  }

  lemma CountsDecideOwners(c: Config, added: Edges, incoming: seq<nat>, parent: seq<int>)
    requires CountsOk(c, added, incoming, parent) && Covers(c, added, |c.instructions|, 0) && InRange(c)
    ensures OneOwner(c) <==> OwnersByCount(c, incoming)
  {
    forall t | 0 <= t < |incoming|
      ensures incoming[t] == 0 <==> !HasOwner(c, t)
      ensures incoming[t] <= 1 <==> forall s, i, s', i' :: Owns(c, s, i, t) && Owns(c, s', i', t) ==> s == s' && i == i'
    {
      CountDecides(c, added, incoming, parent, t);
    }
    if OwnersByCount(c, incoming) {
      forall t, s, i, s', i' | Owns(c, s, i, t) && Owns(c, s', i', t) ensures s == s' && i == i' {
        assert InstructionOk(c, s);
        assert HasOwner(c, t);
      }
    }
  }

  /** With one owner each, the recorded parent settles the V3 greeting rule. */
  lemma ParentDecides(c: Config, added: Edges, incoming: seq<nat>, parent: seq<int>, t: nat)
    requires CountsOk(c, added, incoming, parent) && Covers(c, added, |c.instructions|, 0) && OneOwner(c) && t < |incoming|
    ensures parent[t] < |c.instructions|
    ensures (parent[t] >= 0 && c.instructions[parent[t]].Play?) <==> exists s, i :: Owns(c, s, i, t) && c.instructions[s].Play?
  {
    CountDecides(c, added, incoming, parent, t);
    if incoming[t] != 0 { assert ParentSeen(c, added, t, parent[t]); }
  }

  /** What the walk may leave behind: every placed counter is in order and has placed children. */
  ghost predicate PlacedWell(c: Config, placed: map<nat, Place>) {
    forall q :: q in placed ==> PlacedOne(c, placed, q, placed[q])
  }

  ghost predicate PlacedOne(c: Config, placed: map<nat, Place>, q: nat, place: Place) {
    && q < |c.instructions|
    && ShapeOk(c.instructions[q], place)
    && forall i :: IsEdge(c, q, i) ==> Target(c, q, i) in placed && placed[Target(c, q, i)] == ChildPlace(c.instructions[q], q, place, i)
  }

  ghost predicate Shaped(c: Config, places: seq<Place>) {
    && Placement(c, places)
    && forall s :: 0 <= s < |places| ==> ShapeOk(c.instructions[s], places[s])
  }

  ghost predicate UnderFirst(c: Config, places: seq<Place>, pc: nat, i: nat, q: nat)
    requires q < |places|
  {
    exists j :: 0 <= j < i && IsEdge(c, pc, j) && Above(places, Target(c, pc, j), q)
  }

  /** The counters below the first i children of pc. */
  ghost function BelowFirst(c: Config, places: seq<Place>, pc: nat, i: nat): set<nat> {
    set q: nat | q < |places| && UnderFirst(c, places, pc, i, q)
  }

  ghost function Below(places: seq<Place>, pc: nat): set<nat> {
    set q: nat | q < |places| && Above(places, pc, q)
  }

  lemma BelowSplits(c: Config, places: seq<Place>, pc: nat)
    requires InRange(c) && OneOwner(c) && Placement(c, places) && pc < |places|
    ensures Below(places, pc) == {pc} + BelowFirst(c, places, pc, |Targets(c.instructions[pc])|)
  {
    var all := |Targets(c.instructions[pc])|;
    forall q ensures q in Below(places, pc) <==> q in {pc} + BelowFirst(c, places, pc, all) {
      if q in Below(places, pc) && q != pc {
        var i := AboveThroughChild(c, places, pc, q);
        assert UnderFirst(c, places, pc, all, q);
      }
      if q in BelowFirst(c, places, pc, all) {
        var j :| 0 <= j < all && IsEdge(c, pc, j) && Above(places, Target(c, pc, j), q);
        ChildBelow(c, places, pc, j);
        AboveTrans(places, pc, Target(c, pc, j), q);
      }
    }
  }

  /** A child's part of the tape has not been seen when its elder siblings have been walked. */
  lemma SiblingUnseen(c: Config, places: seq<Place>, pc: nat, i: nat, before: set<nat>)
    requires InRange(c) && OneOwner(c) && Placement(c, places) && IsEdge(c, pc, i)
    requires Below(places, pc) !! before
    ensures Below(places, Target(c, pc, i)) !! before + {pc} + BelowFirst(c, places, pc, i)
  {
    ChildBelow(c, places, pc, i);
    var t := Target(c, pc, i);
    forall q | q in Below(places, t) ensures q !in before + {pc} + BelowFirst(c, places, pc, i) {
      AboveDepth(places, t, q);
      assert Above(places, pc, t);
      AboveTrans(places, pc, t, q);
      assert q in Below(places, pc);
      if q in BelowFirst(c, places, pc, i) {
        var j :| 0 <= j < i && IsEdge(c, pc, j) && Above(places, Target(c, pc, j), q);
        ChildBelow(c, places, pc, j);
        AboveUnique(places, t, Target(c, pc, j), q);
        assert Owns(c, pc, i, t) && Owns(c, pc, j, t);
      }
    }
  }

  lemma BelowFirstGrows(c: Config, places: seq<Place>, pc: nat, i: nat)
    requires InRange(c) && Placement(c, places) && IsEdge(c, pc, i)
    ensures BelowFirst(c, places, pc, i + 1) == BelowFirst(c, places, pc, i) + Below(places, Target(c, pc, i))
  {
    forall q ensures q in BelowFirst(c, places, pc, i + 1) <==> q in BelowFirst(c, places, pc, i) + Below(places, Target(c, pc, i)) {
    }
  }

  lemma PlacedUnion(c: Config, a: map<nat, Place>, b: map<nat, Place>)
    requires PlacedWell(c, a) && PlacedWell(c, b) && a.Keys !! b.Keys
    ensures PlacedWell(c, a + b)
  {
    forall q | q in a + b ensures PlacedOne(c, a + b, q, (a + b)[q]) {
      assert if q in b then PlacedOne(c, b, q, b[q]) else PlacedOne(c, a, q, a[q]);
    }
  }

  lemma PlacedTop(c: Config, kids: map<nat, Place>, pc: nat, place: Place)
    requires PlacedWell(c, kids) && pc !in kids && pc < |c.instructions| && ShapeOk(c.instructions[pc], place)
    requires forall i :: IsEdge(c, pc, i) ==> Target(c, pc, i) in kids && kids[Target(c, pc, i)] == ChildPlace(c.instructions[pc], pc, place, i)
    ensures PlacedWell(c, kids[pc := place])
  {
    var all := kids[pc := place];
    forall q | q in all ensures PlacedOne(c, all, q, all[q]) {
      if q != pc { assert PlacedOne(c, kids, q, kids[q]); }
    }
  }

  /** A well-shaped program, met at the right place with nothing below pc seen yet. */
  ghost predicate Expected(c: Config, hint: seq<Place>, pc: nat, place: Place, seen: set<nat>) {
    Shaped(c, hint) && OneOwner(c) && pc < |hint| && hint[pc] == place && Below(hint, pc) !! seen
  }

  lemma ChildExpected(c: Config, hint: seq<Place>, pc: nat, i: nat, place: Place, seen: set<nat>)
    requires InRange(c) && Expected(c, hint, pc, place, seen) && IsEdge(c, pc, i)
    ensures Expected(c, hint, Target(c, pc, i), ChildPlace(c.instructions[pc], pc, place, i), seen + {pc} + BelowFirst(c, hint, pc, i))
    ensures BelowFirst(c, hint, pc, i + 1) == BelowFirst(c, hint, pc, i) + Below(hint, Target(c, pc, i))
  {
    SiblingUnseen(c, hint, pc, i, seen);
    BelowFirstGrows(c, hint, pc, i);
    ChildBelow(c, hint, pc, i);
  }

  lemma ExpectedHere(c: Config, hint: seq<Place>, pc: nat, place: Place, seen: set<nat>)
    requires InRange(c) && Expected(c, hint, pc, place, seen)
    ensures pc !in seen && ShapeOk(c.instructions[pc], place)
    ensures Below(hint, pc) == {pc} + BelowFirst(c, hint, pc, |Targets(c.instructions[pc])|)
    ensures BelowFirst(c, hint, pc, 0) == {}
  {
    BelowSplits(c, hint, pc);
    assert pc in Below(hint, pc);
  }

  /** A finished walk of pc has placed exactly what it has newly seen, and all of it if all was expected. */
  ghost predicate VisitOk(c: Config, hint: seq<Place>, pc: nat, place: Place, seen: set<nat>, placed: map<nat, Place>, now: set<nat>) {
    && now == seen + placed.Keys && placed.Keys !! seen
    && pc in placed && placed[pc] == place && PlacedWell(c, placed)
    && (Expected(c, hint, pc, place, seen) ==> now == seen + Below(hint, pc))
  }

  /** The same after pc itself and its first i children. */
  ghost predicate Walked(c: Config, hint: seq<Place>, pc: nat, place: Place, seen: set<nat>, i: nat, kids: map<nat, Place>, now: set<nat>) {
    && now == seen + {pc} + kids.Keys && kids.Keys !! seen + {pc}
    && PlacedWell(c, kids)
    && (forall j :: 0 <= j < i && IsEdge(c, pc, j) ==> Target(c, pc, j) in kids && kids[Target(c, pc, j)] == ChildPlace(c.instructions[pc], pc, place, j))
    && (Expected(c, hint, pc, place, seen) ==> now == seen + {pc} + BelowFirst(c, hint, pc, i))
  }

  lemma WalkedNone(c: Config, hint: seq<Place>, pc: nat, place: Place, seen: set<nat>)
    requires InRange(c) && pc < |c.instructions|
    ensures Walked(c, hint, pc, place, seen, 0, map[], seen + {pc})
  {
    if Expected(c, hint, pc, place, seen) { ExpectedHere(c, hint, pc, place, seen); }
  }

  lemma WalkedNext(c: Config, hint: seq<Place>, pc: nat, place: Place, seen: set<nat>, i: nat,
                   kids: map<nat, Place>, now: set<nat>, more: map<nat, Place>, then_: set<nat>)
    requires InRange(c) && IsEdge(c, pc, i) && Walked(c, hint, pc, place, seen, i, kids, now)
    requires VisitOk(c, hint, Target(c, pc, i), ChildPlace(c.instructions[pc], pc, place, i), now, more, then_)
    ensures Walked(c, hint, pc, place, seen, i + 1, kids + more, then_)
  {
    hide Expected, ChildPlace, BelowFirst, Below, PlacedWell, Targets, InRange;
    PlacedUnion(c, kids, more);
    if Expected(c, hint, pc, place, seen) {
      ChildExpected(c, hint, pc, i, place, seen);
    }
  }

  lemma WalkedChild(c: Config, hint: seq<Place>, pc: nat, place: Place, seen: set<nat>, i: nat, kids: map<nat, Place>, now: set<nat>)
    requires InRange(c) && Expected(c, hint, pc, place, seen) && IsEdge(c, pc, i) && Walked(c, hint, pc, place, seen, i, kids, now)
    ensures Expected(c, hint, Target(c, pc, i), ChildPlace(c.instructions[pc], pc, place, i), now)
  {
    ChildExpected(c, hint, pc, i, place, seen);
  }

  lemma WalkedAll(c: Config, hint: seq<Place>, pc: nat, place: Place, seen: set<nat>, kids: map<nat, Place>, now: set<nat>)
    requires InRange(c) && pc < |c.instructions| && pc !in seen && ShapeOk(c.instructions[pc], place)
    requires Walked(c, hint, pc, place, seen, |Targets(c.instructions[pc])|, kids, now)
    ensures VisitOk(c, hint, pc, place, seen, kids[pc := place], now)
  {
    PlacedTop(c, kids, pc, place);
    if Expected(c, hint, pc, place, seen) {
      ExpectedHere(c, hint, pc, place, seen);
    }
  }

  class ProgramCheck {
    const config: Config
    const incoming: array<nat>
    const incomingParent: array<int>
    ghost var added: Edges
    var visited: set<nat>

    ghost predicate Counted()
      reads this, incoming, incomingParent
    {
      CountsOk(config, added, incoming[..], incomingParent[..])
    }

    constructor (config: Config)
      ensures this.config == config && Counted() && added == {} && visited == {}
      ensures fresh(incoming) && fresh(incomingParent)
    {
      this.config := config;
      incoming := new nat[|config.instructions|](_ => 0);
      incomingParent := new int[|config.instructions|](_ => -1);
      added, visited := {}, {};
    }

    /** `addEdge`: refuses a target outside the program, else counts one more owner. */
    method AddEdge(source: nat, i: nat) returns (ok: bool)
      requires Counted() && IsEdge(config, source, i) && (source, i) !in added
      modifies this`added, incoming, incomingParent
      ensures Counted()
      ensures ok <==> Target(config, source, i) < |config.instructions|
      ensures added == if ok then old(added) + {(source, i)} else old(added)
    {
      var target := Targets(config.instructions[source])[i];
      if target >= |config.instructions| { return false; }
      CountsAfter(config, added, incoming[..], incomingParent[..], source, i);
      incoming[target] := incoming[target] + 1;
      if incomingParent[target] < 0 {
        incomingParent[target] := source;
      }
      added := added + {(source, i)};
      assert incoming[..] == old(incoming[..])[target := old(incoming[..])[target] + 1];
      return true;
    }

    /** The edges of one instruction, and the checks of its own fields. */
    method AddInstruction(s: nat) returns (ok: bool)
      requires Counted() && s < |config.instructions| && Covers(config, added, s, 0)
      modifies this`added, incoming, incomingParent
      ensures Counted()
      ensures ok <==> InstructionOk(config, s)
      ensures ok ==> Covers(config, added, s + 1, 0)
    {
      var ins := config.instructions[s];
      if ins.pc != s { return false; }
      if ins.Return? && (ins.menuPc >= |config.instructions| || !config.instructions[ins.menuPc].Collect?) {
        return false;
      }
      if ins.Record? && config.schemaVersion < 3 { return false; }
      if ins.External? && config.schemaVersion != 4 { return false; }
      var i := 0;
      while i < |Targets(ins)|
        invariant 0 <= i <= |Targets(ins)|
        invariant Counted() && Covers(config, added, s, i)
        invariant forall j :: 0 <= j < i ==> Targets(ins)[j] < |config.instructions|
      {
        var fits := AddEdge(s, i);
        if !fits { return false; }
        i := i + 1;
      }
      return true;
    }

    /** One owner for everything but the entry. */
    method CheckOwners() returns (ok: bool)
      requires incoming.Length == |config.instructions| && config.entryPc < incoming.Length
      ensures ok <==> OwnersByCount(config, incoming[..])
    {
      if incoming[config.entryPc] != 0 { return false; }
      var pc := 0;
      while pc < incoming.Length
        invariant 0 <= pc <= incoming.Length
        invariant forall t :: 0 <= t < pc && t != config.entryPc ==> incoming[t] == 1
      {
        if pc != config.entryPc && incoming[pc] != 1 { return false; }
        pc := pc + 1;
      }
      return true;
    }

    /** The V3 greeting rule. */
    method CheckGreetings() returns (ok: bool)
      requires Counted() && InRange(config) && Covers(config, added, |config.instructions|, 0) && OneOwner(config)
      ensures ok <==> RecordFollowsPlay(config)
    {
      if config.schemaVersion != 3 { return true; }
      var pc := 0;
      while pc < |config.instructions|
        invariant 0 <= pc <= |config.instructions|
        invariant forall t :: 0 <= t < pc && config.instructions[t].Record? ==>
          exists s, i :: Owns(config, s, i, t) && config.instructions[s].Play?
      {
        ParentDecides(config, added, incoming[..], incomingParent[..], pc);
        if config.instructions[pc].Record? &&
           (incomingParent[pc] < 0 || !config.instructions[incomingParent[pc]].Play?) {
          return false;
        }
        pc := pc + 1;
      }
      return true;
    }

    /** The walk for reachability, depth and menu returns. */
    method Visit(pc: nat, depth: nat, owner: int, forbidden: int, ghost place: Place, ghost hint: seq<Place>)
      returns (ok: bool, ghost placed: map<nat, Place>)
      requires InRange(config) && pc < |config.instructions|
      requires place.depth == depth && place.owner == owner && place.forbidden == forbidden
      modifies this`visited
      ensures ok ==> VisitOk(config, hint, pc, place, old(visited), placed, visited)
      ensures Expected(config, hint, pc, place, old(visited)) ==> ok
      decreases MAXIMUM_DEPTH + 1 - depth
    {
      hide Expected, Walked, Shaped, OneOwner, PlacedWell, Below, BelowFirst;
      placed := map[];
      ghost var seen := visited;
      ghost var expected := Expected(config, hint, pc, place, seen);
      if expected { ExpectedHere(config, hint, pc, place, seen); }
      if depth > MAXIMUM_DEPTH || pc in visited { return false, placed; }
      visited := visited + {pc};
      var ins := config.instructions[pc];
      if ins.Return? && !(owner >= 0 && ins.menuPc == owner && ins.menuPc != forbidden) { return false, placed; }
      assert InstructionOk(config, pc);
      var targets := Targets(ins);
      var i := 0;
      ghost var kids: map<nat, Place> := map[];
      WalkedNone(config, hint, pc, place, seen);
      while i < |targets|
        invariant 0 <= i <= |targets|
        invariant Walked(config, hint, pc, place, seen, i, kids, visited)
      {
        if expected { WalkedChild(config, hint, pc, place, seen, i, kids, visited); }
        assert Target(config, pc, i) == targets[i];
        var nextOwner := if ins.Collect? then pc else owner;
        var nextForbidden := if ins.Collect? then (if i == |targets| - 1 then pc else -1) else forbidden;
        ghost var more;
        ghost var now := visited;
        ok, more := Visit(targets[i], depth + 1, nextOwner, nextForbidden, ChildPlace(ins, pc, place, i), hint);
        if !ok { return false, placed; }
        WalkedNext(config, hint, pc, place, seen, i, kids, now, more, visited);
        kids := kids + more;
        i := i + 1;
      }
      WalkedAll(config, hint, pc, place, seen, kids, visited);
      placed := kids[pc := place];
      return true, placed;
    }

    /** The second walk, for the notice rule. */
    method ValidatePromptNotice(pc: nat, available: bool, ghost places: seq<Place>) returns (ok: bool)
      requires InRange(config) && OneOwner(config) && Shaped(config, places) && pc < |config.instructions|
      requires config.schemaVersion == 4 && places[pc].notice == available
      ensures ok <==> Heard(config, places, Below(places, pc))
      decreases MAXIMUM_DEPTH + 1 - places[pc].depth
    {
      hide OneOwner, Above;
      var ins := config.instructions[pc];
      BelowSplits(config, places, pc);
      assert pc in Below(places, pc) && ShapeOk(config.instructions[pc], places[pc]) && InstructionOk(config, pc);
      if !available && (ins.Record? || ins.External?) { return false; }
      var targets := Targets(ins);
      var next := available || ins.Play? || (ins.Collect? && ins.promptId != "");
      var i := 0;
      while i < |targets|
        invariant 0 <= i <= |targets|
        invariant Heard(config, places, BelowFirst(config, places, pc, i))
      {
        BelowFirstGrows(config, places, pc, i);
        ChildBelow(config, places, pc, i);
        BelowFirstWithin(config, places, pc, i + 1);
        assert Target(config, pc, i) == targets[i];
        ok := ValidatePromptNotice(targets[i], next, places);
        if !ok { return false; }
        i := i + 1;
      }
      return true;
    }
  }

  ghost predicate Heard(c: Config, places: seq<Place>, s: set<nat>) {
    forall q :: q in s && q < |places| && q < |c.instructions| ==> NoticeOk(c, c.instructions[q], places[q])
  }

  lemma BelowFirstWithin(c: Config, places: seq<Place>, pc: nat, i: nat)
    requires InRange(c) && OneOwner(c) && Placement(c, places) && pc < |places| && i <= |Targets(c.instructions[pc])|
    ensures BelowFirst(c, places, pc, i) <= Below(places, pc)
  {
    forall q | q in BelowFirst(c, places, pc, i) ensures q in Below(places, pc) {
      var j :| 0 <= j < i && IsEdge(c, pc, j) && Above(places, Target(c, pc, j), q);
      ChildBelow(c, places, pc, j);
      AboveTrans(places, pc, Target(c, pc, j), q);
    }
  }

  lemma {:induction false} FullSet(s: set<nat>, n: nat)
    requires forall q :: q in s ==> q < n
    ensures |s| <= n
    ensures |s| == n ==> forall q: nat :: q < n ==> q in s
  {
    if n > 0 {
      FullSet(s - {n - 1}, n - 1);
      if n - 1 in s { assert |s| == |s - {n - 1}| + 1; } else { assert s - {n - 1} == s; }
    }
  }

  /** A walk that has seen every instruction has found the placement. */
  lemma PlacementFound(c: Config, placed: map<nat, Place>) returns (places: seq<Place>)
    requires InRange(c) && PlacedWell(c, placed) && c.entryPc in placed && placed[c.entryPc] == ENTRY_PLACE
    requires forall q: nat :: q < |c.instructions| ==> q in placed
    ensures Shaped(c, places)
  {
    places := seq(|c.instructions|, q requires 0 <= q < |c.instructions| => placed[q]);
    forall s, i | IsEdge(c, s, i) && Target(c, s, i) < |places|
      ensures places[Target(c, s, i)] == ChildPlace(c.instructions[s], s, places[s], i)
    {
      assert PlacedOne(c, placed, s, placed[s]);
    }
    forall s | 0 <= s < |places| ensures ShapeOk(c.instructions[s], places[s]) {
      assert PlacedOne(c, placed, s, placed[s]);
    }
  }

  ghost function UpTo(n: nat): (r: set<nat>)
    ensures |r| == n
    ensures forall q: nat :: q in r <==> q < n
  {
    if n == 0 then {} else UpTo(n - 1) + {n - 1}
  }

  lemma AllPlaced(c: Config, places: seq<Place>)
    requires InRange(c) && OneOwner(c) && Shaped(c, places)
    ensures Below(places, c.entryPc) == UpTo(|c.instructions|)
  {
    forall q: nat | q in UpTo(|c.instructions|) ensures q in Below(places, c.entryPc) {
      EntryAboveAll(c, places, q);
    }
  }

  /** `ValidateProgramV2` accepts exactly the well-owned tapes. */
  method ValidateProgramV2(config: Config) returns (ok: bool)
    ensures ok <==> WellOwned(config)
  {
    if |config.instructions| == 0 || |config.instructions| > MAXIMUM_NODES || config.entryPc >= |config.instructions| {
      return false;
    }
    var check := new ProgramCheck(config);
    var s := 0;
    while s < |config.instructions|
      invariant 0 <= s <= |config.instructions|
      invariant check.config == config && check.visited == {} && fresh(check) && fresh(check.incoming) && fresh(check.incomingParent)
      invariant check.Counted() && Covers(config, check.added, s, 0)
      invariant forall t :: 0 <= t < s ==> InstructionOk(config, t)
    {
      ok := check.AddInstruction(s);
      if !ok { return false; }
      s := s + 1;
    }
    CountsDecideOwners(config, check.added, check.incoming[..], check.incomingParent[..]);
    ok := check.CheckOwners();
    if !ok { return false; }
    ok := check.CheckGreetings();
    if !ok { return false; }
    ok := WalkTape(check);
  }

  /** Both recursive walks, once every instruction has one owner. */
  method WalkTape(check: ProgramCheck) returns (ok: bool)
    requires InRange(check.config) && OneOwner(check.config) && check.visited == {}
    modifies check`visited
    ensures ok <==> exists places :: Placed(check.config, places)
  {
    hide OneOwner, InstructionOk, Targets, Above, Below, Heard;
    var config := check.config;
    ghost var hint: seq<Place> := [];
    if places :| Placed(config, places) {
      hint := places;
      AllPlaced(config, hint);
      assert Expected(config, hint, config.entryPc, ENTRY_PLACE, {});
    }
    ghost var placed;
    ok, placed := check.Visit(config.entryPc, 1, -1, -1, ENTRY_PLACE, hint);
    if !ok { return false; }
    forall q | q in placed ensures q < |config.instructions| {
      assert PlacedOne(config, placed, q, placed[q]);
    }
    assert check.visited == placed.Keys;
    FullSet(check.visited, |config.instructions|);
    if |check.visited| != |config.instructions| { return false; }
    ghost var places := PlacementFound(config, placed);
    Verdict(config, places);
    if config.schemaVersion == 4 {
      ok := check.ValidatePromptNotice(config.entryPc, false, places);
    }
  }

  /** The placement being unique, the notice rule on the one found decides acceptance. */
  lemma Verdict(c: Config, places: seq<Place>)
    requires InRange(c) && OneOwner(c) && Shaped(c, places)
    ensures (exists p :: Placed(c, p)) <==> Heard(c, places, Below(places, c.entryPc))
    ensures c.schemaVersion != 4 ==> exists p :: Placed(c, p)
  {
    hide Below;
    AllPlaced(c, places);
    if p :| Placed(c, p) {
      forall t | 0 <= t < |places| ensures places[t] == p[t] {
        PlacementUnique(c, places, p, t);
      }
      assert places == p;
      assert Heard(c, places, Below(places, c.entryPc));
    }
    if Heard(c, places, Below(places, c.entryPc)) {
      forall s | 0 <= s < |places| ensures NoticeOk(c, c.instructions[s], places[s]) {
        assert s in Below(places, c.entryPc);
      }
      assert Placed(c, places);
    }
    if c.schemaVersion != 4 {
      assert forall s :: 0 <= s < |places| ==> NoticeOk(c, c.instructions[s], places[s]);
      assert Placed(c, places);
    }
  }
}
