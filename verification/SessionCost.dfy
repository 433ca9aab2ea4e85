/**
  The worst-case session time of server/app/compiler_v4.py: the memoised search `maximum_cost`
  with its cycle guard, what its number means, and when the guard speaks.
*/
module SessionCost {
  import opened Prelude
  import opened Flow
  import opened Tape
  import opened Session

  const BEEP_DURATION_MS := 500
  const EXTERNAL_CONTROL_WATCHDOGS_MS := 30_000
  const MAXIMUM_SESSION_MS := 600_000

  type Durations = map<string, nat>

  /** A program counter with the returns each menu has used. */
  datatype Spot = Spot(pc: nat, counts: map<nat, nat>)

  /** A way on from a spot and the most time the step there may take. */
  datatype Move = Move(charge: nat, next: Spot)

  function Duration(d: Durations, promptId: string): nat {
    if promptId in d then d[promptId] else 0
  }

  function MenuCharge(ins: Instruction, d: Durations): nat
    requires ins.Collect?
  {
    ins.maximumAttempts * (Duration(d, ins.promptId) + ins.timeoutMs)
  }

  /** The same charge for each of the first n slots of an instruction. */
  function SlotMoves(ins: Instruction, n: nat, charge: nat, counts: map<nat, nat>): (r: seq<Move>)
    requires n <= |Targets(ins)|
    ensures |r| == n
    ensures forall i :: 0 <= i < n ==> r[i] == Move(charge, Spot(Targets(ins)[i], counts))
  {
    seq(n, i requires 0 <= i < n => Move(charge, Spot(Targets(ins)[i], counts)))
  }

  /** Everything `maximum_cost` maximises over; nothing after END. */
  function Moves(c: Config, d: Durations, s: Spot): seq<Move> {
    if s.pc >= |c.instructions| then [] else
      var ins := c.instructions[s.pc];
      match ins
      case End(_, _) => []
      case Play(_, _, promptId, _) => SlotMoves(ins, 1, Duration(d, promptId), s.counts)
      case Collect(_, _, _, _, _, _, _, branches, _, _, _) => SlotMoves(ins, |branches| + 2, MenuCharge(ins, d), s.counts)
      case Schedule(_, _, _, _, _, _) => SlotMoves(ins, 3, 0, s.counts)
      case Record(_, _, maximumDurationMs, _, nextPc, onUnavailablePc) =>
        [Move(BEEP_DURATION_MS + maximumDurationMs, Spot(nextPc, s.counts)), Move(BEEP_DURATION_MS, Spot(onUnavailablePc, s.counts))]
      case External(_, _, _, answerTimeoutMs, _, _, _) =>
        SlotMoves(ins, 3, EXTERNAL_CONTROL_WATCHDOGS_MS + answerTimeoutMs, s.counts)
      case Return(_, _, menuPc) =>
        if menuPc >= |c.instructions| || !c.instructions[menuPc].Collect? then [] else
        if Get(s.counts, menuPc) < c.instructions[menuPc].maximumMenuReturns
        then [Move(0, Spot(menuPc, s.counts[menuPc := Get(s.counts, menuPc) + 1]))]
        else [Move(0, Spot(c.instructions[menuPc].onReturnLimitPc, s.counts))]
  }

  // ---------------------------------------------------------------- what the number should be

  /** Every run from s is over after at most k moves. */
  ghost predicate Halts(c: Config, d: Durations, s: Spot, k: nat)
    decreases k
  {
    forall i :: 0 <= i < |Moves(c, d, s)| ==> k > 0 && Halts(c, d, Moves(c, d, s)[i].next, k - 1)
  }

  /** The largest total charge of a run of at most k moves. */
  ghost function Best(c: Config, d: Durations, s: Spot, k: nat): nat
    decreases k, 1, 0
  {
    if k == 0 then 0 else BestFrom(c, d, s, k, |Moves(c, d, s)|)
  }

  ghost function BestFrom(c: Config, d: Durations, s: Spot, k: nat, n: nat): nat
    requires k > 0 && n <= |Moves(c, d, s)|
    decreases k, 0, n
  {
    if n == 0 then 0 else
      var move := Moves(c, d, s)[n - 1];
      var here, before := move.charge + Best(c, d, move.next, k - 1), BestFrom(c, d, s, k, n - 1);
      if before < here then here else before
  }

  lemma {:induction false} BestIsUpper(c: Config, d: Durations, s: Spot, k: nat, n: nat, i: nat)
    requires k > 0 && i < n <= |Moves(c, d, s)|
    ensures Moves(c, d, s)[i].charge + Best(c, d, Moves(c, d, s)[i].next, k - 1) <= BestFrom(c, d, s, k, n)
  {
    hide Moves;
    if i < n - 1 { BestIsUpper(c, d, s, k, n - 1, i); }
  }

  lemma {:induction false} BestIsTaken(c: Config, d: Durations, s: Spot, k: nat, n: nat) returns (i: nat)
    requires k > 0 && 0 < n <= |Moves(c, d, s)|
    ensures i < n && Moves(c, d, s)[i].charge + Best(c, d, Moves(c, d, s)[i].next, k - 1) == BestFrom(c, d, s, k, n)
  {
    hide Moves;
    if n == 1 {
      i := 0;
    } else {
      i := BestIsTaken(c, d, s, k, n - 1);
      var last := Moves(c, d, s)[n - 1];
      if last.charge + Best(c, d, last.next, k - 1) == BestFrom(c, d, s, k, n) { i := n - 1; }
    }
  }

  /** Once every run is over, allowing more moves changes neither fact. */
  lemma {:induction false} Settled(c: Config, d: Durations, s: Spot, k: nat, more: nat)
    requires Halts(c, d, s, k) && k <= more
    ensures Halts(c, d, s, more) && Best(c, d, s, more) == Best(c, d, s, k)
    decreases k, 1, 0
  {
    hide Moves;
    var moves := Moves(c, d, s);
    forall i | 0 <= i < |moves| ensures Halts(c, d, moves[i].next, more - 1) {
      Settled(c, d, moves[i].next, k - 1, more - 1);
    }
    if k > 0 {
      SettledFrom(c, d, s, k, more, |moves|);
    } else if more > 0 {
      assert BestFrom(c, d, s, more, 0) == 0;
    }
  }

  lemma {:induction false} SettledFrom(c: Config, d: Durations, s: Spot, k: nat, more: nat, n: nat)
    requires Halts(c, d, s, k) && 0 < k <= more && n <= |Moves(c, d, s)|
    ensures BestFrom(c, d, s, more, n) == BestFrom(c, d, s, k, n)
    decreases k, 0, n
  {
    hide Moves;
    if n > 0 {
      Settled(c, d, Moves(c, d, s)[n - 1].next, k - 1, more - 1);
      SettledFrom(c, d, s, k, more, n - 1);
    }
  }

  /** s can be reached from a in n moves. */
  ghost predicate Reaches(c: Config, d: Durations, a: Spot, s: Spot, n: nat)
    decreases n
  {
    if n == 0 then a == s else
      exists i :: 0 <= i < |Moves(c, d, a)| && Reaches(c, d, Moves(c, d, a)[i].next, s, n - 1)
  }

  lemma {:induction false} ReachesNext(c: Config, d: Durations, a: Spot, s: Spot, n: nat, i: nat)
    requires Reaches(c, d, a, s, n) && i < |Moves(c, d, s)|
    ensures Reaches(c, d, a, Moves(c, d, s)[i].next, n + 1)
    decreases n
  {
    hide Moves;
    if n == 0 {
      assert Reaches(c, d, Moves(c, d, s)[i].next, Moves(c, d, s)[i].next, 0);
    } else {
      var j :| 0 <= j < |Moves(c, d, a)| && Reaches(c, d, Moves(c, d, a)[j].next, s, n - 1);
      ReachesNext(c, d, Moves(c, d, a)[j].next, s, n - 1, i);
    }
  }

  lemma {:induction false} HaltsAlong(c: Config, d: Durations, a: Spot, s: Spot, n: nat, k: nat)
    requires Reaches(c, d, a, s, n) && Halts(c, d, a, k)
    ensures n <= k && Halts(c, d, s, k - n)
    decreases n
  {
    hide Moves;
    if n > 0 {
      var i :| 0 <= i < |Moves(c, d, a)| && Reaches(c, d, Moves(c, d, a)[i].next, s, n - 1);
      HaltsAlong(c, d, Moves(c, d, a)[i].next, s, n - 1, k - 1);
    }
  }

  /** A spot that comes back to itself has no bound on its runs. */
  lemma {:induction false} CycleNeverHalts(c: Config, d: Durations, s: Spot, n: nat, k: nat)
    requires Reaches(c, d, s, s, n) && n > 0
    ensures !Halts(c, d, s, k)
    decreases k
  {
    hide Moves, Reaches;
    if Halts(c, d, s, k) {
      HaltsAlong(c, d, s, s, n, k);
      CycleNeverHalts(c, d, s, n, k - n);
    }
  }

  // ---------------------------------------------------------------- the search

  ghost function ReturnsLeftAt(c: Config, counts: map<nat, nat>, m: nat): nat
    requires m < |c.instructions|
  {
    var ins := c.instructions[m];
    if ins.Collect? && Get(counts, m) < ins.maximumMenuReturns then ins.maximumMenuReturns - Get(counts, m) else 0
  }

  /** Returns left over the first n instructions. */
  ghost function ReturnsLeft(c: Config, counts: map<nat, nat>, n: nat): nat
    requires n <= |c.instructions|
  {
    if n == 0 then 0 else ReturnsLeft(c, counts, n - 1) + ReturnsLeftAt(c, counts, n - 1)
  }

  lemma {:induction false} ReturnUsesOne(c: Config, counts: map<nat, nat>, m: nat, n: nat)
    requires m < |c.instructions| && n <= |c.instructions| && ReturnsLeftAt(c, counts, m) > 0
    ensures ReturnsLeft(c, counts[m := Get(counts, m) + 1], n) == ReturnsLeft(c, counts, n) - if m < n then 1 else 0
  {
    if n > 0 { ReturnUsesOne(c, counts, m, n - 1); }
  }

  /** A move stays inside the program and either keeps the counts or uses up one return. */
  lemma MoveEffect(c: Config, d: Durations, s: Spot, i: nat)
    requires InRange(c) && s.pc < |c.instructions| && i < |Moves(c, d, s)|
    ensures var next := Moves(c, d, s)[i].next;
            && next.pc < |c.instructions|
            && (next.counts == s.counts
                || ReturnsLeft(c, next.counts, |c.instructions|) < ReturnsLeft(c, s.counts, |c.instructions|))
  {
    hide ReturnsLeft;
    assert InstructionOk(c, s.pc);
    var ins := c.instructions[s.pc];
    if ins.Return? {
      var m := ins.menuPc;
      assert InstructionOk(c, m);
      var menu := c.instructions[m];
      if Get(s.counts, m) < menu.maximumMenuReturns {
        ReturnUsesOne(c, s.counts, m, |c.instructions|);
      } else {
        assert Targets(menu)[|menu.branches| + 2] == menu.onReturnLimitPc;
      }
    } else if ins.Record? {
      assert Targets(ins)[0] == ins.nextPc && Targets(ins)[1] == ins.onUnavailablePc;
    }
  }

  /** The counters being evaluated under the given counts. */
  ghost function ActiveAt(active: set<Spot>, counts: map<nat, nat>): set<nat> {
    set s | s in active && s.counts == counts :: s.pc
  }

  lemma {:induction false} BelowBound(s: set<nat>, n: nat)
    requires forall x :: x in s ==> x < n
    ensures |s| <= n
  {
    if n > 0 {
      BelowBound(s - {n - 1}, n - 1);
      if n - 1 !in s { assert s - {n - 1} == s; }
    } else if x :| x in s {
      assert false;
    }
  }

  class CostSearch {
    const config: Config
    const durations: Durations
    var cache: map<Spot, nat>
    var active: set<Spot>

    constructor (config: Config, durations: Durations)
      requires InRange(config)
      ensures this.config == config && this.durations == durations && active == {} && CacheOk()
    {
      this.config, this.durations, cache, active := config, durations, map[], {};
    }

    /** s has the bounded worst case v. */
    ghost predicate Bounded(s: Spot, v: nat) {
      exists k: nat :: Halts(config, durations, s, k) && v == Best(config, durations, s, k)
    }

    ghost predicate CacheOk()
      reads this
    {
      forall s :: s in cache ==> Bounded(s, cache[s])
    }

    /** Some run from a comes to s, one move later at the least. */
    ghost predicate LeadsTo(a: Spot, s: Spot) {
      exists n: nat :: n > 0 && Reaches(config, durations, a, s, n)
    }

    /** Everything being evaluated lies on the way to s. */
    ghost predicate OnTheWay(s: Spot)
      reads this
    {
      forall a :: a in active ==> a.pc < |config.instructions| && LeadsTo(a, s)
    }

    ghost function Fresh(counts: map<nat, nat>): int
      reads this
    {
      |config.instructions| - |ActiveAt(active, counts)|
    }

    lemma ActiveGrows(s: Spot, was: set<Spot>)
      requires active == was + {s} && s !in was && s.pc < |config.instructions|
      requires forall a :: a in active ==> a.pc < |config.instructions|
      ensures |ActiveAt(active, s.counts)| == |ActiveAt(was, s.counts)| + 1 <= |config.instructions|
    {
      assert ActiveAt(active, s.counts) == ActiveAt(was, s.counts) + {s.pc};
      BelowBound(ActiveAt(active, s.counts), |config.instructions|);
    }

    lemma ChildOnTheWay(s: Spot, i: nat, was: set<Spot>)
      requires i < |Moves(config, durations, s)| && s.pc < |config.instructions|
      requires active == was + {s}
      requires forall a :: a in was ==> a.pc < |config.instructions| && LeadsTo(a, s)
      ensures OnTheWay(Moves(config, durations, s)[i].next)
    {
      var next := Moves(config, durations, s)[i].next;
      forall a | a in active ensures LeadsTo(a, next) {
        if a == s {
          assert Reaches(config, durations, s, s, 0);
          ReachesNext(config, durations, s, s, 0, i);
          assert Reaches(config, durations, a, next, 1);
        } else {
          var n: nat :| n > 0 && Reaches(config, durations, a, s, n);
          ReachesNext(config, durations, a, s, n, i);
          assert Reaches(config, durations, a, next, n + 1);
        }
      }
    }

    /** `maximum_cost`: the number when every run ends, the cycle error when some run does not. */
    method MaximumCost(s: Spot) returns (r: Option<nat>)
      requires InRange(config) && s.pc < |config.instructions| && CacheOk() && OnTheWay(s)
      modifies this
      ensures active == old(active) && CacheOk()
      ensures r.Some? ==> Bounded(s, r.value)
      ensures r.None? ==> forall k: nat :: !Halts(config, durations, s, k)
      decreases ReturnsLeft(config, s.counts, |config.instructions|), Fresh(s.counts), 1
    {
      if s in cache { return Some(cache[s]); }
      if s in active {
        ghost var n: nat :| n > 0 && Reaches(config, durations, s, s, n);
        forall k: nat ensures !Halts(config, durations, s, k) {
          CycleNeverHalts(config, durations, s, n, k);
        }
        return None;
      }
      ghost var was := active;
      active := active + {s};
      r := BestMove(s, was);
      active := active - {s};
      if r.Some? { cache := cache[s := r.value]; }
    }

    /** The `max` over the ways on from s. */
    method BestMove(s: Spot, ghost was: set<Spot>) returns (r: Option<nat>)
      requires InRange(config) && s.pc < |config.instructions| && CacheOk()
      requires active == was + {s} && s !in was
      requires forall a :: a in was ==> a.pc < |config.instructions| && LeadsTo(a, s)
      modifies this
      ensures active == old(active) && CacheOk()
      ensures r.Some? ==> Bounded(s, r.value)
      ensures r.None? ==> forall k: nat :: !Halts(config, durations, s, k)
      decreases ReturnsLeft(config, s.counts, |config.instructions|), |config.instructions| - |ActiveAt(was, s.counts)|, 0
    {
      hide Moves, Best, ReturnsLeft;
      var moves := Moves(config, durations, s);
      var best: nat, i := 0, 0;
      ghost var k: nat := 0;
      while i < |moves|
        invariant 0 <= i <= |moves|
        invariant active == old(active) && CacheOk()
        invariant forall j :: 0 <= j < i ==> Halts(config, durations, moves[j].next, k)
        invariant best == BestFrom(config, durations, s, k + 1, i)
      {
        MoveEffect(config, durations, s, i);
        ChildOnTheWay(s, i, was);
        ActiveGrows(s, was);
        var rest := MaximumCost(moves[i].next);
        if rest.None? {
          forall b: nat ensures !Halts(config, durations, s, b) {
            if b > 0 { assert !Halts(config, durations, moves[i].next, b - 1); }
          }
          return None;
        }
        ghost var own: nat :| Halts(config, durations, moves[i].next, own) && rest.value == Best(config, durations, moves[i].next, own);
        ghost var larger: nat := if own < k then k else own;
        Widen(s, i, k, larger);
        Settled(config, durations, moves[i].next, own, larger);
        k := larger;
        if best < moves[i].charge + rest.value { best := moves[i].charge + rest.value; }
        i := i + 1;
      }
      assert Halts(config, durations, s, k + 1);
      BestUnfolds(config, durations, s, k + 1);
      return Some(best);
    }

    lemma {:induction false} Widen(s: Spot, i: nat, k: nat, larger: nat)
      requires i <= |Moves(config, durations, s)| && k <= larger
      requires forall j :: 0 <= j < i ==> Halts(config, durations, Moves(config, durations, s)[j].next, k)
      ensures forall j :: 0 <= j < i ==> Halts(config, durations, Moves(config, durations, s)[j].next, larger)
      ensures BestFrom(config, durations, s, larger + 1, i) == BestFrom(config, durations, s, k + 1, i)
    {
      hide Moves;
      if i > 0 {
        Widen(s, i - 1, k, larger);
        Settled(config, durations, Moves(config, durations, s)[i - 1].next, k, larger);
      }
    }
  }

  lemma BestUnfolds(c: Config, d: Durations, s: Spot, k: nat)
    requires k > 0
    ensures Best(c, d, s, k) == BestFrom(c, d, s, k, |Moves(c, d, s)|)
  {
  }
}
