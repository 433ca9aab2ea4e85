/**
  From the editor to the end of a session: a flow that passes the checks of server/app/v4_api.py is
  compiled on the server, accepted by the device and run there as the block tree says.
*/
module Publish {
  import opened Prelude
  import opened Flow
  import opened Tape
  import opened Session
  import opened SessionCost
  import opened SessionBound
  import opened Simulation
  import opened Lowering
  import opened FlowCompiler
  import CycleGuard
  import I = Interpreter
  import opened Validation
  import A = Agreement
  import M = Meaning
  import R = RunSafety
  import V = ProgramVerifier

  /** Every menu of a flow within the limits has one branch for a key. */
  lemma LimitsMakeKeysDistinct(root: Block)
    requires A.WithinLimits(root)
    ensures M.DistinctKeys(root)
  {
    forall k | 0 <= k < |Nodes(root)| && Nodes(root)[k].block.CollectDigit? ensures DistinctDigits(Nodes(root)[k].block.branches) {
      assert A.MenuUsable(Nodes(root)[k].block);
    }
  }

  /** Its automated session has a longest course, within ten minutes. */
  ghost predicate InTime(root: Block, behavior: RecordingBehavior, durations: Durations) {
    exists v: nat :: v <= MAXIMUM_SESSION_MS && WorstCase(TapeOf(root, behavior), durations, v)
  }

  /** `validation_errors`: the editor's walk, then a trial compilation.  What passes is exactly a flow
      whose tape the device would accept, that names known things and that takes at most ten minutes. */
  method ValidationErrors(root: Block, behavior: RecordingBehavior, durations: Durations, library: Library) returns (ok: bool)
    ensures ok <==>
      && Compilable(root) && A.DeviceAccepts(TapeOf(root, behavior))
      && AllKnown(root, library) && InTime(root, behavior, durations)
  {
    hide A.WithinLimits, A.DeviceAccepts, Compilable, AllKnown, WorstCase, Flatten, Emit, CycleGuard.Trapped, Explains;
    ok := ValidateConfigurationV4(root, library);
    if Compilable(root) { A.CompilerVerifierAgree(root, behavior); }
    if ok {
      NeverTrapped(root);
      NotEmpty(root);
      var compiled := CompileFlowV4(root, behavior, durations);
      ok := compiled.Ok?;
      if !ok { OneWorstCase(root, behavior, durations); }
    }
  }

  lemma NotEmpty(root: Block)
    requires Compilable(root)
    ensures !root.Empty?
  {
  }

  /** A flow whose worst case is too long has no other worst case. */
  lemma OneWorstCase(root: Block, behavior: RecordingBehavior, durations: Durations)
    requires Compilable(root)
    requires exists v :: v > MAXIMUM_SESSION_MS && WorstCase(TapeOf(root, behavior), durations, v)
    ensures !InTime(root, behavior, durations)
  {
    hide Halts, Best, Compilable, Emit, Flatten;
    var c := TapeOf(root, behavior);
    A.CompiledInRange(root, behavior);
    RootFirst(root);
    var v :| v > MAXIMUM_SESSION_MS && WorstCase(c, durations, v);
    var j: nat :| Halts(c, durations, Spot(0, map[]), j) && v == Best(c, durations, Spot(0, map[]), j);
    if InTime(root, behavior, durations) {
      var w: nat :| w <= MAXIMUM_SESSION_MS && WorstCase(c, durations, w);
      var k: nat :| Halts(c, durations, Spot(0, map[]), k) && w == Best(c, durations, Spot(0, map[]), k);
      if j <= k { Settled(c, durations, Spot(0, map[]), j, k); } else { Settled(c, durations, Spot(0, map[]), k, j); }
    }
  }

  /** Check, compile, verify and run.  What passes the checks compiles and is accepted, and the run visits
      the blocks the walk of the tree visits and ends as it does, within 144 steps and ten charged minutes. */
  method PublishedSession(root: Block, behavior: RecordingBehavior, durations: Durations, library: Library, events: seq<Event>)
    returns (r: Option<Report>)
    ensures r.Some? <==>
      && Compilable(root) && A.DeviceAccepts(TapeOf(root, behavior))
      && AllKnown(root, library) && InTime(root, behavior, durations)
    ensures r.Some? ==>
      && r.value == SimulateFlow(root, events, I.MAXIMUM_TRANSITIONS)
      && R.Proper(r.value.ending) && |r.value.visited| <= 144
      && Sum(Charges(TapeOf(root, behavior), durations, I.START, events, I.MAXIMUM_TRANSITIONS)) <= MAXIMUM_SESSION_MS
  {
    hide M.DistinctKeys, A.WithinLimits, A.DeviceAccepts, Compilable, AllKnown, WellOwned, InRange, Flatten, Moves, Emit,
      WorstCase, CycleGuard.Trapped, Explains;
    var passed := ValidationErrors(root, behavior, durations, library);
    if !passed { return None; }
    A.CompilerVerifierAgree(root, behavior);
    NeverTrapped(root);
    NotEmpty(root);
    var compiled := CompileFlowV4(root, behavior, durations);
    if compiled.Err? { OneWorstCase(root, behavior, durations); }
    var config := compiled.value.config;
    AcceptedIsWellOwned(config);
    var accepted := V.ValidateProgramV2(config);
    var report := I.RunConfiguredProgramV2(config, events);
    LimitsMakeKeysDistinct(root);
    M.MeaningPreserved(root, behavior, events, I.MAXIMUM_TRANSITIONS);
    R.CapNeverReached(config, events, I.MAXIMUM_TRANSITIONS);
    A.CompiledInRange(root, behavior);
    RunWithinMaximum(config, durations, events, compiled.value.maximumAutomatedSessionMs);
    assert accepted;
    return Some(report);
  }

  lemma NeverTrapped(root: Block)
    requires A.WithinLimits(root)
    ensures !CycleGuard.Trapped(root)
  {
    CycleGuard.NoSelfReturnNotTrapped(root);
  }

  lemma AcceptedIsWellOwned(c: Config)
    requires A.DeviceAccepts(c)
    ensures WellOwned(c)
  {
  }

  lemma RunWithinMaximum(c: Config, d: Durations, events: seq<Event>, v: nat)
    requires InRange(c) && c.entryPc == 0 && WorstCase(c, d, v)
    ensures Sum(Charges(c, d, I.START, events, I.MAXIMUM_TRANSITIONS)) <= v
  {
    hide Moves, Halts;
    var k: nat :| Halts(c, d, Spot(0, map[]), k) && v == Best(c, d, Spot(0, map[]), k);
    ChargesBounded(c, d, I.START, events, I.MAXIMUM_TRANSITIONS, k);
  }
}
