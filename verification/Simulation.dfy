/**
  The reference meaning of a flow: walking the block tree itself, where a return goes to the
  innermost menu the walk has come through.  This is server/app/simulation_v4.py with the
  owner of a return found by carrying the menu along instead of by an index of owners.
*/
module Simulation {
  import opened Prelude
  import opened Flow
  import opened Session

  datatype Position = Position(block: Block, menu: Option<Block>, counts: map<Id, nat>, at: nat)

  datatype Move = Go(position: Position) | Halt(ending: Ending)

  /** i is the last of the branches the editor saved for a key. */
  predicate LastBranch(bs: seq<Branch>, key: char, i: int) {
    0 <= i < |bs| && bs[i].digit == key && forall j :: i < j < |bs| ==> bs[j].digit != key
  }

  /** `branch_by_digit`: a dictionary keeps the last branch of a key. */
  function BranchFor(bs: seq<Branch>, key: char): (r: Option<Block>)
    ensures r.None? ==> forall i :: 0 <= i < |bs| ==> bs[i].digit != key
    ensures r.Some? ==> exists i :: LastBranch(bs, key, i) && bs[i].root == r.value
  {
    if bs == [] then None
    else if bs[|bs| - 1].digit == key then
      assert LastBranch(bs, key, |bs| - 1);
      Some(bs[|bs| - 1].root)
    else
      var r := BranchFor(bs[..|bs| - 1], key);
      assert forall i :: LastBranch(bs[..|bs| - 1], key, i) ==> LastBranch(bs, key, i);
      r
  }

  datatype Choice = Chosen(block: Block, at: nat) | NoChoice(ending: Ending)

  function Choose(menu: Block, events: seq<Event>, at: nat, attempt: nat): Choice
    requires menu.CollectDigit?
    decreases menu.maximumAttempts - attempt
  {
    if attempt >= menu.maximumAttempts then NoChoice(Unrouted)
    else if at >= |events| then NoChoice(Waiting)
    else
      var last := attempt + 1 == menu.maximumAttempts;
      match events[at]
      case KeyPressed(key) =>
        (match BranchFor(menu.branches, key)
         case Some(root) => Chosen(root, at + 1)
         case None => if last then Chosen(menu.onInvalid, at + 1) else Choose(menu, events, at + 1, attempt + 1))
      case NoKey =>
        if last then Chosen(menu.onTimeout, at + 1) else Choose(menu, events, at + 1, attempt + 1)
      case Hangup => NoChoice(CallerLeft)
      case _ => NoChoice(Stopped)
  }

  function Advance(p: Position, events: seq<Event>): Move {
    match p.block
    case Empty => Halt(Broken)
    case PlayPrompt(_, _, next) => Go(p.(block := next))
    case CollectDigit(_, _, _, _, _, _, _, _, _, _) =>
      (match Choose(p.block, events, p.at, 0)
       case Chosen(block, at) => Go(p.(block := block, menu := Some(p.block), at := at))
       case NoChoice(ending) => Halt(ending))
    case ReturnToMenu(_) =>
      if p.menu.None? || !p.menu.value.CollectDigit? then Halt(Broken)
      else
        var menu, count := p.menu.value, Get(p.counts, p.menu.value.id);
        if count < menu.maximumMenuReturns
        then Go(p.(block := menu, counts := p.counts[menu.id := count + 1]))
        else Go(p.(block := menu.onReturnLimit))
    case EndCall(_) => Halt(Finished)
    case ScheduleBranch(_, _, onOpen, onClosed, onHoliday) =>
      if p.at >= |events| then Halt(Waiting)
      else (match events[p.at]
        case Open => Go(p.(block := onOpen, at := p.at + 1))
        case Closed => Go(p.(block := onClosed, at := p.at + 1))
        case Holiday => Go(p.(block := onHoliday, at := p.at + 1))
        case _ => Halt(Stopped))
    case RecordMessage(_, next, onUnavailable) =>
      if p.at >= |events| then Halt(Waiting)
      else (match events[p.at]
        case Recorded => Go(p.(block := next, at := p.at + 1))
        case Unavailable => Go(p.(block := onUnavailable, at := p.at + 1))
        case Hangup => Halt(CallerLeft)
        case _ => Halt(Stopped))
    case ExternalCall(_, _, _, next, onNotConnected, onSystemFailure) =>
      if p.at >= |events| then Halt(Waiting)
      else (match events[p.at]
        case Called(Completed) => Go(p.(block := next, at := p.at + 1))
        case Called(NotConnected) => Go(p.(block := onNotConnected, at := p.at + 1))
        case Called(SystemFailure) => Go(p.(block := onSystemFailure, at := p.at + 1))
        case Called(CallerHangup) => Halt(CallerLeft)
        case _ => Halt(Stopped))
  }

  function IdOf(b: Block): Id {
    if b.Empty? then "" else b.id
  }

  function Simulate(p: Position, events: seq<Event>, fuel: nat): Report
    decreases fuel
  {
    if fuel == 0 then Report([], OutOfSteps)
    else if p.block.Empty? then Report([], Broken)
    else match Advance(p, events)
      case Halt(ending) => Report([p.block.id], ending)
      case Go(next) =>
        var rest := Simulate(next, events, fuel - 1);
        Report([p.block.id] + rest.visited, rest.ending)
  }

  function SimulateFlow(root: Block, events: seq<Event>, fuel: nat): Report {
    Simulate(Position(root, None, map[], 0), events, fuel)
  }
}
