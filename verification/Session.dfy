/** What a session meets from outside, one event for each time it has to wait for something. */
module Session {
  import opened Flow

  /** How an operator call ended: `ExternalCallRuntimeResult`. */
  datatype CallResult = Completed | CallerHangup | NotConnected | SystemFailure | CleanupTimeout | Failed

  datatype Event =
    | KeyPressed(key: char)
    | NoKey
    | Open
    | Closed
    | Holiday
    | Recorded
    | Unavailable
    | Hangup
    | Called(result: CallResult)
    | Preempted

  datatype Ending =
    | Finished    // an END instruction was reached
    | CallerLeft
    | Stopped     // preempted, failed, or met an event the step cannot take
    | Waiting     // the next step needs an event that has not happened
    | OutOfSteps  // the transition cap
    | Broken      // a missing step, or a return that has no menu
    | Unrouted    // a menu that used up its attempts without choosing a way on

  /** The blocks executed, in order, and how the run ended. */
  datatype Report = Report(visited: seq<Id>, ending: Ending)

  function Get<K>(m: map<K, nat>, k: K): nat {
    if k in m then m[k] else 0
  }
}
