/** The detailed session states and what they permit. */
module State {

  datatype DetailedState =
    | Starting | Running | WaitingForAgent | WaitingForTool | WaitingForUser | Idle
    | Stalled | Completed | Failed | Cancelled | Disappeared | Unknown
  {
    predicate StallTimerRuns() {
      !(WaitingForUser? || Completed? || Failed? || Cancelled? || Disappeared? || Unknown?)
    }
  }
}
