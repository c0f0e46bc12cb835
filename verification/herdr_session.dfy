/** Asking Herdr about the named session, and ending it. */
module HerdrSession {
  import opened Text

  datatype Status = Status(running: bool, compatible: Option<bool>)

  predicate Healthy(s: Status) {
    s.running && (s.compatible == None || s.compatible == Some(true))
  }

  /** One status query. A query that exits non-zero means a session that is not
      running; one whose output cannot be parsed is an error. */
  datatype Answer = Exited | Unreadable | Reported(status: Status)

  function Running(a: Answer): Option<bool> {
    match a
    case Exited => Some(false)
    case Unreadable => None
    case Reported(s) => Some(s.running)
  }

  /** Why polling ended. */
  datatype Ending = Deadline | ContextOver

  datatype Outcome = NotRunning | Stopped | QueryFailed | CommandFailed | DidNotStop | Interrupted

  /** The answers that say that the session runs, and that it does not. */
  predicate SaysRunning(a: Answer) {
    a.Reported? && a.status.running
  }

  predicate SaysGone(a: Answer) {
    a.Exited? || (a.Reported? && !a.status.running)
  }

  ghost predicate SeenGone(polls: seq<Answer>) {
    exists k :: 0 <= k < |polls| && SaysGone(polls[k])
  }

  /** The first answer, whether the stop command succeeded, and the answers polled
      until the deadline or the context ended it. The command's own success decides
      nothing but the wording of a failure. */
  method StopHerdrSession(first: Answer, succeeded: bool, polls: seq<Answer>, ending: Ending) returns (outcome: Outcome, ordered: bool)
    requires polls != []
    ensures ordered <==> SaysRunning(first)
    ensures outcome == QueryFailed <==> first == Unreadable
    ensures outcome == NotRunning <==> SaysGone(first)
    ensures outcome == Stopped <==> ordered && SeenGone(polls)
    ensures ordered && !SeenGone(polls) ==>
      outcome == (if ending.ContextOver? then Interrupted else if succeeded then DidNotStop else CommandFailed)
  {
    match Running(first) {
      case None => return QueryFailed, false;
      case Some(running) =>
        if !running {
          return NotRunning, false;
        }
    }
    ordered := true;
    var k := 0;
    while k < |polls|
      invariant k <= |polls|
      invariant forall j | 0 <= j < k :: !SaysGone(polls[j])
    {
      if Running(polls[k]) == Some(false) {
        return Stopped, true;
      }
      k := k + 1;
    }
    if ending.ContextOver? {
      return Interrupted, true;
    }
    outcome := if succeeded then DidNotStop else CommandFailed;
  }
}
