/** What must have arrived before the connect flow does what it does: every visible
    action is traced to the requests and answers of the run so far. */
module ConnectEvidence {
  import opened Text
  import opened Connect

  /** The redirect the flow waits for, and the form it serves, filled in. */
  const GOOD_CALLBACK := Callback(true, true, false, true)
  const GOOD_FORM := Form(true, true, true, true)

  // ----- Requests -----

  ghost predicate RequestsArrived(s: State, ls: seq<Label>) {
    forall k | 0 <= k < |s.requests| :: Arrived(s.requests[k], ls)
  }

  ghost predicate Arrived(r: Request, ls: seq<Label>) {
    match r
    case Callback(_, _, _, _) => Arrive(r) in ls
    case Form(_, _, _, _) => Arrive(r) in ls
    case Admitted(nameOk) => Arrive(Form(true, true, true, nameOk)) in ls
    case Answered => true
  }

  /** The callback winner accepted, or the exchange is past it. */
  predicate Heard(s: State) {
    s.page == Claimed(Code) || s.page == Sent(Code) || s.page.Waiting? || s.callbackCh == Some(Code) || s.main.Exchanging? || s.log != []
  }

  ghost predicate PageEvidence(s: State, ls: seq<Label>) {
    Heard(s) ==> Arrive(GOOD_CALLBACK) in ls
  }

  ghost predicate FormEvidence(s: State, ls: seq<Label>) {
    s.form != NoForm || |s.log| > 4 ==> Arrive(GOOD_FORM) in ls
  }

  // ----- Answers -----

  ghost predicate TokenEvidence(s: State, ls: seq<Label>) {
    && (s.main.CheckingNonce? ==> MainStep(Receive(s.main.arrived, s.main.nonceOk)) in ls)
    && (s.main.Storing? ==> MainStep(Receive(s.main.kept, true)) in ls)
    && (|s.log| >= 4 ==> s.log[2].TokenReceived? && MainStep(Receive(s.log[2].got, true)) in ls)
  }

  ghost predicate SubmissionEvidence(s: State, ls: seq<Label>) {
    && ((s.form.Enrolled? && s.form.ok) || (s.form.Cleared? && s.form.ok) || Persisted in s.log ==> FormStep(Enrolls(true)) in ls)
    && (Persisted in s.log ==> FormStep(Saves(true)) in ls)
  }

  predicate Overdue(m: Main) {
    (m.Clearing? && m.result.FormTimedOut?) || (m.Returned? && (m.result.FormTimedOut? || m.result.CallbackTimedOut?))
  }

  ghost predicate DeadlineEvidence(s: State, ls: seq<Label>) {
    (s.expired && !s.main.Returned?) || Overdue(s.main) ==> Expire in ls
  }

  ghost predicate Evidence(s: State, ls: seq<Label>) {
    && RequestsArrived(s, ls) && PageEvidence(s, ls) && FormEvidence(s, ls)
    && TokenEvidence(s, ls) && SubmissionEvidence(s, ls) && DeadlineEvidence(s, ls)
  }

  // ----- Each step keeps the evidence -----

  /** What main and the winners show, the requests in hand apart. */
  ghost predicate Shown(s: State, ls: seq<Label>) {
    && PageEvidence(s, ls) && FormEvidence(s, ls)
    && TokenEvidence(s, ls) && SubmissionEvidence(s, ls) && DeadlineEvidence(s, ls)
  }

  lemma StartEvidence(s: State, c: Choice, ls: seq<Label>)
    requires Inv(s) && Shown(s, ls) && NextStart(s, c).Some?
    ensures Shown(NextStart(s, c).value, ls + [MainStep(c)])
  {}

  lemma ExchangeEvidence(s: State, c: Choice, ls: seq<Label>)
    requires Inv(s) && Shown(s, ls) && NextExchange(s, c).Some?
    ensures Shown(NextExchange(s, c).value, ls + [MainStep(c)])
  {}

  lemma TellEvidence(s: State, c: Choice, ls: seq<Label>)
    requires Inv(s) && Shown(s, ls) && NextTell(s, c).Some?
    ensures Shown(NextTell(s, c).value, ls + [MainStep(c)])
  {}

  lemma WaitEvidence(s: State, c: Choice, ls: seq<Label>)
    requires Inv(s) && Shown(s, ls) && NextWait(s, c).Some?
    ensures Shown(NextWait(s, c).value, ls + [MainStep(c)])
  {}

  lemma FinishEvidence(s: State, c: Choice, ls: seq<Label>)
    requires Inv(s) && Shown(s, ls) && NextFinish(s, c).Some?
    ensures Shown(NextFinish(s, c).value, ls + [MainStep(c)])
  {}

  lemma MainShows(s: State, c: Choice, ls: seq<Label>)
    requires Inv(s) && Shown(s, ls) && NextMain(s, c).Some?
    ensures Shown(NextMain(s, c).value, ls + [MainStep(c)])
  {
    if NextMain(s, c) == NextStart(s, c) { StartEvidence(s, c, ls); }
    else if NextMain(s, c) == NextExchange(s, c) { ExchangeEvidence(s, c, ls); }
    else if NextMain(s, c) == NextTell(s, c) { TellEvidence(s, c, ls); }
    else if NextMain(s, c) == NextWait(s, c) { WaitEvidence(s, c, ls); }
    else { FinishEvidence(s, c, ls); }
  }

  lemma CallbackShows(s: State, k: nat, ls: seq<Label>)
    requires Inv(s) && Evidence(s, ls) && k < |s.requests| && s.requests[k].Callback?
    ensures Shown(NextRequest(s, k), ls + [RequestStep(k)])
  {
    assert Arrived(s.requests[k], ls);
  }

  lemma AdmittedShows(s: State, k: nat, ls: seq<Label>)
    requires Inv(s) && Evidence(s, ls) && k < |s.requests| && s.requests[k].Admitted?
    ensures Shown(NextRequest(s, k), ls + [RequestStep(k)])
  {
    assert Arrived(s.requests[k], ls);
  }

  lemma OtherRequestShows(s: State, k: nat, ls: seq<Label>)
    requires Inv(s) && Evidence(s, ls) && k < |s.requests| && (s.requests[k].Form? || s.requests[k].Answered?)
    ensures Shown(NextRequest(s, k), ls + [RequestStep(k)])
  {}

  /** A handler's next position has arrived as its request has. */
  lemma RequestStaysArrived(s: State, k: nat, ls: seq<Label>)
    requires RequestsArrived(s, ls) && k < |s.requests|
    ensures |NextRequest(s, k).requests| == |s.requests|
    ensures Arrived(NextRequest(s, k).requests[k], ls)
    ensures forall j | 0 <= j < |s.requests| && j != k :: NextRequest(s, k).requests[j] == s.requests[j]
  {
    assert Arrived(s.requests[k], ls);
  }

  lemma ArrivedLasts(r: Request, ls: seq<Label>, l: Label)
    requires Arrived(r, ls)
    ensures Arrived(r, ls + [l])
  {}

  lemma AllArrivedLast(s: State, ls: seq<Label>, l: Label)
    requires RequestsArrived(s, ls)
    ensures RequestsArrived(s, ls + [l])
  {
    forall k | 0 <= k < |s.requests| ensures Arrived(s.requests[k], ls + [l]) {
      ArrivedLasts(s.requests[k], ls, l);
    }
  }

  lemma RequestEvidence(s: State, k: nat, ls: seq<Label>)
    requires Inv(s) && Evidence(s, ls) && k < |s.requests|
    ensures Evidence(NextRequest(s, k), ls + [RequestStep(k)])
  {
    RequestStaysArrived(s, k, ls);
    AllArrivedLast(NextRequest(s, k), ls, RequestStep(k));
    match s.requests[k]
    case Callback(_, _, _, _) => CallbackShows(s, k, ls);
    case Admitted(_) => AdmittedShows(s, k, ls);
    case _ => OtherRequestShows(s, k, ls);
  }

  lemma PageShows(s: State, c: Choice, ls: seq<Label>)
    requires Inv(s) && Shown(s, ls) && NextPage(s, c).Some?
    ensures Shown(NextPage(s, c).value, ls + [PageStep(c)])
  {
    PageLeavesMain(s, c);
    PageLeavesForm(s, c);
    PageLogs(s, c);
  }

  lemma FormShows(s: State, c: Choice, ls: seq<Label>)
    requires Inv(s) && Shown(s, ls) && NextForm(s, c).Some?
    ensures Shown(NextForm(s, c).value, ls + [FormStep(c)])
  {}

  lemma WorldShows(s: State, l: Label, ls: seq<Label>)
    requires Shown(s, ls) && (l.Arrive? || l.Expire?) && Next(s, l).Some?
    ensures Shown(Next(s, l).value, ls + [l])
  {}

  lemma ArrivalIsEvident(s: State, r: Request, ls: seq<Label>)
    requires RequestsArrived(s, ls) && Next(s, Arrive(r)).Some?
    ensures RequestsArrived(Next(s, Arrive(r)).value, ls + [Arrive(r)])
  {
    AllArrivedLast(s, ls, Arrive(r));
  }

  lemma StepEvidence(s: State, l: Label, ls: seq<Label>)
    requires Inv(s) && Evidence(s, ls) && Next(s, l).Some?
    ensures Evidence(Next(s, l).value, ls + [l])
  {
    AllArrivedLast(s, ls, l);
    if l.RequestStep? {
      RequestEvidence(s, l.k, ls);
    } else {
      match l {
        case Arrive(r) =>
          ArrivalIsEvident(s, r, ls);
          WorldShows(s, l, ls);
        case MainStep(c) =>
          MainFalls(s, c);
          MainShows(s, c, ls);
        case PageStep(c) =>
          PageLeavesRequests(s, c);
          PageShows(s, c, ls);
        case FormStep(c) =>
          FormLeavesRequests(s, c);
          FormShows(s, c, ls);
        case Expire =>
          WorldShows(s, l, ls);
      }
    }
  }

  lemma {:induction false} RunEvidence(ls: seq<Label>)
    requires Exec(Start(), ls).Some?
    ensures Evidence(Exec(Start(), ls).value, ls)
    decreases |ls|
  {
    if ls == [] {
    } else {
      var front, l := ls[..|ls| - 1], ls[|ls| - 1];
      assert ls == front + [l];
      ExecSnoc(Start(), front, l);
      RunEvidence(front);
      StartHolds();
      RunKeeps(Start(), front);
      StepEvidence(Exec(Start(), front).value, l, front);
    }
  }

  // ----- What the visible actions prove -----

  /** Every exchange in every run follows the arrival of a GET callback with the
      flow's own state, no provider error and a code. */
  lemma ExchangeNeedsGoodCallback(ls: seq<Label>)
    requires Exec(Start(), ls).Some? && ExchangeSent in Exec(Start(), ls).value.log
    ensures Arrive(Callback(true, true, false, true)) in ls
  {
    RunEvidence(ls);
  }

  /** A passed nonce check means that the token endpoint answered with that very
      token and a matching nonce. */
  lemma NonceCheckNeedsMatch(ls: seq<Label>)
    requires Exec(Start(), ls).Some? && NonceChecked in Exec(Start(), ls).value.log
    ensures exists t: Token :: t.Token? && TokenReceived(t) in Exec(Start(), ls).value.log && MainStep(Receive(t, true)) in ls
  {
    var s := Exec(Start(), ls).value;
    RunEvidence(ls);
    StartHolds();
    RunKeeps(Start(), ls);
    var t :| Sound(s, t);
    assert NonceChecked in s.log ==> |s.log| >= 4;
    assert s.log[2] == Script(t)[2] == TokenReceived(t);
  }

  /** Every enrollment POST follows the arrival of a POSTed, parsed form with the
      flow's own state and a valid machine name. */
  lemma PostNeedsGoodForm(ls: seq<Label>, t: Token)
    requires Exec(Start(), ls).Some? && EnrollPosted(t) in Exec(Start(), ls).value.log
    ensures Arrive(Form(true, true, true, true)) in ls
  {
    var s := Exec(Start(), ls).value;
    RunEvidence(ls);
    StartHolds();
    RunKeeps(Start(), ls);
    var u :| Sound(s, u);
    assert EnrollPosted(t) in s.log ==> |s.log| > 4;
  }

  /** Nothing is persisted unless the endpoint accepted and finalize saved. */
  lemma PersistNeedsAcceptance(ls: seq<Label>)
    requires Exec(Start(), ls).Some? && Persisted in Exec(Start(), ls).value.log
    ensures FormStep(Enrolls(true)) in ls && FormStep(Saves(true)) in ls
  {
    RunEvidence(ls);
  }

  /** A timeout is reported only after the deadline. */
  lemma TimeoutNeedsDeadline(ls: seq<Label>)
    requires Exec(Start(), ls).Some?
    requires var m := Exec(Start(), ls).value.main; m == Returned(CallbackTimedOut) || m == Returned(FormTimedOut)
    ensures Expire in ls
  {
    RunEvidence(ls);
  }

  // ----- The callback that wins decides -----

  /** The winning callback was refused, and main has not been told otherwise. */
  predicate Barred(s: State) {
    && s.callbackUsed && s.log == [] && s.callbackCh != Some(Code)
    && (s.page == Claimed(Refused) || s.page == Sent(Refused) || s.page.Leaving? || s.page.PageDone?)
    && (Early(s.main) || Refusal(s.main)) && !s.authComplete && s.form.NoForm?
    && forall k | 0 <= k < |s.requests| :: !s.requests[k].Admitted?
  }

  lemma WaitStaysBarred(s: State, c: Choice)
    requires Barred(s) && NextWait(s, c).Some?
    ensures Barred(NextWait(s, c).value)
  {}

  lemma OpeningStaysBarred(s: State, c: Choice)
    requires Barred(s) && NextStart(s, c).Some? && s.main.Opening?
    ensures Barred(NextStart(s, c).value)
  {}

  lemma StartStaysBarred(s: State, c: Choice)
    requires Barred(s) && NextStart(s, c).Some? && s.main.AwaitCallback?
    ensures Barred(NextStart(s, c).value)
  {}

  lemma MainStaysBarred(s: State, c: Choice)
    requires Barred(s) && NextMain(s, c).Some?
    ensures Barred(NextMain(s, c).value)
  {
    if s.main.AwaitPage? { WaitStaysBarred(s, c); }
    else if s.main.Opening? { OpeningStaysBarred(s, c); }
    else { StartStaysBarred(s, c); }
  }

  lemma RequestStaysBarred(s: State, k: nat)
    requires Barred(s) && k < |s.requests|
    ensures Barred(NextRequest(s, k))
  {}

  lemma PageStaysBarred(s: State, c: Choice)
    requires Barred(s) && NextPage(s, c).Some?
    ensures Barred(NextPage(s, c).value)
  {}

  lemma StepStaysBarred(s: State, l: Label)
    requires Barred(s) && Next(s, l).Some?
    ensures Barred(Next(s, l).value)
  {
    match l
    case MainStep(c) => MainStaysBarred(s, c);
    case RequestStep(k) => RequestStaysBarred(s, k);
    case PageStep(c) => PageStaysBarred(s, c);
    case _ =>
  }

  lemma {:induction false} RunStaysBarred(s: State, ls: seq<Label>)
    requires Barred(s) && Exec(s, ls).Some?
    ensures Barred(Exec(s, ls).value)
    decreases |ls|
  {
    if ls == [] {
    } else {
      StepStaysBarred(s, ls[0]);
      RunStaysBarred(Next(s, ls[0]).value, ls[1..]);
    }
  }

  /** A GET callback about to win the compare-and-swap. */
  predicate AboutToWin(s: State, k: nat) {
    k < |s.requests| && s.requests[k].Callback? && s.requests[k].get && !s.callbackUsed
  }

  lemma LoserBars(s: State, k: nat)
    requires Inv(s) && AboutToWin(s, k) && s.requests[k] != Callback(true, true, false, true)
    ensures Barred(NextRequest(s, k))
  {
    var t :| Sound(s, t);
  }

  /** A good callback that wins while main waits can be followed by the exchange. */
  lemma WinnerIsHeard(s: State, k: nat)
    requires Inv(s) && AboutToWin(s, k) && s.requests[k] == Callback(true, true, false, true) && s.main.AwaitCallback?
    ensures exists ls :: Exec(NextRequest(s, k), ls).Some? && ExchangeSent in Exec(NextRequest(s, k), ls).value.log
  {
    var t :| Sound(s, t);
    var s1 := NextRequest(s, k);
    var s2 := NextPage(s1, Go).value;
    assert Next(s1, PageStep(Go)) == Some(s2) && s2.callbackCh == Some(Code);
    var s3 := NextMain(s2, Go).value;
    assert Next(s2, MainStep(Go)) == Some(s3) && s3.main.Exchanging?;
    var s4 := NextMain(s3, Go).value;
    assert Next(s3, MainStep(Go)) == Some(s4) && s4.log[|s3.log|] == ExchangeSent;
    ExecCons(s3, MainStep(Go), []);
    ExecCons(s2, MainStep(Go), [MainStep(Go)] + []);
    ExecCons(s1, PageStep(Go), [MainStep(Go)] + ([MainStep(Go)] + []));
  }

  /** One callback decides the flow: when it wins while main waits, an exchange can
      follow exactly when it carries the flow's state, no error and a code. */
  lemma WinnerDecides(s: State, k: nat)
    requires Reachable(s) && AboutToWin(s, k) && s.main.AwaitCallback?
    ensures (exists ls :: Exec(NextRequest(s, k), ls).Some? && ExchangeSent in Exec(NextRequest(s, k), ls).value.log)
      <==> s.requests[k] == Callback(true, true, false, true)
  {
    ReachableHolds(s);
    if s.requests[k] == Callback(true, true, false, true) {
      WinnerIsHeard(s, k);
    } else {
      LoserBars(s, k);
      forall ls | Exec(NextRequest(s, k), ls).Some? ensures ExchangeSent !in Exec(NextRequest(s, k), ls).value.log {
        RunStaysBarred(NextRequest(s, k), ls);
      }
    }
  }

  // ----- The browser is answered before an error returns -----

  predicate Flushed(s: State) {
    PageReceived(s.main) ==> s.page.PageDone?
  }

  lemma WaitFlushes(s: State, c: Choice)
    requires Inv(s) && Flushed(s) && NextWait(s, c).Some?
    ensures Flushed(NextWait(s, c).value)
  {}

  lemma StartFlushes(s: State, c: Choice)
    requires Inv(s) && NextStart(s, c).Some?
    ensures Flushed(NextStart(s, c).value)
  {}

  lemma FinishFlushes(s: State, c: Choice)
    requires Inv(s) && NextFinish(s, c).Some?
    ensures Flushed(NextFinish(s, c).value)
  {}

  lemma MainFlushes(s: State, c: Choice)
    requires Inv(s) && Flushed(s) && NextMain(s, c).Some?
    ensures Flushed(NextMain(s, c).value)
  {
    match s.main
    case Opening => StartFlushes(s, c);
    case AwaitCallback => StartFlushes(s, c);
    case AwaitPage(_) => WaitFlushes(s, c);
    case AwaitEnrollment => WaitFlushes(s, c);
    case Clearing(_) => FinishFlushes(s, c);
    case AwaitResponse(_) => FinishFlushes(s, c);
    case _ =>
  }

  lemma StepFlushes(s: State, l: Label)
    requires Inv(s) && Flushed(s) && Next(s, l).Some?
    ensures Flushed(Next(s, l).value)
  {
    match l
    case MainStep(c) => MainFlushes(s, c);
    case PageStep(c) => PageLeavesMain(s, c);
    case FormStep(c) =>
      FormLeavesMain(s, c);
      FormRankStays(s, c);
    case RequestStep(k) => RequestFlushes(s, k);
    case _ =>
  }

  lemma RequestLeavesMain(s: State, k: nat)
    requires k < |s.requests|
    ensures NextRequest(s, k).main == s.main
  {}

  lemma RequestLeavesDone(s: State, k: nat)
    requires WinnersInv(s) && k < |s.requests| && s.page.PageDone?
    ensures NextRequest(s, k).page.PageDone?
  {}

  lemma RequestFlushes(s: State, k: nat)
    requires Inv(s) && Flushed(s) && k < |s.requests|
    ensures Flushed(NextRequest(s, k))
  {
    RequestLeavesMain(s, k);
    if s.page.PageDone? { RequestLeavesDone(s, k); }
  }

  lemma {:induction false} RunFlushes(s: State, ls: seq<Label>)
    requires Inv(s) && Flushed(s) && Exec(s, ls).Some?
    ensures Flushed(Exec(s, ls).value)
    decreases |ls|
  {
    if ls == [] {
    } else {
      StepKeeps(s, ls[0]);
      StepFlushes(s, ls[0]);
      RunFlushes(Next(s, ls[0]).value, ls[1..]);
    }
  }

  /** When Connect returns that the callback was refused or the exchange failed, the
      browser has been given its page. */
  lemma PageBeforeError(s: State)
    requires Reachable(s) && (s.main == Returned(CallbackRefused) || s.main == Returned(ExchangeFailed))
    ensures s.page == PageDone
  {
    var ls :| Exec(Start(), ls) == Some(s);
    StartHolds();
    RunFlushes(Start(), ls);
  }
}
