/** The one-shot browser connect: a main goroutine, unboundedly many request
    handlers, three atomics, five channels of capacity one, a deadline and a
    shared access token, interleaved arbitrarily. HTTP calls end at some point. */
module Connect {
  import opened Text

  datatype Verdict = Code | Refused

  /** What an access token variable holds; the empty string is NoToken. */
  datatype Token = NoToken | Token(id: nat)

  /** How often each channel was sent on. */
  datatype Sends = Sends(callback: nat, ready: nat, page: nat, enrollment: nat, response: nat)

  datatype Outcome = Connected | BrowserFailed | ServeFailed | CallbackTimedOut | CallbackRefused
                   | ExchangeFailed | EnrollFailed | FormTimedOut

  datatype Main =
    | Opening
    | AwaitCallback                  // select: callbackCh, deadline, serveDone
    | Exchanging
    | AwaitToken
    | CheckingNonce(arrived: Token, nonceOk: bool)
    | Storing(kept: Token)
    | Completing
    | TellReady                      // authReady <- nil
    | TellError                      // authReady <- err
    | AwaitPage(why: Outcome)        // <-callbackPageSent
    | AwaitEnrollment                // select: enrollmentCh, deadline
    | Clearing(result: Outcome)
    | AwaitResponse(result: Outcome) // select: responseSent, one second
    | Returned(result: Outcome)

  /** A request handler that has not won a compare-and-swap. */
  datatype Request =
    | Callback(get: bool, stateOk: bool, denied: bool, hasCode: bool)        // GET /callback
    | Form(post: bool, parses: bool, formStateOk: bool, formNameOk: bool)    // POST /enroll
    | Admitted(nameOk: bool)                                                 // authComplete and state seen
    | Answered                                                               // error page rendered

  /** The handler that won callbackUsed. */
  datatype Page =
    | NoPage
    | Claimed(verdict: Verdict)      // about to send on callbackCh
    | Sent(verdict: Verdict)
    | Waiting                        // select: authReady, deadline
    | Leaving                        // deferred send on callbackPageSent
    | PageDone

  /** The handler that won formUsed. */
  datatype Submission =
    | NoForm
    | Submitting
    | Holding(bearer: Token)        // has read the shared token
    | Posting
    | Enrolled(ok: bool)
    | Cleared(ok: bool)
    | Reporting(ok: bool)
    | Reported
    | FormDone

  /** What the flow does that others can see or that lasts. */
  datatype Event = StateMatched | ExchangeSent | TokenReceived(got: Token) | NonceChecked
                 | EnrollPosted(used: Token) | Persisted

  /** `sent` counts the sends on each channel and `log` is the history. */
  datatype State = State(
    main: Main, page: Page, form: Submission, requests: seq<Request>,
    callbackUsed: bool, formUsed: bool, authComplete: bool, accessToken: Token,
    callbackCh: Option<Verdict>, authReady: Option<bool>, enrollmentCh: Option<bool>,
    callbackPageSent: bool, responseSent: bool, expired: bool,
    sent: Sends, log: seq<Event>)

  function Start(): State {
    State(Opening, NoPage, NoForm, [], false, false, false, NoToken, None, None, None, false, false, false, Sends(0, 0, 0, 0, 0), [])
  }

  /** The client's own moves, and the answers of the world: the token endpoint's
      response and whether its nonce matches, the enrollment endpoint's verdict,
      and whether finalize saved the enrollment. */
  datatype Choice = Go | Fail | TimeOut | Receive(token: Token, nonceOk: bool) | Enrolls(accepted: bool) | Saves(saved: bool)

  datatype Label =
    | Arrive(request: Request)
    | Expire
    | MainStep(choice: Choice)
    | RequestStep(k: nat)
    | PageStep(choice: Choice)
    | FormStep(choice: Choice)

  function Return(s: State, why: Outcome): State {
    s.(main := Returned(why), expired := true)
  }

  /** Before the callback. */
  function NextStart(s: State, c: Choice): Option<State> {
    match s.main
    case Opening =>
      if c.Go? then Some(s.(main := AwaitCallback))
      else if c.Fail? then Some(Return(s, BrowserFailed))
      else None
    case AwaitCallback =>
      if c.Go? && s.callbackCh.Some? then
        Some(s.(callbackCh := None, main := if s.callbackCh.value.Code? then Exchanging else AwaitPage(CallbackRefused)))
      else if c.TimeOut? && s.expired then Some(Return(s, CallbackTimedOut))
      else if c.Fail? then Some(Return(s, ServeFailed))
      else None
    case _ => None
  }

  /** The exchange and the nonce check. */
  function NextExchange(s: State, c: Choice): Option<State> {
    match s.main
    case Exchanging =>
      if c.Go? then Some(s.(main := AwaitToken, log := s.log + [ExchangeSent]))
      else if c.Fail? then Some(s.(main := TellError))
      else None
    case AwaitToken =>
      if c.Receive? && c.token.Token? then Some(s.(main := CheckingNonce(c.token, c.nonceOk), log := s.log + [TokenReceived(c.token)]))
      else if c.Fail? then Some(s.(main := TellError))
      else None
    case CheckingNonce(t, nonceOk) =>
      if !c.Go? then None
      else if nonceOk then Some(s.(main := Storing(t), log := s.log + [NonceChecked]))
      else Some(s.(main := TellError))
    case _ => None
  }

  /** Storing the token and telling the page. */
  function NextTell(s: State, c: Choice): Option<State> {
    match s.main
    case Storing(t) => if c.Go? then Some(s.(main := Completing, accessToken := t)) else None
    case Completing => if c.Go? then Some(s.(main := TellReady, authComplete := true)) else None
    case TellReady => if c.Go? && s.authReady.None? then Some(Tell(s, true, AwaitEnrollment)) else None
    case TellError => if c.Go? && s.authReady.None? then Some(Tell(s, false, AwaitPage(ExchangeFailed))) else None
    case _ => None
  }

  /** Waiting for the page winner, or for the form. */
  function NextWait(s: State, c: Choice): Option<State> {
    match s.main
    case AwaitPage(why) =>
      if c.Go? && s.callbackPageSent then Some(Return(s.(callbackPageSent := false), why)) else None
    case AwaitEnrollment =>
      if c.Go? && s.enrollmentCh.Some? then
        Some(s.(enrollmentCh := None, main := Clearing(if s.enrollmentCh.value then Connected else EnrollFailed)))
      else if c.TimeOut? && s.expired then Some(s.(main := Clearing(FormTimedOut)))
      else None
    case _ => None
  }

  /** After the enrollment result. */
  function NextFinish(s: State, c: Choice): Option<State> {
    match s.main
    case Clearing(o) =>
      if !c.Go? then None
      else if o.FormTimedOut? then Some(Return(s, o).(accessToken := NoToken))
      else Some(s.(accessToken := NoToken, main := AwaitResponse(o)))
    case AwaitResponse(o) =>
      if c.Go? && s.responseSent then Some(Return(s.(responseSent := false), o))
      else if c.TimeOut? then Some(Return(s, o))
      else None
    case _ => None
  }

  function NextMain(s: State, c: Choice): Option<State> {
    match s.main
    case Opening => NextStart(s, c)
    case AwaitCallback => NextStart(s, c)
    case Exchanging => NextExchange(s, c)
    case AwaitToken => NextExchange(s, c)
    case CheckingNonce(_, _) => NextExchange(s, c)
    case Storing(_) => NextTell(s, c)
    case Completing => NextTell(s, c)
    case TellReady => NextTell(s, c)
    case TellError => NextTell(s, c)
    case AwaitPage(_) => NextWait(s, c)
    case AwaitEnrollment => NextWait(s, c)
    case Clearing(_) => NextFinish(s, c)
    case AwaitResponse(_) => NextFinish(s, c)
    case Returned(_) => None
  }

  /** A send on authReady. */
  function Tell(s: State, ok: bool, next: Main): State {
    s.(main := next, authReady := Some(ok), sent := s.sent.(ready := s.sent.ready + 1))
  }

  function VerdictOf(stateOk: bool, denied: bool, hasCode: bool): Verdict {
    if stateOk && !denied && hasCode then Code else Refused
  }

  function NextRequest(s: State, k: nat): State
    requires k < |s.requests|
  {
    match s.requests[k]
    case Callback(get, stateOk, denied, hasCode) =>
      var gone := s.(requests := s.requests[k := Answered]);
      if !get || s.callbackUsed then gone
      else gone.(callbackUsed := true, page := Claimed(VerdictOf(stateOk, denied, hasCode)))
    case Form(post, parses, stateOk, nameOk) =>
      s.(requests := s.requests[k := if post && parses && s.authComplete && stateOk then Admitted(nameOk) else Answered])
    case Admitted(nameOk) =>
      var gone := s.(requests := s.requests[k := Answered]);
      if !nameOk || s.formUsed then gone
      else gone.(formUsed := true, form := Submitting)
    case Answered => s
  }

  function NextPage(s: State, c: Choice): Option<State> {
    match s.page
    case Claimed(v) =>
      if !c.Go? || s.callbackCh.Some? then None
      else Some(s.(page := Sent(v), callbackCh := Some(v), sent := s.sent.(callback := s.sent.callback + 1),
                   log := if v.Code? then s.log + [StateMatched] else s.log))
    case Sent(v) => if c.Go? then Some(s.(page := if v.Code? then Waiting else Leaving)) else None
    case Waiting =>
      if c.Go? && s.authReady.Some? then Some(s.(page := Leaving, authReady := None))
      else if c.TimeOut? && s.expired then Some(s.(page := Leaving))
      else None
    case Leaving =>
      if !c.Go? || s.callbackPageSent then None
      else Some(s.(page := PageDone, callbackPageSent := true, sent := s.sent.(page := s.sent.page + 1)))
    case _ => None
  }

  function NextForm(s: State, c: Choice): Option<State> {
    match s.form
    case Submitting => if c.Go? then Some(s.(form := Holding(s.accessToken))) else None
    case Holding(t) =>
      if c.Go? && t.Token? then Some(s.(form := Posting, log := s.log + [EnrollPosted(t)]))
      else if c.Fail? then Some(s.(form := Enrolled(false)))
      else None
    case Posting => if c.Enrolls? then Some(s.(form := Enrolled(c.accepted))) else None
    case Enrolled(ok) => if c.Go? then Some(s.(form := Cleared(ok), accessToken := NoToken)) else None
    case Cleared(ok) =>
      if ok && c.Saves? then Some(s.(form := Reporting(c.saved), log := if c.saved then s.log + [Persisted] else s.log))
      else if !ok && c.Go? then Some(s.(form := Reporting(false)))
      else None
    case Reporting(ok) =>
      if !c.Go? || s.enrollmentCh.Some? then None
      else Some(s.(form := Reported, enrollmentCh := Some(ok), sent := s.sent.(enrollment := s.sent.enrollment + 1)))
    case Reported =>
      if !c.Go? || s.responseSent then None
      else Some(s.(form := FormDone, responseSent := true, sent := s.sent.(response := s.sent.response + 1)))
    case _ => None
  }

  function Next(s: State, l: Label): Option<State> {
    match l
    case Arrive(r) => if r.Callback? || r.Form? then Some(s.(requests := s.requests + [r])) else None
    case Expire => Some(s.(expired := true))
    case MainStep(c) => NextMain(s, c)
    case RequestStep(k) => if k < |s.requests| then Some(NextRequest(s, k)) else None
    case PageStep(c) => NextPage(s, c)
    case FormStep(c) => NextForm(s, c)
  }

  function Exec(s: State, ls: seq<Label>): Option<State>
    decreases |ls|
  {
    if ls == [] then Some(s)
    else match Next(s, ls[0])
      case None => None
      case Some(s') => Exec(s', ls[1..])
  }

  // ----- The invariant -----

  /** The only order in which the visible actions can happen. */
  function Script(t: Token): seq<Event> {
    [StateMatched, ExchangeSent, TokenReceived(t), NonceChecked, EnrollPosted(t), Persisted]
  }

  /** A winner exists exactly when its flag is set, so a compare-and-swap never
      succeeds while its winner is still at work. */
  predicate WinnersInv(s: State) {
    && s.callbackUsed == !s.page.NoPage?
    && s.formUsed == !s.form.NoForm?
    && (forall k | 0 <= k < |s.requests| :: s.requests[k].Admitted? ==> s.authComplete)
    && (s.formUsed ==> s.authComplete)
  }

  /** Before the callback result is received. */
  predicate Early(m: Main) {
    m.Opening? || m.AwaitCallback? || (m.Returned? && (m.result.BrowserFailed? || m.result.ServeFailed? || m.result.CallbackTimedOut?))
  }

  predicate Refusal(m: Main) {
    (m.AwaitPage? && m.why == CallbackRefused) || (m.Returned? && m.result == CallbackRefused)
  }

  predicate PageReceived(m: Main) {
    m.Returned? && (m.result.CallbackRefused? || m.result.ExchangeFailed?)
  }

  /** The exchange has failed, and the waiting page has been or will be told. */
  predicate Failing(m: Main) {
    m.TellError? || (m.AwaitPage? && m.why == ExchangeFailed) || (m.Returned? && m.result == ExchangeFailed)
  }

  predicate Final(o: Outcome) {
    o.Connected? || o.EnrollFailed? || o.FormTimedOut?
  }

  predicate Late(m: Main) {
    || m.AwaitEnrollment? || m.Clearing?
    || m.AwaitResponse?
    || (m.Returned? && Final(m.result))
  }

  /** The callback side: the page winner, its two channels and main's position agree. */
  predicate PageInv(s: State) {
    var h := s.page;
    && s.sent.callback == (if h.NoPage? || h.Claimed? then 0 else 1)
    && s.sent.page == (if h.PageDone? then 1 else 0)
    && (h.NoPage? || h.Claimed? ==> s.callbackCh.None? && Early(s.main) && s.log == [])
    && (Early(s.main) && s.sent.callback == 1 ==> s.callbackCh.Some?)
    && (s.callbackCh.Some? ==> Early(s.main) && (s.callbackCh.value.Code? <==> s.log == [StateMatched]))
    && (Early(s.main) && s.callbackCh != Some(Code) ==> s.log == [])
    && (h.Sent? ==> (h.verdict.Code? <==> s.log != []))
    && (h.Waiting? ==> s.log != [])
    && (Refusal(s.main) ==> s.log == [])
    && (s.callbackPageSent ==> h.PageDone?) && (h.PageDone? && !PageReceived(s.main) ==> s.callbackPageSent)
  }

  /** Main's own progress: one message on authReady, token and atomics in step. */
  predicate MainInv(s: State) {
    && (s.main.AwaitPage? ==> s.main.why.CallbackRefused? || s.main.why.ExchangeFailed?)
    && (s.main.Clearing? ==> Final(s.main.result))
    && (s.main.AwaitResponse? ==> s.main.result.Connected? || s.main.result.EnrollFailed?)
    && s.sent.ready == (if Late(s.main) || (Failing(s.main) && !s.main.TellError?) then 1 else 0)
    && (s.sent.ready == 0 ==> s.authReady.None?)
    && (s.main == AwaitPage(ExchangeFailed) && (s.page.Sent? || s.page.Waiting?) ==> s.authReady.Some?)
    && (s.authComplete <==> s.main.TellReady? || Late(s.main))
    && (s.main.Returned? ==> s.expired)
  }

  /** The token in use is the one the exchange delivered. */
  ghost predicate TokenInv(s: State, t: Token) {
    && t.Token?
    && s.log <= Script(t)
    && (s.accessToken.NoToken? || s.accessToken == t)
    && (s.accessToken.Token? ==> s.main.Completing? || s.main.TellReady? || s.main.AwaitEnrollment? || s.main.Clearing?)
    && (s.main.CheckingNonce? ==> s.main.arrived == t)
    && (s.main.Storing? ==> s.main.kept == t)
    && (s.form.Holding? ==> s.form.bearer.NoToken? || s.form.bearer == t)
    && (s.main.Exchanging? ==> |s.log| == 1)
    && (s.main.AwaitToken? ==> |s.log| == 2)
    && (s.main.CheckingNonce? ==> |s.log| == 3)
    && (s.main.Storing? || s.main.Completing? ==> |s.log| == 4)
    && (Failing(s.main) ==> 1 <= |s.log| <= 3)
    && (s.authComplete ==> |s.log| >= 4)
    && (!s.authComplete ==> |s.log| <= 4)
  }

  /** The form side: the winning submission, its channels and the visible actions. */
  predicate FormInv(s: State) {
    var h := s.form;
    && s.sent.enrollment == (if h.Reported? || h.FormDone? then 1 else 0)
    && s.sent.response == (if h.FormDone? then 1 else 0)
    && (h.NoForm? ==> |s.log| <= 4)
    && (h.Submitting? || h.Holding? ==> |s.log| == 4)
    && (h.Posting? ==> |s.log| == 5)
    && (h.Enrolled? || h.Cleared? ==> (|s.log| == 4 || |s.log| == 5) && (h.ok ==> |s.log| == 5))
    && (h.Reporting? ==> (h.ok <==> |s.log| == 6))
    && (s.responseSent ==> h.FormDone?)
    && (s.enrollmentCh.Some? ==> s.sent.enrollment == 1 && (s.enrollmentCh.value <==> |s.log| == 6))
    && (Ending(s.main, Connected) || Ending(s.main, EnrollFailed) ==> s.sent.enrollment == 1 && s.enrollmentCh.None?)
    && (Ending(s.main, Connected) ==> |s.log| == 6)
    && (Ending(s.main, EnrollFailed) ==> |s.log| < 6)
  }

  predicate Ending(m: Main, o: Outcome) {
    (m.Clearing? && m.result == o) || (m.AwaitResponse? && m.result == o) || (m.Returned? && m.result == o)
  }

  ghost predicate Sound(s: State, t: Token) {
    WinnersInv(s) && PageInv(s) && MainInv(s) && FormInv(s) && TokenInv(s, t)
  }

  ghost predicate Inv(s: State) {
    exists t :: Sound(s, t)
  }

  lemma StartHolds()
    ensures Inv(Start())
  {
    assert Sound(Start(), Token(0));
  }

  lemma OpeningKeeps(s: State, c: Choice, t: Token)
    requires Sound(s, t) && NextMain(s, c).Some?
    requires s.main.Opening?
    ensures Sound(NextMain(s, c).value, t)
  {}

  lemma CallbackReceiptKeeps(s: State, t: Token)
    requires Sound(s, t) && s.main.AwaitCallback? && NextMain(s, Go).Some?
    ensures Sound(NextMain(s, Go).value, t)
  {}

  lemma CallbackWaitKeeps(s: State, c: Choice, t: Token)
    requires Sound(s, t) && NextMain(s, c).Some?
    requires s.main.AwaitCallback?
    ensures Sound(NextMain(s, c).value, t)
  {
    if c.Go? { CallbackReceiptKeeps(s, t); }
  }

  lemma ExchangeKeeps(s: State, c: Choice, t: Token)
    requires Sound(s, t) && NextMain(s, c).Some?
    requires s.main.Exchanging?
    ensures Sound(NextMain(s, c).value, t)
  {}

  lemma TokenKeeps(s: State, c: Choice, t: Token)
    requires Sound(s, t) && NextMain(s, c).Some?
    requires s.main.AwaitToken?
    ensures Sound(NextMain(s, c).value, if c.Receive? then c.token else t)
  {}

  lemma NonceKeeps(s: State, c: Choice, t: Token)
    requires Sound(s, t) && NextMain(s, c).Some?
    requires s.main.CheckingNonce?
    ensures Sound(NextMain(s, c).value, t)
  {}

  lemma StoreKeeps(s: State, c: Choice, t: Token)
    requires Sound(s, t) && NextMain(s, c).Some?
    requires s.main.Storing? || s.main.Completing?
    ensures Sound(NextMain(s, c).value, t)
  {}

  lemma TellKeeps(s: State, c: Choice, t: Token)
    requires Sound(s, t) && NextMain(s, c).Some?
    requires s.main.TellReady? || s.main.TellError?
    ensures Sound(NextMain(s, c).value, t)
  {}

  lemma AwaitPageKeeps(s: State, c: Choice, t: Token)
    requires Sound(s, t) && NextMain(s, c).Some?
    requires s.main.AwaitPage?
    ensures Sound(NextMain(s, c).value, t)
  {}

  lemma AwaitEnrollmentKeeps(s: State, c: Choice, t: Token)
    requires Sound(s, t) && NextMain(s, c).Some?
    requires s.main.AwaitEnrollment?
    ensures Sound(NextMain(s, c).value, t)
  {}

  lemma ClearAfterDeadlineKeeps(s: State, c: Choice, t: Token)
    requires Sound(s, t) && NextMain(s, c).Some?
    requires s.main.Clearing? && s.main.result.FormTimedOut?
    ensures Sound(NextMain(s, c).value, t)
  {}

  lemma ClearAfterResultKeeps(s: State, c: Choice, t: Token)
    requires Sound(s, t) && NextMain(s, c).Some?
    requires s.main.Clearing? && !s.main.result.FormTimedOut?
    ensures Sound(NextMain(s, c).value, t)
  {}

  lemma ResponseKeeps(s: State, c: Choice, t: Token)
    requires Sound(s, t) && NextMain(s, c).Some?
    requires s.main.AwaitResponse?
    ensures Sound(NextMain(s, c).value, t)
  {}

  lemma CallbackKeeps(s: State, k: nat, t: Token)
    requires Sound(s, t) && k < |s.requests|
    requires s.requests[k].Callback?
    ensures Sound(NextRequest(s, k), t)
  {}

  lemma FormRequestKeeps(s: State, k: nat, t: Token)
    requires Sound(s, t) && k < |s.requests|
    requires s.requests[k].Form? || s.requests[k].Answered?
    ensures Sound(NextRequest(s, k), t)
  {}

  lemma AdmittedKeeps(s: State, k: nat, t: Token)
    requires Sound(s, t) && k < |s.requests|
    requires s.requests[k].Admitted?
    ensures Sound(NextRequest(s, k), t)
  {}

  lemma PageSendKeeps(s: State, c: Choice, t: Token)
    requires Sound(s, t) && NextPage(s, c).Some?
    requires s.page.Claimed? || s.page.Sent?
    ensures Sound(NextPage(s, c).value, t)
  {}

  lemma PageWaitKeeps(s: State, c: Choice, t: Token)
    requires Sound(s, t) && NextPage(s, c).Some?
    requires s.page.Waiting?
    ensures Sound(NextPage(s, c).value, t)
  {}

  lemma PageLeaveKeeps(s: State, c: Choice, t: Token)
    requires Sound(s, t) && NextPage(s, c).Some?
    requires s.page.Leaving?
    ensures Sound(NextPage(s, c).value, t)
  {}

  lemma PostKeeps(s: State, c: Choice, t: Token)
    requires Sound(s, t) && NextForm(s, c).Some?
    requires s.form.Submitting? || s.form.Holding? || s.form.Posting?
    ensures Sound(NextForm(s, c).value, t)
  {}

  lemma SettleKeeps(s: State, c: Choice, t: Token)
    requires Sound(s, t) && NextForm(s, c).Some?
    requires s.form.Enrolled? || s.form.Cleared?
    ensures Sound(NextForm(s, c).value, t)
  {}

  lemma ReportKeeps(s: State, c: Choice, t: Token)
    requires Sound(s, t) && NextForm(s, c).Some?
    requires s.form.Reporting? || s.form.Reported?
    ensures Sound(NextForm(s, c).value, t)
  {}

  lemma MainKeeps(s: State, c: Choice, t: Token)
    requires Sound(s, t) && NextMain(s, c).Some?
    ensures Inv(NextMain(s, c).value)
  {
    if s.main.Opening? {
      OpeningKeeps(s, c, t);
    } else if s.main.AwaitCallback? {
      CallbackWaitKeeps(s, c, t);
    } else if s.main.Exchanging? {
      ExchangeKeeps(s, c, t);
    } else if s.main.AwaitToken? {
      TokenKeeps(s, c, t);
    } else if s.main.CheckingNonce? {
      NonceKeeps(s, c, t);
    } else if s.main.AwaitPage? {
      AwaitPageKeeps(s, c, t);
    } else if s.main.AwaitEnrollment? {
      AwaitEnrollmentKeeps(s, c, t);
    } else if s.main.Clearing? {
      if s.main.result.FormTimedOut? { ClearAfterDeadlineKeeps(s, c, t); } else { ClearAfterResultKeeps(s, c, t); }
    } else if s.main.AwaitResponse? {
      ResponseKeeps(s, c, t);
    } else if s.main.Storing? || s.main.Completing? {
      StoreKeeps(s, c, t);
    } else {
      TellKeeps(s, c, t);
    }
  }

  lemma RequestKeeps(s: State, k: nat, t: Token)
    requires Sound(s, t) && k < |s.requests|
    ensures Sound(NextRequest(s, k), t)
  {
    match s.requests[k]
    case Callback(_, _, _, _) => CallbackKeeps(s, k, t);
    case Admitted(_) => AdmittedKeeps(s, k, t);
    case _ => FormRequestKeeps(s, k, t);
  }

  lemma FormKeeps(s: State, c: Choice, t: Token)
    requires Sound(s, t) && NextForm(s, c).Some?
    ensures Sound(NextForm(s, c).value, t)
  {
    if s.form.Submitting? || s.form.Holding? || s.form.Posting? {
      PostKeeps(s, c, t);
    } else if s.form.Enrolled? || s.form.Cleared? {
      SettleKeeps(s, c, t);
    } else {
      ReportKeeps(s, c, t);
    }
  }

  lemma OutsideKeeps(s: State, l: Label, t: Token)
    requires Sound(s, t) && (l.Arrive? || l.Expire?) && Next(s, l).Some?
    ensures Sound(Next(s, l).value, t)
  {}

  /** Every step of every goroutine keeps the invariant. */
  lemma StepKeeps(s: State, l: Label)
    requires Inv(s) && Next(s, l).Some?
    ensures Inv(Next(s, l).value)
  {
    var t :| Sound(s, t);
    match l
    case MainStep(c) => MainKeeps(s, c, t);
    case RequestStep(k) => RequestKeeps(s, k, t);
    case PageStep(c) =>
      if s.page.Claimed? || s.page.Sent? { PageSendKeeps(s, c, t); }
      else if s.page.Waiting? { PageWaitKeeps(s, c, t); }
      else { PageLeaveKeeps(s, c, t); }
    case FormStep(c) => FormKeeps(s, c, t);
    case _ => OutsideKeeps(s, l, t);
  }

  ghost predicate Reachable(s: State) {
    exists ls :: Exec(Start(), ls) == Some(s)
  }

  lemma {:induction false} RunKeeps(s: State, ls: seq<Label>)
    requires Inv(s) && Exec(s, ls).Some?
    ensures Inv(Exec(s, ls).value)
    decreases |ls|
  {
    if ls == [] {
    } else {
      StepKeeps(s, ls[0]);
      RunKeeps(Next(s, ls[0]).value, ls[1..]);
    }
  }

  lemma ReachableHolds(s: State)
    requires Reachable(s)
    ensures Inv(s)
  {
    var ls :| Exec(Start(), ls) == Some(s);
    StartHolds();
    RunKeeps(Start(), ls);
  }

  // ----- What every interleaving keeps -----

  /** Whatever the interleaving, the visible actions are a prefix of one script:
      a state-matching callback, one exchange, one token, the nonce check, one
      enrollment POST bearing exactly that token, and one persist. */
  lemma VisibleActions(s: State)
    requires Reachable(s)
    ensures exists t: Token :: t.Token? && s.log <= Script(t)
  {
    ReachableHolds(s);
    var t :| Sound(s, t);
    assert t.Token? && s.log <= Script(t);
  }

  /** No channel is sent on twice, so a buffer of one is enough: whoever is about
      to send finds the buffer empty. */
  lemma SendsNeverBlock(s: State)
    requires Reachable(s)
    ensures s.sent.callback <= 1 && s.sent.ready <= 1 && s.sent.page <= 1
    ensures s.sent.enrollment <= 1 && s.sent.response <= 1
    ensures s.page.Claimed? ==> s.callbackCh.None?
    ensures s.page.Leaving? ==> !s.callbackPageSent
    ensures s.main.TellReady? || s.main.TellError? ==> s.authReady.None?
    ensures s.form.Reporting? ==> s.enrollmentCh.None?
    ensures s.form.Reported? ==> !s.responseSent
  {
    ReachableHolds(s);
  }

  function MainRank(m: Main): nat {
    match m
    case Opening => 15
    case AwaitCallback => 14
    case Exchanging => 13
    case AwaitToken => 12
    case CheckingNonce(_, _) => 11
    case Storing(_) => 10
    case Completing => 9
    case TellReady => 8
    case TellError => 8
    case AwaitPage(_) => 7
    case AwaitEnrollment => 6
    case Clearing(_) => 5
    case AwaitResponse(_) => 4
    case Returned(_) => 0
  }

  function PageRank(h: Page): nat {
    match h
    case NoPage => 5
    case Claimed(_) => 4
    case Sent(_) => 3
    case Waiting => 2
    case Leaving => 1
    case PageDone => 0
  }

  /** How many steps main and the callback winner can still take. */
  function Rank(s: State): nat {
    MainRank(s.main) + PageRank(s.page)
  }

  /** Main moves on, and leaves the page winner and the requests where they are. */
  predicate Falls(s: State, s': State) {
    MainRank(s'.main) < MainRank(s.main) && s'.page == s.page && s'.requests == s.requests
  }

  lemma StartFalls(s: State, c: Choice)
    requires NextStart(s, c).Some?
    ensures Falls(s, NextStart(s, c).value)
  {}

  lemma TokenFalls(s: State, c: Choice)
    requires NextExchange(s, c).Some? && s.main.AwaitToken?
    ensures Falls(s, NextExchange(s, c).value)
  {}

  lemma ExchangeFalls(s: State, c: Choice)
    requires NextExchange(s, c).Some? && !s.main.AwaitToken?
    ensures Falls(s, NextExchange(s, c).value)
  {}

  lemma StoreFalls(s: State, c: Choice)
    requires NextTell(s, c).Some? && (s.main.Storing? || s.main.Completing?)
    ensures Falls(s, NextTell(s, c).value)
  {}

  lemma TellFalls(s: State, c: Choice)
    requires NextTell(s, c).Some? && (s.main.TellReady? || s.main.TellError?)
    ensures Falls(s, NextTell(s, c).value)
  {}

  lemma WaitFalls(s: State, c: Choice)
    requires NextWait(s, c).Some?
    ensures Falls(s, NextWait(s, c).value)
  {}

  lemma ClearFalls(s: State, c: Choice)
    requires NextFinish(s, c).Some? && s.main.Clearing?
    ensures Falls(s, NextFinish(s, c).value)
  {}

  lemma ResponseFalls(s: State, c: Choice)
    requires NextFinish(s, c).Some? && s.main.AwaitResponse?
    ensures Falls(s, NextFinish(s, c).value)
  {}

  lemma PageSendRankFalls(s: State, c: Choice)
    requires NextPage(s, c).Some? && (s.page.Claimed? || s.page.Sent?)
    ensures PageRank(NextPage(s, c).value.page) < PageRank(s.page)
  {}

  lemma PageWaitRankFalls(s: State, c: Choice)
    requires NextPage(s, c).Some? && (s.page.Waiting? || s.page.Leaving?)
    ensures PageRank(NextPage(s, c).value.page) < PageRank(s.page)
  {}

  lemma PageLeavesMain(s: State, c: Choice)
    requires NextPage(s, c).Some?
    ensures NextPage(s, c).value.main == s.main
  {}

  lemma PageRankFalls(s: State, c: Choice)
    requires NextPage(s, c).Some?
    ensures PageRank(NextPage(s, c).value.page) < PageRank(s.page) && NextPage(s, c).value.main == s.main
  {
    PageLeavesMain(s, c);
    if s.page.Claimed? || s.page.Sent? { PageSendRankFalls(s, c); } else { PageWaitRankFalls(s, c); }
  }

  lemma RequestRankStays(s: State, k: nat)
    requires WinnersInv(s) && k < |s.requests|
    ensures Rank(NextRequest(s, k)) <= Rank(s)
  {}

  lemma FormRankStays(s: State, c: Choice)
    requires NextForm(s, c).Some?
    ensures NextForm(s, c).value.page == s.page
  {}

  lemma FormLeavesRequests(s: State, c: Choice)
    requires NextForm(s, c).Some?
    ensures NextForm(s, c).value.requests == s.requests
  {}

  lemma OtherRankStays(s: State, l: Label)
    requires WinnersInv(s) && !l.MainStep? && !l.PageStep? && Next(s, l).Some?
    ensures Rank(Next(s, l).value) <= Rank(s)
  {
    match l
    case RequestStep(k) => RequestRankStays(s, k);
    case FormStep(c) =>
      FormLeavesMain(s, c);
      FormRankStays(s, c);
    case _ =>
  }

  lemma MainFalls(s: State, c: Choice)
    requires NextMain(s, c).Some?
    ensures Falls(s, NextMain(s, c).value)
  {
    match s.main
    case Opening => StartFalls(s, c);
    case AwaitCallback => StartFalls(s, c);
    case AwaitToken => TokenFalls(s, c);
    case Storing(_) => StoreFalls(s, c);
    case Completing => StoreFalls(s, c);
    case TellReady => TellFalls(s, c);
    case TellError => TellFalls(s, c);
    case AwaitPage(_) => WaitFalls(s, c);
    case AwaitEnrollment => WaitFalls(s, c);
    case Clearing(_) => ClearFalls(s, c);
    case AwaitResponse(_) => ResponseFalls(s, c);
    case _ => ExchangeFalls(s, c);
  }

  lemma RankFalls(s: State, l: Label)
    requires WinnersInv(s) && Next(s, l).Some?
    ensures Rank(Next(s, l).value) <= Rank(s)
    ensures l.MainStep? || l.PageStep? ==> Rank(Next(s, l).value) < Rank(s)
  {
    match l
    case MainStep(c) => MainFalls(s, c);
    case PageStep(c) => PageRankFalls(s, c);
    case _ => OtherRankStays(s, l);
  }

  /** A step that main, or the handler main waits for, can take now. */
  function Ready(s: State): Label {
    match s.main
    case AwaitCallback => MainStep(if s.callbackCh.Some? then Go else TimeOut)
    case AwaitToken => MainStep(Fail)
    case AwaitPage(_) => if s.callbackPageSent then MainStep(Go) else PageStep(Go)
    case AwaitEnrollment => MainStep(if s.enrollmentCh.Some? then Go else TimeOut)
    case AwaitResponse(_) => MainStep(TimeOut)
    case _ => MainStep(Go)
  }

  /** No deadlock: until main returns, main or the winner it waits for has a step,
      except in a select that waits for the user and for a deadline still to
      come; and those two can take at most 20 steps in all. A bare receive on
      callbackPageSent is served by a winner that is never stuck. */
  lemma NeverDeadlocks(s: State)
    requires Reachable(s) && !s.main.Returned?
    requires s.expired || !(s.main.AwaitCallback? || s.main.AwaitEnrollment?)
    ensures Next(s, Ready(s)).Some? && (Ready(s).MainStep? || Ready(s).PageStep?)
    ensures Rank(Next(s, Ready(s)).value) < Rank(s) <= 20
    ensures s.main.AwaitPage? ==> s.callbackUsed && (s.callbackPageSent <==> s.page.PageDone?)
  {
    ReachableHolds(s);
    if s.main.AwaitPage? {
      WaitedPageMoves(s);
    }
    RankFalls(s, Ready(s));
  }

  lemma WaitedPageMoves(s: State)
    requires Inv(s) && s.main.AwaitPage?
    ensures s.callbackUsed && (s.callbackPageSent <==> s.page.PageDone?)
    ensures s.callbackPageSent || NextPage(s, Go).Some?
  {}

  /** Once main has returned, the shared variable holds no token and the context is over. */
  lemma NoTokenAfterReturn(s: State)
    requires Reachable(s) && s.main.Returned?
    ensures s.accessToken == NoToken && s.expired
  {
    ReachableHolds(s);
  }

  // ----- What the result of Connect means -----

  lemma {:induction false} ExecSnoc(s: State, ls: seq<Label>, l: Label)
    ensures Exec(s, ls + [l]) == match Exec(s, ls) case None => None case Some(m) => Next(m, l)
    decreases |ls|
  {
    if ls == [] {
      assert [l][1..] == [];
      assert ls + [l] == [l];
    } else {
      assert (ls + [l])[1..] == ls[1..] + [l];
      match Next(s, ls[0])
      case None =>
      case Some(m) => ExecSnoc(m, ls[1..], l);
    }
  }

  lemma Take(s: State, l: Label) returns (s': State)
    requires Reachable(s) && Next(s, l).Some?
    ensures s' == Next(s, l).value && Reachable(s')
  {
    s' := Next(s, l).value;
    var ls :| Exec(Start(), ls) == Some(s);
    ExecSnoc(Start(), ls, l);
    assert Exec(Start(), ls + [l]) == Some(s');
  }

  const BROWSER_BACK := Callback(true, true, false, true)
  const NAMED := Form(true, true, true, true)

  lemma ReachExchange() returns (s: State)
    ensures Reachable(s)
    ensures s == State(Exchanging, Sent(Code), NoForm, [Answered], true, false, false, NoToken,
                       None, None, None, false, false, false, Sends(1, 0, 0, 0, 0), [StateMatched])
  {
    assert Exec(Start(), []) == Some(Start());
    s := Take(Start(), MainStep(Go));
    s := Take(s, Arrive(BROWSER_BACK));
    s := Take(s, RequestStep(0));
    s := Take(s, PageStep(Go));
    s := Take(s, MainStep(Go));
  }

  lemma ReachNonce() returns (s: State)
    ensures Reachable(s)
    ensures s == State(Storing(Token(0)), Sent(Code), NoForm, [Answered], true, false, false, NoToken,
                       None, None, None, false, false, false, Sends(1, 0, 0, 0, 0), Script(Token(0))[..4])
  {
    s := ReachExchange();
    s := Take(s, MainStep(Go));
    s := Take(s, MainStep(Receive(Token(0), true)));
    s := Take(s, MainStep(Go));
  }

  lemma ReachReady() returns (s: State)
    ensures Reachable(s)
    ensures s == State(AwaitEnrollment, Sent(Code), NoForm, [Answered], true, false, true, Token(0),
                       None, Some(true), None, false, false, false, Sends(1, 1, 0, 0, 0), Script(Token(0))[..4])
  {
    s := ReachNonce();
    s := Take(s, MainStep(Go));
    s := Take(s, MainStep(Go));
    s := Take(s, MainStep(Go));
  }

  lemma ReachHolding() returns (s: State)
    ensures Reachable(s)
    ensures s == State(AwaitEnrollment, Sent(Code), Holding(Token(0)), [Answered, Answered], true, true, true, Token(0),
                       None, Some(true), None, false, false, false, Sends(1, 1, 0, 0, 0), Script(Token(0))[..4])
  {
    s := ReachReady();
    s := Take(s, Arrive(NAMED));
    s := Take(s, RequestStep(1));
    s := Take(s, RequestStep(1));
    s := Take(s, FormStep(Go));
  }

  lemma ReachPersisted() returns (s: State)
    ensures Reachable(s)
    ensures s == State(AwaitEnrollment, Sent(Code), Reporting(true), [Answered, Answered], true, true, true, NoToken,
                       None, Some(true), None, false, false, false, Sends(1, 1, 0, 0, 0), Script(Token(0)))
  {
    s := ReachHolding();
    s := Take(s, FormStep(Go));
    s := Take(s, FormStep(Enrolls(true)));
    s := Take(s, FormStep(Go));
    s := Take(s, FormStep(Saves(true)));
  }

  /** A deadline that wins the last select while finalize is under way. */
  lemma TimeoutAfterPersist() returns (s: State)
    ensures Reachable(s) && s.main == Returned(FormTimedOut) && Persisted in s.log
  {
    s := ReachPersisted();
    assert s.log[5] == Persisted;
    s := Take(s, Expire);
    s := Take(s, MainStep(TimeOut));
    s := Take(s, MainStep(Go));
  }

  lemma PersistedIsLast(s: State, t: Token)
    requires Sound(s, t)
    ensures Persisted in s.log <==> |s.log| == 6
  {
    if |s.log| == 6 {
      assert s.log[5] == Script(t)[5] == Persisted;
    }
  }

  /** Success means the enrollment was persisted. An error result does not mean
      that nothing was persisted: some run returns the error `why` with the
      enrollment persisted exactly when `why` is the form timeout. */
  lemma ResultMeaning(why: Outcome)
    ensures why == Connected ==> forall s | Reachable(s) && s.main == Returned(why) :: Persisted in s.log
    ensures why != Connected ==>
      ((exists s :: Reachable(s) && s.main == Returned(why) && Persisted in s.log) <==> why == FormTimedOut)
  {
    forall s | Reachable(s) && s.main == Returned(why)
      ensures why == Connected ==> Persisted in s.log
      ensures Persisted in s.log ==> why == Connected || why == FormTimedOut
    {
      ReachableHolds(s);
      var t :| Sound(s, t);
      PersistedIsLast(s, t);
    }
    var w := TimeoutAfterPersist();
  }

  // ----- Which returned runs persist -----

  /** The submission is past the point where it needs the shared token. */
  predicate CanPersist(s: State) {
    || Persisted in s.log
    || (s.form.Holding? && s.form.bearer.Token?) || s.form.Posting?
    || (s.form.Enrolled? && s.form.ok) || (s.form.Cleared? && s.form.ok)
  }

  /** Main is gone, the token is cleared, and no submission can do without it. */
  predicate Spent(s: State) {
    s.main.Returned? && s.accessToken.NoToken? && !CanPersist(s)
  }

  lemma FormLeavesMain(s: State, c: Choice)
    requires NextForm(s, c).Some?
    ensures NextForm(s, c).value.main == s.main
  {}

  lemma PostStaysSpent(s: State, c: Choice)
    requires Spent(s) && NextForm(s, c).Some? && (s.form.Submitting? || s.form.Holding?)
    ensures var s' := NextForm(s, c).value; s'.accessToken.NoToken? && !CanPersist(s')
  {}

  lemma SettleStaysSpent(s: State, c: Choice)
    requires Spent(s) && NextForm(s, c).Some? && (s.form.Enrolled? || s.form.Cleared?)
    ensures var s' := NextForm(s, c).value; s'.accessToken.NoToken? && !CanPersist(s')
  {}

  lemma ReportStaysSpent(s: State, c: Choice)
    requires Spent(s) && NextForm(s, c).Some? && (s.form.Reporting? || s.form.Reported?)
    ensures var s' := NextForm(s, c).value; s'.accessToken.NoToken? && !CanPersist(s')
  {}

  lemma FormStaysSpent(s: State, c: Choice)
    requires Spent(s) && NextForm(s, c).Some?
    ensures Spent(NextForm(s, c).value)
  {
    FormLeavesMain(s, c);
    if s.form.Submitting? || s.form.Holding? { PostStaysSpent(s, c); }
    else if s.form.Enrolled? || s.form.Cleared? { SettleStaysSpent(s, c); }
    else { ReportStaysSpent(s, c); }
  }

  lemma RequestStaysSpent(s: State, k: nat)
    requires Spent(s) && k < |s.requests|
    ensures Spent(NextRequest(s, k))
  {
    var s' := NextRequest(s, k);
    assert s'.log == s.log && (s'.form == s.form || s'.form.Submitting?);
  }

  lemma PageLeavesForm(s: State, c: Choice)
    requires NextPage(s, c).Some?
    ensures NextPage(s, c).value.form == s.form && NextPage(s, c).value.accessToken == s.accessToken
  {}

  lemma PageLeavesRequests(s: State, c: Choice)
    requires NextPage(s, c).Some?
    ensures NextPage(s, c).value.requests == s.requests
  {}

  lemma PageLogs(s: State, c: Choice)
    requires NextPage(s, c).Some?
    ensures var log' := NextPage(s, c).value.log; log' == s.log || log' == s.log + [StateMatched]
  {}

  lemma PageStaysSpent(s: State, c: Choice)
    requires Spent(s) && NextPage(s, c).Some?
    ensures Spent(NextPage(s, c).value)
  {
    PageLeavesMain(s, c);
    PageLeavesForm(s, c);
    PageLogs(s, c);
  }

  lemma StepStaysSpent(s: State, l: Label)
    requires Spent(s) && Next(s, l).Some?
    ensures Spent(Next(s, l).value)
  {
    match l
    case RequestStep(k) => RequestStaysSpent(s, k);
    case PageStep(c) => PageStaysSpent(s, c);
    case FormStep(c) => FormStaysSpent(s, c);
    case _ =>
  }

  lemma {:induction false} RunStaysSpent(s: State, ls: seq<Label>)
    requires Spent(s) && Exec(s, ls).Some?
    ensures Spent(Exec(s, ls).value)
    decreases |ls|
  {
    if ls == [] {
    } else {
      StepStaysSpent(s, ls[0]);
      RunStaysSpent(Next(s, ls[0]).value, ls[1..]);
    }
  }

  /** How many steps the submission needs to persist. */
  function Left(f: Submission): nat {
    match f case Holding(_) => 4 case Posting => 3 case Enrolled(_) => 2 case Cleared(_) => 1 case _ => 0
  }

  /** What the world answers when all goes well. */
  function Favour(f: Submission): Choice {
    match f case Posting => Enrolls(true) case Cleared(_) => Saves(true) case _ => Go
  }

  lemma SubmissionMovesOn(s: State)
    requires CanPersist(s) && Persisted !in s.log
    ensures var next := NextForm(s, Favour(s.form)); next.Some? && CanPersist(next.value) && Left(next.value.form) < Left(s.form)
  {
    if s.form.Cleared? {
      assert NextForm(s, Saves(true)).value.log[|s.log|] == Persisted;
    }
  }

  lemma ExecCons(s: State, l: Label, ls: seq<Label>)
    requires Next(s, l).Some?
    ensures Exec(s, [l] + ls) == Exec(Next(s, l).value, ls)
  {
    assert ([l] + ls)[1..] == ls;
  }

  lemma {:induction false} SubmissionFinishes(s: State)
    requires CanPersist(s)
    ensures exists ls :: Exec(s, ls).Some? && Persisted in Exec(s, ls).value.log
    decreases Left(s.form)
  {
    if Persisted in s.log {
      assert Exec(s, []) == Some(s);
    } else {
      SubmissionMovesOn(s);
      var s' := NextForm(s, Favour(s.form)).value;
      SubmissionFinishes(s');
      var ls :| Exec(s', ls).Some? && Persisted in Exec(s', ls).value.log;
      ExecCons(s, FormStep(Favour(s.form)), ls);
    }
  }

  /** After Connect has returned, with whatever result, the enrollment is persisted
      or may still be, by the winning handler, exactly when at the return the
      submission had read the token and not failed. A submission that had only won
      its compare-and-swap finds the token cleared. */
  lemma PersistsIff(s: State)
    requires Reachable(s) && s.main.Returned?
    ensures (exists ls :: Exec(s, ls).Some? && Persisted in Exec(s, ls).value.log) <==> CanPersist(s)
  {
    NoTokenAfterReturn(s);
    if CanPersist(s) {
      SubmissionFinishes(s);
    } else if ls :| Exec(s, ls).Some? && Persisted in Exec(s, ls).value.log {
      RunStaysSpent(s, ls);
      assert false;
    }
  }

  /** Of the error results only the form timeout can go with a submission in that
      state; after any other nothing is ever persisted. */
  lemma OtherErrorsPersistNothing(s: State, ls: seq<Label>)
    requires Reachable(s) && s.main.Returned? && Exec(s, ls).Some?
    requires !s.main.result.Connected? && !s.main.result.FormTimedOut?
    ensures Persisted !in Exec(s, ls).value.log
  {
    ReachableHolds(s);
    var t :| Sound(s, t);
    PersistedIsLast(s, t);
    NoTokenAfterReturn(s);
    RunStaysSpent(s, ls);
  }
}
