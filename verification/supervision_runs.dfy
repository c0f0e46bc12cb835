/** What runs of one visible invocation come to: which answer leads where, that
    everything can come up and the tunnel comes back, and what each outcome tells. */
module SupervisionRuns {
  import opened Text
  import HerdrSession
  import opened Supervision

  lemma RunCons(s: State, l: Label, ls: seq<Label>)
    requires Next(s, l).Some?
    ensures Run(s, [l] + ls) == Run(Next(s, l).value, ls)
  {
    assert ([l] + ls)[1..] == ls;
  }

  lemma {:induction false} RunSnoc(s: State, ls: seq<Label>, l: Label)
    requires Run(s, ls).Some?
    ensures Run(s, ls + [l]) == Next(Run(s, ls).value, l)
    decreases |ls|
  {
    if ls == [] {
      assert ([] + [l])[1..] == [];
    } else {
      assert (ls + [l])[1..] == ls[1..] + [l];
      RunSnoc(Next(s, ls[0]).value, ls[1..], l);
    }
  }

  lemma Reach(s: State, l: Label) returns (t: State)
    requires Reachable(s) && Next(s, l).Some?
    ensures t == Next(s, l).value && Reachable(t)
  {
    t := Next(s, l).value;
    var ls: seq<Label> :| Run(START, ls) == Some(s);
    RunSnoc(START, ls, l);
  }

  // ----- The status answer decides -----

  lemma ServerKindStays(s: State, l: Label)
    requires Inv(s) && Next(s, l).Some? && !s.main.Query?
    ensures s.server.Reused? <==> Next(s, l).value.server.Reused?
    ensures !Next(s, l).value.main.Query?
    ensures s.main.Returned? ==> Next(s, l).value.main == s.main
  {}

  lemma {:induction false} RunServerKindStays(s: State, ls: seq<Label>)
    requires Inv(s) && Run(s, ls).Some? && !s.main.Query?
    ensures s.server.Reused? <==> Run(s, ls).value.server.Reused?
    ensures s.main.Returned? ==> Run(s, ls).value.main == s.main
    decreases |ls|
  {
    if ls == [] {
    } else {
      ServerKindStays(s, ls[0]);
      StepKeeps(s, ls[0]);
      RunServerKindStays(Next(s, ls[0]).value, ls[1..]);
    }
  }

  /** A running server that is not incompatible is reused, an incompatible one ends
      the invocation at once, and only when none runs is one started. */
  lemma QueryDecides(running: bool, compatible: Option<bool>, ls: seq<Label>)
    requires Run(START, [MainStep(Report(HerdrSession.Status(running, compatible)))] + ls).Some?
    ensures var s := Run(START, [MainStep(Report(HerdrSession.Status(running, compatible)))] + ls).value;
      && (running && compatible == Some(false) ==> s.main == Returned(EnsureFailed))
      && (s.server.Reused? <==> running && compatible != Some(false))
  {
    var l := MainStep(Report(HerdrSession.Status(running, compatible)));
    RunCons(START, l, ls);
    assert Inv(START);
    StepKeeps(START, l);
    var t := Next(START, l).value;
    assert running && compatible == Some(false) ==> t.main == Returned(EnsureFailed);
    if running && compatible.Some? {
      if compatible.value { assert compatible == Some(true); } else { assert compatible == Some(false); }
    }
    RunServerKindStays(Next(START, l).value, ls);
  }

  // ----- The tunnel ends with its context, and otherwise comes back -----

  predicate TunnelStays(s: State) {
    s.tunnel.TunnelDone? || s.tunnel.StopSsh? ==> Over(s)
  }

  lemma MainLeavesTunnelStaying(s: State, c: Choice)
    requires TunnelStays(s) && NextMain(s, c).Some?
    ensures TunnelStays(NextMain(s, c).value)
  {}

  lemma StepTunnelStays(s: State, l: Label)
    requires TunnelStays(s) && Next(s, l).Some?
    ensures TunnelStays(Next(s, l).value)
  {
    if l.MainStep? { MainLeavesTunnelStaying(s, l.choice); }
  }

  lemma {:induction false} RunTunnelStays(s: State, ls: seq<Label>)
    requires TunnelStays(s) && Run(s, ls).Some?
    ensures TunnelStays(Run(s, ls).value)
    decreases |ls|
  {
    if ls == [] {
    } else {
      StepTunnelStays(s, ls[0]);
      RunTunnelStays(Next(s, ls[0]).value, ls[1..]);
    }
  }

  /** The tunnel loop is over only when its context is. */
  lemma TunnelDoneIsOver(s: State)
    requires Reachable(s)
    ensures s.tunnel.TunnelDone? ==> s.ended || s.cancelled
  {
    var ls: seq<Label> :| Run(START, ls) == Some(s);
    RunTunnelStays(START, ls);
  }

  predicate TunnelOnly(ls: seq<Label>) {
    forall k | 0 <= k < |ls| :: ls[k].TunnelStep?
  }

  predicate Linked(s: State) {
    s.tunnel.Connected? && Child(Ssh, s.tunnel.ssh) in s.live
  }

  /** How far the loop is from a fresh ssh child. */
  function ToLink(s: State): nat {
    match s.tunnel case Dial => 1 case Top => 2 case Sleeping => 3 case Broken => 4 case Connected(_) => 5 case _ => 0
  }

  function TowardsLink(s: State): Choice {
    if s.tunnel.Sleeping? then TimeOut else Go
  }

  lemma OneStepBack(s: State)
    requires !s.tunnel.NoTunnel? && !s.tunnel.TunnelDone? && !s.tunnel.StopSsh? && !Over(s) && !Linked(s)
    ensures var next := NextTunnel(s, TowardsLink(s));
      && next.Some? && !Over(next.value) && next.value.main == s.main
      && (Linked(next.value) || (ToLink(next.value) < ToLink(s) && ToLink(next.value) > 0))
  {}

  lemma {:induction false} ComesBack(s: State)
    requires !s.tunnel.NoTunnel? && !s.tunnel.TunnelDone? && !s.tunnel.StopSsh? && !Over(s)
    ensures exists ls :: TunnelOnly(ls) && Run(s, ls).Some? && Linked(Run(s, ls).value)
    decreases ToLink(s)
  {
    if Linked(s) {
      assert Run(s, []) == Some(s);
    } else {
      OneStepBack(s);
      var l := TunnelStep(TowardsLink(s));
      var t := Next(s, l).value;
      if Linked(t) {
        RunCons(s, l, []);
        assert Run(s, [l] + []) == Run(t, []) == Some(t);
      } else {
        ComesBack(t);
        var ls :| TunnelOnly(ls) && Run(t, ls).Some? && Linked(Run(t, ls).value);
        RunCons(s, l, ls);
      }
    }
  }

  /** While the context lasts, wherever the loop stands, it can get to a live ssh
      child by steps of its own: it never gives up. */
  lemma TunnelComesBack(s: State)
    requires Reachable(s) && !s.tunnel.NoTunnel? && !s.ended && !s.cancelled
    ensures exists ls :: TunnelOnly(ls) && Run(s, ls).Some? && Linked(Run(s, ls).value)
  {
    var ls: seq<Label> :| Run(START, ls) == Some(s);
    RunTunnelStays(START, ls);
    ComesBack(s);
  }

  // ----- It waits before it comes back -----

  function SshStarts(s: State, ls: seq<Label>): nat
    decreases |ls|
  {
    if ls == [] then 0
    else match Next(s, ls[0])
      case None => 0
      case Some(t) => (if s.tunnel.Dial? && t.tunnel.Connected? then 1 else 0) + SshStarts(t, ls[1..])
  }

  /** Reconnect delays that have run out. */
  function DelaysOver(s: State, ls: seq<Label>): nat
    decreases |ls|
  {
    if ls == [] then 0
    else match Next(s, ls[0])
      case None => 0
      case Some(t) => (if s.tunnel.Sleeping? && ls[0] == TunnelStep(TimeOut) then 1 else 0) + DelaysOver(t, ls[1..])
  }

  /** Starts that are still free: one before the first child and after each delay. */
  function Free(s: State): nat {
    if s.tunnel.NoTunnel? || s.tunnel.Top? || s.tunnel.Dial? then 1 else 0
  }

  lemma StepFree(s: State, l: Label)
    requires Inv(s) && Next(s, l).Some?
    ensures var t := Next(s, l).value;
      (if s.tunnel.Dial? && t.tunnel.Connected? then 1 else 0) + Free(t)
        <= Free(s) + (if s.tunnel.Sleeping? && l == TunnelStep(TimeOut) then 1 else 0)
  {}

  lemma {:induction false} StartsAreFree(s: State, ls: seq<Label>)
    requires Inv(s) && Run(s, ls).Some?
    ensures SshStarts(s, ls) <= Free(s) + DelaysOver(s, ls)
    decreases |ls|
  {
    if ls == [] {
    } else {
      StepFree(s, ls[0]);
      StepKeeps(s, ls[0]);
      StartsAreFree(Next(s, ls[0]).value, ls[1..]);
    }
  }

  /** Over whole runs every ssh child but the first follows a delay that ran out. */
  lemma RestartsAreDelayed(ls: seq<Label>)
    requires Run(START, ls).Some?
    ensures SshStarts(START, ls) <= 1 + DelaysOver(START, ls)
  {
    StartsAreFree(START, ls);
  }

  // ----- Everything can come up -----

  lemma ServerComesUp(reused: bool) returns (s: State)
    ensures Reachable(s) && s.main == StartSshd(0) && s.tunnel.NoTunnel? && !Over(s)
    ensures if reused then s.server.Reused? else s.server.Spawned? && Child(Server, s.server.child) in s.live
  {
    assert Run(START, []) == Some(START);
    if reused {
      s := Reach(START, MainStep(Report(HerdrSession.Status(true, None))));
    } else {
      s := Reach(START, MainStep(Report(HerdrSession.Status(false, None))));
      s := Reach(s, MainStep(Go));
      s := Reach(s, MainStep(SeeRunning));
    }
  }

  lemma SshdComesUp(s0: State) returns (s: State)
    requires Reachable(s0) && s0.main == StartSshd(0) && !Over(s0)
    ensures Reachable(s) && s.main.Attached? && s.tunnel.Top? && !Over(s) && s.server == s0.server && s0.live <= s.live
    ensures Child(Sshd, s.main.sshd) in s.live && Child(Tui, s.main.tui) in s.live
  {
    s := Reach(s0, MainStep(Go));
    s := Reach(s, MainStep(SeeListening));
    s := Reach(s, MainStep(Go));
  }

  lemma TunnelComesUp(s0: State) returns (s: State)
    requires Reachable(s0) && s0.tunnel.Top? && !Over(s0)
    ensures Reachable(s) && Linked(s) && s.main == s0.main && s.server == s0.server && s0.live <= s.live && !Over(s)
  {
    s := Reach(s0, TunnelStep(Go));
    s := Reach(s, TunnelStep(Go));
  }

  /** With either kind of server, a session comes up whole: server, sshd, ssh and TUI. */
  lemma SessionComesUp(reused: bool) returns (s: State)
    ensures Reachable(s) && s.main.Attached? && Linked(s) && !Over(s)
    ensures Child(Sshd, s.main.sshd) in s.live && Child(Tui, s.main.tui) in s.live
    ensures if reused then s.server.Reused? else s.server.Spawned? && Child(Server, s.server.child) in s.live
  {
    s := ServerComesUp(reused);
    s := SshdComesUp(s);
    s := TunnelComesUp(s);
  }

  // ----- sshd is tried five times -----

  /** A step that starts an sshd child. */
  predicate StartsSshd(s: State, l: Label) {
    s.main.StartSshd? && Next(s, l).Some? && Next(s, l).value.main.AwaitSshd?
  }

  function SshdStarts(s: State, ls: seq<Label>): nat
    decreases |ls|
  {
    if ls == [] then 0
    else (if StartsSshd(s, ls[0]) then 1 else 0) + match Next(s, ls[0]) case None => 0 case Some(t) => SshdStarts(t, ls[1..])
  }

  /** Neither a failure to start a child nor the end of the context. */
  predicate Persevering(ls: seq<Label>) {
    forall k | 0 <= k < |ls| :: ls[k] != MainStep(Fail) && ls[k] != MainStep(SeeContext)
  }

  /** The attempts there have been, where the count matters. */
  function Attempts(m: Main): Option<nat> {
    match m
    case StartSshd(a) => Some(a)
    case AwaitSshd(a, _) => Some(a + 1)
    case Stop(_, goal) => if goal.NextAttempt? then Some(goal.attempt) else None
    case AbandonInfrastructure => Some(5)
    case Query => Some(0)
    case StartServer => Some(0)
    case AwaitServer => Some(0)
    case _ => None
  }

  /** The context was seen to be over while sshd was awaited. */
  predicate GivingUp(m: Main) {
    m.Stop? && m.goal.GiveUp?
  }

  lemma NeverGivingUp(s: State, l: Label)
    requires Next(s, l).Some? && l != MainStep(SeeContext) && !GivingUp(s.main)
    ensures !GivingUp(Next(s, l).value.main)
  {}

  lemma StepCounts(s: State, l: Label)
    requires Inv(s) && Next(s, l).Some? && l != MainStep(Fail) && l != MainStep(SeeContext) && !GivingUp(s.main)
    requires Attempts(Next(s, l).value.main).Some?
    ensures Attempts(s.main).Some?
    ensures Attempts(Next(s, l).value.main).value == Attempts(s.main).value + (if StartsSshd(s, l) then 1 else 0)
  {}

  lemma {:induction false} RunCounts(ls: seq<Label>)
    requires Run(START, ls).Some? && Persevering(ls)
    ensures var m := Run(START, ls).value.main;
      !GivingUp(m) && (Attempts(m).Some? ==> SshdStarts(START, ls) == Attempts(m).value)
    decreases |ls|
  {
    if ls == [] {
    } else {
      var front, l := ls[..|ls| - 1], ls[|ls| - 1];
      assert ls == front + [l];
      RunDefined(START, front, l);
      var s := Run(START, front).value;
      RunSnoc(START, front, l);
      StartsSnoc(START, front, l);
      RunKeeps(START, front);
      RunCounts(front);
      NeverGivingUp(s, l);
      if Attempts(Next(s, l).value.main).Some? { StepCounts(s, l); }
    }
  }

  lemma {:induction false} RunDefined(s: State, ls: seq<Label>, l: Label)
    requires Run(s, ls + [l]).Some?
    ensures Run(s, ls).Some?
    decreases |ls|
  {
    if ls == [] {
    } else {
      assert (ls + [l])[1..] == ls[1..] + [l];
      RunDefined(Next(s, ls[0]).value, ls[1..], l);
    }
  }

  lemma {:induction false} StartsSnoc(s: State, ls: seq<Label>, l: Label)
    requires Run(s, ls).Some?
    ensures SshdStarts(s, ls + [l]) == SshdStarts(s, ls) + (if StartsSshd(Run(s, ls).value, l) then 1 else 0)
    decreases |ls|
  {
    if ls == [] {
      assert ([] + [l])[1..] == [];
    } else {
      assert (ls + [l])[1..] == ls[1..] + [l];
      StartsSnoc(Next(s, ls[0]).value, ls[1..], l);
    }
  }

  /** Unless a child cannot be started or the context ends, the infrastructure is
      given up only after five sshd children. */
  lemma FiveAttempts(ls: seq<Label>)
    requires Run(START, ls).Some? && Persevering(ls) && Run(START, ls).value.main.AbandonInfrastructure?
    ensures SshdStarts(START, ls) == 5
  {
    RunCounts(ls);
  }

  // ----- What an outcome tells -----

  function WhyOf(m: Main): Option<Outcome> {
    match m
    case EndInfrastructure(_, why) => Some(why)
    case JoinTunnel(why) => Some(why)
    case CleanUp(why) => Some(why)
    case Returned(why) => Some(why)
    case Stop(_, goal) =>
      (match goal case Detach(_, why) => Some(why) case Join(why) => Some(why) case Finish(why) => Some(why) case _ => None)
    case _ => None
  }

  ghost predicate NoTuiSignalled(s: State) {
    forall c | c in s.signalled :: !c.kind.Tui?
  }

  predicate Detaching(m: Main) {
    m.Stop? && m.goal.Detach?
  }

  ghost predicate OutcomeFits(s: State) {
    && (WhyOf(s.main) == Some(Cancelled) ==> s.ended)
    && (WhyOf(s.main) == Some(ServerExited) ==> s.server.Spawned? && Child(Server, s.server.child) !in s.live)
    && (WhyOf(s.main).None? || WhyOf(s.main) == Some(TuiExited) || WhyOf(s.main) == Some(TuiFailed) ==> NoTuiSignalled(s))
    && (Detaching(s.main) ==> !s.main.goal.why.TuiExited?)
    && (Detaching(s.main) && s.main.goal.why.SshdExited? ==> Child(Sshd, s.main.goal.sshd) !in s.live)
  }

  lemma EnsureTells(s: State, c: Choice)
    requires Inv(s) && OutcomeFits(s) && NextEnsure(s, c).Some?
    ensures OutcomeFits(NextEnsure(s, c).value)
  {}

  lemma InfrastructureTells(s: State, c: Choice)
    requires Inv(s) && OutcomeFits(s) && NextInfrastructure(s, c).Some?
    ensures OutcomeFits(NextInfrastructure(s, c).value)
  {}

  lemma SessionTells(s: State, c: Choice)
    requires Inv(s) && OutcomeFits(s) && NextSession(s, c).Some?
    ensures OutcomeFits(NextSession(s, c).value)
  {}

  lemma StopTells(s: State, c: Choice)
    requires Inv(s) && OutcomeFits(s) && s.main.Stop? && NextMain(s, c).Some?
    ensures OutcomeFits(NextMain(s, c).value)
  {}

  lemma TunnelTells(s: State, c: Choice)
    requires Inv(s) && OutcomeFits(s) && NextTunnel(s, c).Some?
    ensures OutcomeFits(NextTunnel(s, c).value)
  {}

  lemma StepTells(s: State, l: Label)
    requires Inv(s) && OutcomeFits(s) && Next(s, l).Some?
    ensures OutcomeFits(Next(s, l).value)
  {
    match l
    case MainStep(c) =>
      if s.main.Stop? { StopTells(s, c); }
      else if NextMain(s, c) == NextEnsure(s, c) { EnsureTells(s, c); }
      else if NextMain(s, c) == NextInfrastructure(s, c) { InfrastructureTells(s, c); }
      else { SessionTells(s, c); }
    case TunnelStep(c) => TunnelTells(s, c);
    case _ =>
  }

  lemma {:induction false} RunTells(s: State, ls: seq<Label>)
    requires Inv(s) && OutcomeFits(s) && Run(s, ls).Some?
    ensures OutcomeFits(Run(s, ls).value)
    decreases |ls|
  {
    if ls == [] {
    } else {
      StepKeeps(s, ls[0]);
      StepTells(s, ls[0]);
      RunTells(Next(s, ls[0]).value, ls[1..]);
    }
  }

  /** A reported outcome is what happened: a cancellation means that the context
      ended, a dead server is the spawned one and is dead, and a TUI that is said to
      have exited was not stopped by the client. */
  lemma OutcomeTells(s: State)
    requires Reachable(s) && s.main.Returned?
    ensures s.main.why.Cancelled? ==> s.ended
    ensures s.main.why.ServerExited? ==> s.server.Spawned? && Child(Server, s.server.child) !in s.live
    ensures s.main.why.TuiExited? ==> forall c | c in s.signalled :: !c.kind.Tui?
  {
    var ls: seq<Label> :| Run(START, ls) == Some(s);
    RunTells(START, ls);
  }

  /** The client ends a child only after signalling it. */
  lemma KilledAfterSignal(s: State, l: Label, c: Child)
    requires Own(l) && Next(s, l).Some? && c in s.live && c !in Next(s, l).value.live
    ensures c in s.signalled
  {}

  // ----- Nothing is taken for what was not seen -----

  ghost predicate SeenUp(s: State, ls: seq<Label>) {
    && (s.server.Spawned? ==> MainStep(SeeRunning) in ls)
    && (!s.tunnel.NoTunnel? ==> MainStep(SeeListening) in ls)
    && (s.ended ==> End in ls)
  }

  /** A child that was not signalled and lives no more has exited by itself. */
  ghost predicate SeenDown(s: State, ls: seq<Label>) {
    && (s.main.Attached? && Child(Tui, s.main.tui) !in s.live ==> Exit(Child(Tui, s.main.tui)) in ls)
    && (WhyOf(s.main) == Some(TuiExited) ==> exists id: nat :: Exit(Child(Tui, id)) in ls)
  }

  lemma MainSeesUp(s: State, c: Choice, ls: seq<Label>)
    requires SeenUp(s, ls) && NextMain(s, c).Some?
    ensures SeenUp(NextMain(s, c).value, ls + [MainStep(c)])
  {
    if NextMain(s, c) == NextEnsure(s, c) && !s.main.Stop? { EnsureSeesUp(s, c, ls); }
  }

  lemma EnsureSeesUp(s: State, c: Choice, ls: seq<Label>)
    requires SeenUp(s, ls) && NextEnsure(s, c).Some?
    ensures SeenUp(NextEnsure(s, c).value, ls + [MainStep(c)])
  {}

  lemma StepSeesUp(s: State, l: Label, ls: seq<Label>)
    requires SeenUp(s, ls) && Next(s, l).Some?
    ensures SeenUp(Next(s, l).value, ls + [l])
  {
    if l.MainStep? { MainSeesUp(s, l.choice, ls); }
  }

  lemma SessionSeesDown(s: State, c: Choice, ls: seq<Label>)
    requires SeenDown(s, ls) && NextSession(s, c).Some?
    ensures SeenDown(NextSession(s, c).value, ls + [MainStep(c)])
  {
    if s.main.Attached? && c.Go? {
      assert Exit(Child(Tui, s.main.tui)) in ls + [MainStep(c)];
    }
  }

  lemma MainSeesDown(s: State, c: Choice, ls: seq<Label>)
    requires Inv(s) && OutcomeFits(s) && SeenDown(s, ls) && NextMain(s, c).Some?
    ensures SeenDown(NextMain(s, c).value, ls + [MainStep(c)])
  {
    if s.main.Stop? {
    } else if NextMain(s, c) == NextEnsure(s, c) {
    } else if NextMain(s, c) == NextInfrastructure(s, c) {
    } else {
      SessionSeesDown(s, c, ls);
    }
  }

  lemma TunnelSeesDown(s: State, c: Choice, ls: seq<Label>)
    requires SeenDown(s, ls) && NextTunnel(s, c).Some?
    ensures SeenDown(NextTunnel(s, c).value, ls + [TunnelStep(c)])
  {}

  lemma StepSeesDown(s: State, l: Label, ls: seq<Label>)
    requires Inv(s) && OutcomeFits(s) && SeenDown(s, ls) && Next(s, l).Some?
    ensures SeenDown(Next(s, l).value, ls + [l])
  {
    match l
    case MainStep(c) => MainSeesDown(s, c, ls);
    case TunnelStep(c) => TunnelSeesDown(s, c, ls);
    case _ =>
  }

  lemma {:induction false} RunSees(ls: seq<Label>)
    requires Run(START, ls).Some?
    ensures SeenUp(Run(START, ls).value, ls) && SeenDown(Run(START, ls).value, ls)
    decreases |ls|
  {
    if ls == [] {
    } else {
      var front, l := ls[..|ls| - 1], ls[|ls| - 1];
      assert ls == front + [l];
      RunDefined(START, front, l);
      RunSnoc(START, front, l);
      RunKeeps(START, front);
      RunTells(START, front);
      RunSees(front);
      StepSeesUp(Run(START, front).value, l, front);
      StepSeesDown(Run(START, front).value, l, front);
    }
  }

  /** Over whole runs: a server counts as spawned only after it was seen running, the
      tunnel starts only after sshd was seen listening, a cancellation is reported only
      after the context ended, and a TUI is said to have exited only when one has. */
  lemma NothingUnseen(ls: seq<Label>)
    requires Run(START, ls).Some?
    ensures var s := Run(START, ls).value;
      && (s.server.Spawned? ==> MainStep(SeeRunning) in ls)
      && (!s.tunnel.NoTunnel? ==> MainStep(SeeListening) in ls)
      && (s.main == Returned(Cancelled) ==> End in ls)
      && (s.main == Returned(TuiExited) ==> exists id: nat :: Exit(Child(Tui, id)) in ls)
  {
    RunSees(ls);
    RunTells(START, ls);
  }
}
