/** One visible invocation: it ensures the named Herdr server, starts the callback
    sshd and the reverse tunnel, attaches the TUI, and winds everything down again,
    while any child may exit at any moment. */
module Supervision {
  import opened Text
  import HerdrSession

  datatype Kind = Server | Sshd | Ssh | Tui

  datatype Child = Child(kind: Kind, id: nat)

  datatype Outcome = EnsureFailed | InfrastructureFailed | TuiFailed | TuiExited | ServerExited | SshdExited | Cancelled

  /** The named server as this invocation sees it. */
  datatype Named = NoServer | Reused | Starting(child: nat) | Spawned(child: nat)

  /** What follows once a stopped child is dead. */
  datatype Goal = EndEnsure | NextAttempt(attempt: nat) | GiveUp | Detach(sshd: nat, why: Outcome) | Join(why: Outcome) | Finish(why: Outcome)

  datatype Main =
    | Query
    | StartServer
    | AwaitServer
    | StartSshd(attempt: nat)
    | AwaitSshd(attempt: nat, sshd: nat)
    | AbandonInfrastructure
    | StartTui(sshd: nat)
    | Attached(sshd: nat, tui: nat)
    | EndInfrastructure(sshd: nat, why: Outcome)
    | JoinTunnel(why: Outcome)
    | CleanUp(why: Outcome)
    | Stop(id: nat, goal: Goal)
    | Returned(why: Outcome)

  datatype Tunnel = NoTunnel | Top | Dial | Connected(ssh: nat) | StopSsh(ssh: nat) | Broken | Sleeping | TunnelDone

  /** `ended` is the caller's context, `cancelled` the infrastructure's own;
      `stops` counts stops of the session by name, `signalled` holds the children
      this invocation has signalled. */
  datatype State = State(
    main: Main, tunnel: Tunnel, server: Named, live: set<Child>, next: nat,
    ended: bool, cancelled: bool, stops: nat, signalled: set<Child>)

  const START := State(Query, NoTunnel, NoServer, {}, 0, false, false, 0, {})

  /** The client's own moves, what it sees, and Herdr's answer to the status query. */
  datatype Choice = Go | Fail | Report(status: HerdrSession.Status) | TimeOut | SeeRunning | SeeListening | SeeServer | SeeSshd | SeeContext | Term | Kill

  datatype Label = MainStep(choice: Choice) | TunnelStep(choice: Choice) | Exit(child: Child) | End

  function KindOf(goal: Goal): Kind {
    match goal
    case EndEnsure => Server
    case Finish(_) => Server
    case Detach(_, _) => Tui
    case _ => Sshd
  }

  function After(goal: Goal): Main {
    match goal
    case EndEnsure => Returned(EnsureFailed)
    case NextAttempt(a) => StartSshd(a)
    case GiveUp => AbandonInfrastructure
    case Detach(sshd, why) => EndInfrastructure(sshd, why)
    case Join(why) => JoinTunnel(why)
    case Finish(why) => Returned(why)
  }

  function Born(s: State, kind: Kind): State {
    s.(live := s.live + {Child(kind, s.next)}, next := s.next + 1)
  }

  /** The infrastructure's context derives from the caller's. */
  predicate Over(s: State) {
    s.ended || s.cancelled
  }

  /** ensureHerdrServer. */
  function NextEnsure(s: State, c: Choice): Option<State> {
    match s.main
    case Query =>
      if c.Fail? then Some(s.(main := Returned(EnsureFailed)))
      else if !c.Report? then None
      else if HerdrSession.Healthy(c.status) then Some(s.(main := StartSshd(0), server := Reused))
      else if c.status.running then Some(s.(main := Returned(EnsureFailed)))
      else Some(s.(main := StartServer))
    case StartServer =>
      if c.Go? then Some(Born(s, Server).(main := AwaitServer, server := Starting(s.next)))
      else if c.Fail? then Some(s.(main := Returned(EnsureFailed)))
      else None
    case AwaitServer =>
      if !s.server.Starting? then None
      else if c.SeeRunning? then Some(s.(main := StartSshd(0), server := Spawned(s.server.child)))
      else if c.TimeOut? || (c.SeeServer? && Child(Server, s.server.child) !in s.live) || (c.SeeContext? && s.ended)
      then Some(s.(main := Stop(s.server.child, EndEnsure)))
      else None
    case _ => None
  }

  /** startSSHD and startInfrastructure. */
  function NextInfrastructure(s: State, c: Choice): Option<State> {
    match s.main
    case StartSshd(a) =>
      if a >= 5 then (if c.Go? then Some(s.(main := AbandonInfrastructure)) else None)
      else if c.Go? then Some(Born(s, Sshd).(main := AwaitSshd(a, s.next)))
      else if c.Fail? then Some(s.(main := AbandonInfrastructure))
      else None
    case AwaitSshd(a, sshd) =>
      if c.SeeListening? then Some(s.(main := StartTui(sshd), tunnel := Top))
      else if c.SeeSshd? && Child(Sshd, sshd) !in s.live then Some(s.(main := StartSshd(a + 1)))
      else if c.TimeOut? then Some(s.(main := Stop(sshd, NextAttempt(a + 1))))
      else if c.SeeContext? && s.ended then Some(s.(main := Stop(sshd, GiveUp)))
      else None
    case AbandonInfrastructure =>
      if c.Go? then Some(s.(main := CleanUp(InfrastructureFailed), cancelled := true)) else None
    case _ => None
  }

  /** The TUI's lifetime, stopInfrastructure and cleanup. */
  function NextSession(s: State, c: Choice): Option<State> {
    match s.main
    case StartTui(sshd) =>
      if c.Go? then Some(Born(s, Tui).(main := Attached(sshd, s.next)))
      else if c.Fail? then Some(s.(main := EndInfrastructure(sshd, TuiFailed)))
      else None
    case Attached(sshd, tui) =>
      if c.Go? && Child(Tui, tui) !in s.live then Some(s.(main := EndInfrastructure(sshd, TuiExited)))
      else if c.SeeServer? && s.server.Spawned? && Child(Server, s.server.child) !in s.live
      then Some(s.(main := Stop(tui, Detach(sshd, ServerExited))))
      else if c.SeeSshd? && Child(Sshd, sshd) !in s.live then Some(s.(main := Stop(tui, Detach(sshd, SshdExited))))
      else if c.SeeContext? && s.ended then Some(s.(main := Stop(tui, Detach(sshd, Cancelled))))
      else None
    case EndInfrastructure(sshd, why) =>
      if c.Go? then Some(s.(main := Stop(sshd, Join(why)), cancelled := true)) else None
    case JoinTunnel(why) =>
      if c.Go? && s.tunnel.TunnelDone? then Some(s.(main := if why.TuiFailed? then CleanUp(why) else Returned(why))) else None
    case CleanUp(why) =>
      if !c.Go? then None
      else if s.server.Spawned? then Some(s.(main := Stop(s.server.child, Finish(why)), stops := s.stops + 1))
      else Some(s.(main := Returned(why)))
    case _ => None
  }

  /** child.stop: signal a live child, kill it when the grace period is over, and
      go on once it is dead. */
  function NextStop(s: State, child: Child, c: Choice, done: State): Option<State> {
    if c.Go? && child !in s.live then Some(done)
    else if c.Term? && child in s.live && child !in s.signalled then Some(s.(signalled := s.signalled + {child}))
    else if c.Kill? && child in s.live && child in s.signalled then Some(s.(live := s.live - {child}))
    else None
  }

  function NextMain(s: State, c: Choice): Option<State> {
    match s.main
    case Query => NextEnsure(s, c)
    case StartServer => NextEnsure(s, c)
    case AwaitServer => NextEnsure(s, c)
    case StartSshd(_) => NextInfrastructure(s, c)
    case AwaitSshd(_, _) => NextInfrastructure(s, c)
    case AbandonInfrastructure => NextInfrastructure(s, c)
    case Stop(id, goal) => NextStop(s, Child(KindOf(goal), id), c, s.(main := After(goal)))
    case _ => NextSession(s, c)
  }

  /** tunnelLoop, on its own goroutine. */
  function NextTunnel(s: State, c: Choice): Option<State> {
    match s.tunnel
    case Top => if c.Go? then Some(s.(tunnel := if Over(s) then TunnelDone else Dial)) else None
    case Dial =>
      if c.Go? then Some(Born(s, Ssh).(tunnel := Connected(s.next)))
      else if c.Fail? then Some(s.(tunnel := Broken))
      else None
    case Connected(ssh) =>
      if c.Go? && Child(Ssh, ssh) !in s.live then Some(s.(tunnel := Broken))
      else if c.SeeContext? && Over(s) then Some(s.(tunnel := StopSsh(ssh)))
      else None
    case StopSsh(ssh) => NextStop(s, Child(Ssh, ssh), c, s.(tunnel := TunnelDone))
    case Broken => if c.Go? then Some(s.(tunnel := if Over(s) then TunnelDone else Sleeping)) else None
    case Sleeping =>
      if c.TimeOut? then Some(s.(tunnel := Top))
      else if c.SeeContext? && Over(s) then Some(s.(tunnel := TunnelDone))
      else None
    case _ => None
  }

  function Next(s: State, l: Label): Option<State> {
    match l
    case MainStep(c) => NextMain(s, c)
    case TunnelStep(c) => NextTunnel(s, c)
    case Exit(child) => if child in s.live then Some(s.(live := s.live - {child})) else None
    case End => Some(s.(ended := true))
  }

  function Run(s: State, ls: seq<Label>): Option<State>
    decreases |ls|
  {
    if ls == [] then Some(s)
    else match Next(s, ls[0])
      case None => None
      case Some(t) => Run(t, ls[1..])
  }

  ghost predicate Reachable(s: State) {
    exists ls: seq<Label> :: Run(START, ls) == Some(s)
  }

  // ----- Where each child is held -----

  predicate HoldsSshd(m: Main, id: nat) {
    match m
    case AwaitSshd(_, sshd) => sshd == id
    case StartTui(sshd) => sshd == id
    case Attached(sshd, _) => sshd == id
    case EndInfrastructure(sshd, _) => sshd == id
    case Stop(c, goal) => (goal.Detach? && goal.sshd == id) || ((goal.NextAttempt? || goal.GiveUp? || goal.Join?) && c == id)
    case _ => false
  }

  predicate HoldsTui(m: Main, id: nat) {
    (m.Attached? && m.tui == id) || (m.Stop? && m.goal.Detach? && m.id == id)
  }

  predicate Holds(s: State, c: Child) {
    match c.kind
    case Server => (s.server.Starting? || s.server.Spawned?) && s.server.child == c.id
    case Sshd => HoldsSshd(s.main, c.id)
    case Ssh => (s.tunnel.Connected? || s.tunnel.StopSsh?) && s.tunnel.ssh == c.id
    case Tui => HoldsTui(s.main, c.id)
  }

  /** Every live child is held, so that somebody still has to stop it. */
  ghost predicate NoneLost(s: State) {
    forall c | c in s.live :: Holds(s, c)
  }

  datatype Stage = Ensuring | Raising | Up | Ending | Closed

  function StageOf(m: Main): Stage {
    match m
    case Query => Ensuring
    case StartServer => Ensuring
    case AwaitServer => Ensuring
    case StartSshd(_) => Raising
    case AwaitSshd(_, _) => Raising
    case AbandonInfrastructure => Raising
    case StartTui(_) => Up
    case Attached(_, _) => Up
    case EndInfrastructure(_, _) => Up
    case JoinTunnel(_) => Ending
    case CleanUp(_) => Closed
    case Returned(_) => Closed
    case Stop(_, goal) =>
      match goal
      case EndEnsure => Ensuring
      case NextAttempt(_) => Raising
      case GiveUp => Raising
      case Detach(_, _) => Up
      case Join(_) => Ending
      case Finish(_) => Closed
  }

  /** How far the tunnel and the infrastructure's context can be at each stage. */
  predicate TunnelFits(s: State) {
    match StageOf(s.main)
    case Ensuring => s.tunnel.NoTunnel? && !s.cancelled
    case Raising => s.tunnel.NoTunnel? && !s.cancelled
    case Up => !s.tunnel.NoTunnel? && !s.cancelled
    case Ending => !s.tunnel.NoTunnel? && s.cancelled
    case Closed => s.tunnel.NoTunnel? || s.tunnel.TunnelDone?
  }

  predicate StartFailed(why: Outcome) {
    why.InfrastructureFailed? || why.TuiFailed?
  }

  /** The server's part: what it is at each stage, and how often it was stopped. */
  predicate ServerFits(s: State) {
    match s.main
    case Query => s.server.NoServer? && s.stops == 0
    case StartServer => s.server.NoServer? && s.stops == 0
    case AwaitServer => s.server.Starting? && s.stops == 0
    case CleanUp(why) => HasServer(s) && s.stops == 0 && StartFailed(why)
    case Stop(id, goal) =>
      if goal.EndEnsure? then s.server == Starting(id) && s.stops == 0
      else if goal.Finish? then s.server == Spawned(id) && s.stops == 1 && StartFailed(goal.why)
      else HasServer(s) && s.stops == 0 && (goal.Detach? ==> Left(goal.why)) && (goal.Join? ==> goal.why.TuiFailed? || Left(goal.why))
    case EndInfrastructure(_, why) => HasServer(s) && s.stops == 0 && (why.TuiFailed? || Left(why))
    case JoinTunnel(why) => HasServer(s) && s.stops == 0 && (why.TuiFailed? || Left(why))
    case Returned(why) =>
      if why.EnsureFailed? then (s.server.NoServer? || s.server.Starting?) && s.stops == 0
      else HasServer(s) && s.stops == (if StartFailed(why) && s.server.Spawned? then 1 else 0)
    case _ => HasServer(s) && s.stops == 0
  }

  predicate HasServer(s: State) {
    s.server.Reused? || s.server.Spawned?
  }

  /** The outcomes after the TUI was attached. */
  predicate Left(why: Outcome) {
    why.TuiExited? || why.ServerExited? || why.SshdExited? || why.Cancelled?
  }

  /** A server is signalled only while being torn down, and then it is dead at the end. */
  ghost predicate ServerSpared(s: State) {
    && (forall c | c in s.signalled && c.kind.Server? ::
         (s.main.Stop? && (s.main.goal.EndEnsure? || s.main.goal.Finish?)) || (s.main.Returned? && (s.main.why.EnsureFailed? || StartFailed(s.main.why))))
    && (s.main.Returned? && (s.main.why.EnsureFailed? || StartFailed(s.main.why)) ==> forall c | c in s.live :: false)
  }

  predicate AttemptFits(m: Main) {
    match m
    case StartSshd(a) => a <= 5
    case AwaitSshd(a, _) => a < 5
    case Stop(_, goal) => goal.NextAttempt? ==> goal.attempt <= 5
    case _ => true
  }

  ghost predicate Inv(s: State) {
    NoneLost(s) && TunnelFits(s) && ServerFits(s) && ServerSpared(s) && AttemptFits(s.main)
  }

  lemma EnsureKeeps(s: State, c: Choice)
    requires Inv(s) && NextEnsure(s, c).Some?
    ensures Inv(NextEnsure(s, c).value)
  {}

  lemma InfrastructureKeeps(s: State, c: Choice)
    requires Inv(s) && NextInfrastructure(s, c).Some?
    ensures Inv(NextInfrastructure(s, c).value)
  {}

  lemma SessionLosesNone(s: State, c: Choice)
    requires Inv(s) && NextSession(s, c).Some?
    ensures NoneLost(NextSession(s, c).value)
  {}

  lemma SessionFits(s: State, c: Choice)
    requires Inv(s) && NextSession(s, c).Some?
    ensures var t := NextSession(s, c).value; TunnelFits(t) && ServerFits(t) && AttemptFits(t.main)
  {}

  lemma SessionSpares(s: State, c: Choice)
    requires Inv(s) && NextSession(s, c).Some?
    ensures ServerSpared(NextSession(s, c).value)
  {}

  lemma SessionKeeps(s: State, c: Choice)
    requires Inv(s) && NextSession(s, c).Some?
    ensures Inv(NextSession(s, c).value)
  {
    SessionLosesNone(s, c);
    SessionFits(s, c);
    SessionSpares(s, c);
  }

  lemma StopKeeps(s: State, c: Choice)
    requires Inv(s) && s.main.Stop? && NextMain(s, c).Some?
    ensures Inv(NextMain(s, c).value)
  {}

  lemma TunnelLosesNone(s: State, c: Choice)
    requires Inv(s) && NextTunnel(s, c).Some?
    ensures NoneLost(NextTunnel(s, c).value)
  {}

  lemma TunnelSpares(s: State, c: Choice)
    requires Inv(s) && NextTunnel(s, c).Some?
    ensures ServerSpared(NextTunnel(s, c).value)
  {}

  lemma TunnelKeeps(s: State, c: Choice)
    requires Inv(s) && NextTunnel(s, c).Some?
    ensures Inv(NextTunnel(s, c).value)
  {
    TunnelLosesNone(s, c);
    TunnelSpares(s, c);
  }

  lemma StepKeeps(s: State, l: Label)
    requires Inv(s) && Next(s, l).Some?
    ensures Inv(Next(s, l).value)
  {
    match l
    case MainStep(c) =>
      if s.main.Stop? { StopKeeps(s, c); }
      else if NextMain(s, c) == NextEnsure(s, c) { EnsureKeeps(s, c); }
      else if NextMain(s, c) == NextInfrastructure(s, c) { InfrastructureKeeps(s, c); }
      else { SessionKeeps(s, c); }
    case TunnelStep(c) => TunnelKeeps(s, c);
    case _ =>
  }

  lemma {:induction false} RunKeeps(s: State, ls: seq<Label>)
    requires Inv(s) && Run(s, ls).Some?
    ensures Inv(Run(s, ls).value)
    decreases |ls|
  {
    if ls == [] {
    } else {
      StepKeeps(s, ls[0]);
      RunKeeps(Next(s, ls[0]).value, ls[1..]);
    }
  }

  lemma ReachableKeeps(s: State)
    requires Reachable(s)
    ensures Inv(s)
  {
    var ls: seq<Label> :| Run(START, ls) == Some(s);
    RunKeeps(START, ls);
  }

  // ----- What every exit leaves -----

  /** However it ended: no sshd, ssh or TUI child lives, the tunnel loop is over,
      and the only child that may live on is the server this invocation spawned. */
  lemma ExitLeavesOnlyTheServer(s: State)
    requires Reachable(s) && s.main.Returned?
    ensures s.tunnel.NoTunnel? || s.tunnel.TunnelDone?
    ensures forall c | c in s.live :: c.kind.Server? && s.server == Spawned(c.id)
  {
    ReachableKeeps(s);
  }

  /** At any time at most one child of each kind lives. */
  lemma OneOfEachKind(s: State, a: Child, b: Child)
    requires Reachable(s) && a in s.live && b in s.live && a.kind == b.kind
    ensures a == b
  {
    ReachableKeeps(s);
    assert Holds(s, a) && Holds(s, b);
  }

  /** The session is stopped by name exactly by the invocation that spawned its
      server and then failed to start the infrastructure or the TUI, and once only;
      its server child is then dead. */
  lemma TornDownIff(s: State)
    requires Reachable(s) && s.main.Returned?
    ensures s.stops == (if s.server.Spawned? && StartFailed(s.main.why) then 1 else 0)
    ensures StartFailed(s.main.why) || s.main.why.EnsureFailed? ==> s.live == {}
  {
    ReachableKeeps(s);
  }

  /** A reused server is never stopped, at no point of a run. */
  lemma ReusedIsNeverStopped(s: State)
    requires Reachable(s) && s.server.Reused?
    ensures s.stops == 0
    ensures forall c | c in s.live :: !c.kind.Server?
  {
    ReachableKeeps(s);
  }

  /** Leaving an attached session signals no server: if the spawned one is dead it
      exited by itself. */
  lemma LeavingSparesTheServer(s: State)
    requires Reachable(s) && s.main.Returned? && Left(s.main.why)
    ensures s.stops == 0 && HasServer(s)
    ensures forall c | c in s.signalled :: !c.kind.Server?
  {
    ReachableKeeps(s);
  }

  // ----- Winding down takes boundedly many steps -----

  function StopRank(s: State, c: Child): nat {
    1 + (if c in s.live then 1 else 0) + (if c in s.live && c !in s.signalled then 1 else 0)
  }

  function GoalRank(goal: Goal): nat {
    match goal
    case EndEnsure => 0
    case NextAttempt(a) => if a <= 5 then 16 + 6 * (5 - a) else 16
    case GiveUp => 5
    case Detach(_, _) => 9
    case Join(_) => 5
    case Finish(_) => 0
  }

  function MainRank(s: State): nat {
    match s.main
    case Query => 49
    case StartServer => 48
    case AwaitServer => 47
    case StartSshd(a) => GoalRank(NextAttempt(a))
    case AwaitSshd(a, _) => GoalRank(NextAttempt(a)) - 1
    case AbandonInfrastructure => 5
    case StartTui(_) => 14
    case Attached(_, _) => 13
    case EndInfrastructure(_, _) => 9
    case JoinTunnel(_) => 5
    case CleanUp(_) => 4
    case Stop(id, goal) => StopRank(s, Child(KindOf(goal), id)) + GoalRank(goal)
    case Returned(_) => 0
  }

  function TunnelRank(s: State): nat {
    match s.tunnel
    case NoTunnel => 0
    case TunnelDone => 0
    case Top => 1
    case Broken => 1
    case Sleeping => 2
    case StopSsh(ssh) => StopRank(s, Child(Ssh, ssh))
    case Connected(_) => 4
    case Dial => 5
  }

  function Rank(s: State): nat {
    MainRank(s) + TunnelRank(s)
  }

  /** A step of the client's own, as opposed to the world's. */
  predicate Own(l: Label) {
    l.MainStep? || l.TunnelStep?
  }

  lemma EnsureFalls(s: State, c: Choice)
    requires Inv(s) && NextEnsure(s, c).Some?
    ensures MainRank(NextEnsure(s, c).value) < MainRank(s) && NextEnsure(s, c).value.tunnel == s.tunnel
  {}

  lemma InfrastructureFalls(s: State, c: Choice)
    requires Inv(s) && NextInfrastructure(s, c).Some?
    ensures var t := NextInfrastructure(s, c).value;
      if t.tunnel == s.tunnel then MainRank(t) < MainRank(s) else t.tunnel.Top? && MainRank(t) + 1 < MainRank(s)
  {}

  lemma SessionFalls(s: State, c: Choice)
    requires Inv(s) && NextSession(s, c).Some?
    ensures MainRank(NextSession(s, c).value) < MainRank(s) && NextSession(s, c).value.tunnel == s.tunnel
  {}

  lemma StopFalls(s: State, c: Choice)
    requires Inv(s) && s.main.Stop? && NextMain(s, c).Some?
    ensures MainRank(NextMain(s, c).value) < MainRank(s) && NextMain(s, c).value.tunnel == s.tunnel
  {}

  /** Main's steps leave the tunnel where it is, or start it. */
  lemma MainMoves(s: State, c: Choice)
    requires Inv(s) && NextMain(s, c).Some?
    ensures var t := NextMain(s, c).value;
      if t.tunnel == s.tunnel then MainRank(t) < MainRank(s) else t.tunnel.Top? && MainRank(t) + 1 < MainRank(s)
  {
    if s.main.Stop? { StopFalls(s, c); }
    else if NextMain(s, c) == NextEnsure(s, c) { EnsureFalls(s, c); }
    else if NextMain(s, c) == NextInfrastructure(s, c) { InfrastructureFalls(s, c); }
    else { SessionFalls(s, c); }
  }

  /** Main's steps revive no ssh child. */
  lemma SshStays(s: State, c: Choice, child: Child)
    requires NextMain(s, c).Some? && child.kind.Ssh?
    ensures var t := NextMain(s, c).value;
      && (child in t.live <==> child in s.live) && (child in t.signalled <==> child in s.signalled)
  {}

  lemma MainFalls(s: State, c: Choice)
    requires Inv(s) && NextMain(s, c).Some?
    ensures Rank(NextMain(s, c).value) < Rank(s)
    ensures MainRank(NextMain(s, c).value) < MainRank(s)
  {
    MainMoves(s, c);
    if s.tunnel.StopSsh? {
      SshStays(s, c, Child(Ssh, s.tunnel.ssh));
    }
  }

  lemma TunnelFalls(s: State, c: Choice)
    requires Inv(s) && Over(s) && NextTunnel(s, c).Some?
    ensures Rank(NextTunnel(s, c).value) < Rank(s)
  {}

  lemma StopNeverRaises(s: State, child: Child, gone: Child)
    ensures StopRank(s.(live := s.live - {gone}), child) <= StopRank(s, child)
  {}

  lemma ExitNeverRaises(s: State, child: Child)
    ensures Rank(s.(live := s.live - {child})) <= Rank(s)
  {
    var t := s.(live := s.live - {child});
    assert MainRank(t) <= MainRank(s) by {
      if s.main.Stop? { StopNeverRaises(s, Child(KindOf(s.main.goal), s.main.id), child); }
    }
    assert TunnelRank(t) <= TunnelRank(s) by {
      if s.tunnel.StopSsh? { StopNeverRaises(s, Child(Ssh, s.tunnel.ssh), child); }
    }
  }

  lemma WorldNeverRaises(s: State, l: Label)
    requires !Own(l) && Next(s, l).Some?
    ensures Rank(Next(s, l).value) <= Rank(s)
  {
    if l.Exit? { ExitNeverRaises(s, l.child); }
  }

  lemma StepFalls(s: State, l: Label)
    requires Inv(s) && Over(s) && Next(s, l).Some?
    ensures Rank(Next(s, l).value) + (if Own(l) then 1 else 0) <= Rank(s)
    ensures Over(Next(s, l).value)
  {
    match l {
      case MainStep(c) => MainFalls(s, c);
      case TunnelStep(c) => TunnelFalls(s, c);
      case _ => WorldNeverRaises(s, l);
    }
  }

  lemma RankBound(s: State)
    requires Inv(s)
    ensures Rank(s) <= 54
  {}

  function OwnSteps(ls: seq<Label>): nat {
    if ls == [] then 0 else (if Own(ls[0]) then 1 else 0) + OwnSteps(ls[1..])
  }

  /** Once the context is over, no run has more than Rank(s) further steps of its
      own, whatever children do in between; Rank is at most 54. */
  lemma {:induction false} WindsDown(s: State, ls: seq<Label>)
    requires Inv(s) && Over(s) && Run(s, ls).Some?
    ensures OwnSteps(ls) <= Rank(s) <= 54
    decreases |ls|
  {
    if ls == [] {
    } else {
      StepKeeps(s, ls[0]);
      StepFalls(s, ls[0]);
      WindsDown(Next(s, ls[0]).value, ls[1..]);
    }
    RankBound(s);
  }

  ghost predicate CanStep(s: State) {
    exists c: Choice :: NextMain(s, c).Some? || NextTunnel(s, c).Some?
  }

  /** Waiting, attached, with all that is watched alive. */
  predicate Watching(s: State) {
    && s.main.Attached? && !s.ended
    && Child(Tui, s.main.tui) in s.live && Child(Sshd, s.main.sshd) in s.live
    && (s.server.Spawned? ==> Child(Server, s.server.child) in s.live)
  }

  lemma StopCanStep(s: State, child: Child, done: State)
    ensures NextStop(s, child, Go, done).Some? || NextStop(s, child, Term, done).Some? || NextStop(s, child, Kill, done).Some?
  {}

  lemma TunnelCanStep(s: State)
    requires s.cancelled && !s.tunnel.NoTunnel? && !s.tunnel.TunnelDone?
    ensures exists c: Choice :: NextTunnel(s, c).Some?
  {
    if s.tunnel.Connected? {
      assert NextTunnel(s, SeeContext).Some?;
    } else if s.tunnel.Sleeping? {
      assert NextTunnel(s, TimeOut).Some?;
    } else if s.tunnel.StopSsh? {
      StopCanStep(s, Child(Ssh, s.tunnel.ssh), s.(tunnel := TunnelDone));
      assert NextTunnel(s, Go).Some? || NextTunnel(s, Term).Some? || NextTunnel(s, Kill).Some?;
    } else {
      assert NextTunnel(s, Go).Some?;
    }
  }

  lemma MainCanStep(s: State)
    requires Inv(s) && !s.main.Returned? && !s.main.JoinTunnel? && !Watching(s)
    ensures exists c: Choice :: NextMain(s, c).Some?
  {
    if s.main.Query? {
      assert NextMain(s, Fail).Some?;
    } else if s.main.AwaitServer? || s.main.AwaitSshd? {
      assert NextMain(s, TimeOut).Some?;
    } else if s.main.Attached? {
      assert NextMain(s, Go).Some? || NextMain(s, SeeServer).Some? || NextMain(s, SeeSshd).Some? || NextMain(s, SeeContext).Some?;
    } else if s.main.Stop? {
      StopCanStep(s, Child(KindOf(s.main.goal), s.main.id), s.(main := After(s.main.goal)));
      assert NextMain(s, Go).Some? || NextMain(s, Term).Some? || NextMain(s, Kill).Some?;
    } else {
      assert NextMain(s, Go).Some?;
    }
  }

  /** The client is never stuck: while it has not returned it can take a step of its
      own, unless it waits, attached, with all that it watches alive. */
  lemma NeverStuck(s: State)
    requires Reachable(s) && !s.main.Returned? && !Watching(s)
    ensures CanStep(s)
  {
    ReachableKeeps(s);
    if !s.main.JoinTunnel? {
      MainCanStep(s);
    } else if s.tunnel.TunnelDone? {
      assert NextMain(s, Go).Some?;
    } else {
      TunnelCanStep(s);
    }
  }
}
