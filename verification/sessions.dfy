/** Any number of invocations sharing one named Herdr server: visible ones, the
    headless service, and explicit stops. Status answers are truthful; `exclusive`
    says whether only one invocation at a time is between its status query and a
    ready server. The code itself takes no lock for this. */
module Sessions {
  import opened Text
  import HerdrSession

  datatype Use = Visible | Service | StopCommand

  /** Where an invocation stands. `child`, and `own` if any, is the server it spawned. */
  datatype Phase =
    | Idle
    | Deciding                       // the named server was not running
    | Booting(child: nat)             // waitHerdrReady
    | Failing(child: nat)             // stopping its child, never ready
    | Refused                        // incompatible server, or no server started
    | Using(own: Option<nat>)        // None: a reused or adopted server
    | Stopping(own: Option<nat>)     // StopHerdrSession, before its status query
    | Ordering(own: Option<nat>)     // the session runs: `server stop` comes next
    | Reaping(child: nat)             // child.stop after the stop by name
    | Gone

  datatype Cause = OwnExit | FailedStart(who: nat) | ByName(who: nat) | Reaped(who: nat)

  /** A server process of the named session. */
  datatype Server = Server(spawner: nat, stage: Stage)

  datatype Stage = Starting | Ready(compatible: Option<bool>) | Ended(cause: Cause)

  datatype Invocation = Invocation(use: Use, phase: Phase)

  datatype State = State(invocations: seq<Invocation>, servers: seq<Server>)

  datatype Label =
    | Arrive(use: Use)
    | Begin(i: nat)                  // status query of ensureHerdrServer, or a stop command
    | Spawn(i: nat)
    | Fail(i: nat)                   // the server cannot be started, or is not ready in time
    | SeeReady(i: nat)               // the status says running
    | Kill(i: nat)                   // child.stop
    | Leave(i: nat)                  // the TUI or service ends without stopping anything
    | GiveUp(i: nat)                 // infrastructure or TUI start failed; service told to end
    | Ask(i: nat)                    // StopHerdrSession's status query
    | Order(i: nat, obeyed: bool)    // `server stop`
    | BecomeReady(k: nat, compatible: Option<bool>)
    | Exit(k: nat)

  const START := State([], [])

  predicate Alive(s: State, k: nat) {
    k < |s.servers| && !s.servers[k].stage.Ended?
  }

  /** What a truthful status query reports: the ready server, if any. */
  function Running(servers: seq<Server>): (r: Option<nat>)
    ensures r.Some? ==> r.value < |servers| && servers[r.value].stage.Ready?
    ensures r.None? ==> forall k | 0 <= k < |servers| :: !servers[k].stage.Ready?
  {
    if servers == [] then None
    else if servers[|servers| - 1].stage.Ready? then Some(|servers| - 1)
    else Running(servers[..|servers| - 1])
  }

  /** A ready server that may be reused. */
  predicate HealthyServer(server: Server) {
    server.stage.Ready? && HerdrSession.Healthy(HerdrSession.Status(true, server.stage.compatible))
  }

  /** Inside an ensure window. */
  predicate Ensuring(p: Phase) {
    p.Deciding? || p.Booting? || p.Failing?
  }

  predicate Free(s: State) {
    forall i | 0 <= i < |s.invocations| :: !Ensuring(s.invocations[i].phase)
  }

  function Move(s: State, i: nat, p: Phase): State
    requires i < |s.invocations|
  {
    s.(invocations := s.invocations[i := s.invocations[i].(phase := p)])
  }

  function End(s: State, k: nat, cause: Cause): State
    requires k < |s.servers|
  {
    if Alive(s, k) then s.(servers := s.servers[k := s.servers[k].(stage := Ended(cause))]) else s
  }

  /** The status query that opens an invocation. */
  function NextBegin(s: State, i: nat, exclusive: bool): Option<State>
    requires i < |s.invocations|
  {
    if !s.invocations[i].phase.Idle? then None
    else if s.invocations[i].use.StopCommand? then Some(Move(s, i, Stopping(None)))
    else if exclusive && !Free(s) then None
    else match Running(s.servers)
      case None => Some(Move(s, i, Deciding))
      case Some(k) => Some(Move(s, i, if HealthyServer(s.servers[k]) then Using(None) else Refused))
  }

  function NextOf(s: State, i: nat, l: Label): Option<State>
    requires i < |s.invocations|
  {
    match s.invocations[i].phase
    case Deciding =>
      if l.Spawn? then Some(Move(s, i, Booting(|s.servers|)).(servers := s.servers + [Server(i, Starting)]))
      else if l.Fail? then Some(Move(s, i, Refused))
      else None
    case Booting(own) =>
      if l.SeeReady? && Running(s.servers).Some? then Some(Move(s, i, Using(Some(own))))
      else if l.Fail? then Some(Move(s, i, Failing(own)))
      else None
    case Failing(own) =>
      if l.Kill? && own < |s.servers| then Some(End(Move(s, i, Refused), own, FailedStart(i))) else None
    case Using(own) =>
      if l.Leave? && (s.invocations[i].use.Visible? || Lost(s, own)) then Some(Move(s, i, Gone))
      else if l.GiveUp? then Some(Move(s, i, if own.None? && s.invocations[i].use.Visible? then Gone else Stopping(own)))
      else None
    case Stopping(own) =>
      if l.Ask? then Some(Move(s, i, if Running(s.servers).Some? then Ordering(own) else AfterStop(own))) else None
    case Ordering(own) =>
      if !l.Order? then None
      else if l.obeyed && Running(s.servers).Some? then Some(End(Move(s, i, AfterStop(own)), Running(s.servers).value, ByName(i)))
      else Some(Move(s, i, AfterStop(own)))
    case Reaping(own) =>
      if l.Kill? && own < |s.servers| then Some(End(Move(s, i, Gone), own, Reaped(i))) else None
    case _ => None
  }

  /** What ends the service by itself: its child exited, or the session it adopted
      is no longer running. */
  predicate Lost(s: State, own: Option<nat>) {
    match own case Some(k) => !Alive(s, k) case None => Running(s.servers).None?
  }

  function AfterStop(own: Option<nat>): Phase {
    match own case None => Gone case Some(k) => Reaping(k)
  }

  function Next(s: State, l: Label, exclusive: bool): Option<State> {
    match l
    case Arrive(use) => Some(s.(invocations := s.invocations + [Invocation(use, Idle)]))
    case Begin(i) => if i < |s.invocations| then NextBegin(s, i, exclusive) else None
    case BecomeReady(k, compatible) =>
      if k < |s.servers| && s.servers[k].stage.Starting? && Running(s.servers).None?
      then Some(s.(servers := s.servers[k := s.servers[k].(stage := Ready(compatible))]))
      else None
    case Exit(k) => if Alive(s, k) then Some(End(s, k, OwnExit)) else None
    case _ => if l.i < |s.invocations| then NextOf(s, l.i, l) else None
  }

  function Run(s: State, ls: seq<Label>, exclusive: bool): Option<State>
    decreases |ls|
  {
    if ls == [] then Some(s)
    else match Next(s, ls[0], exclusive)
      case None => None
      case Some(t) => Run(t, ls[1..], exclusive)
  }

  ghost predicate Reached(s: State, exclusive: bool) {
    exists ls: seq<Label> :: Run(START, ls, exclusive) == Some(s)
  }

  /** Reached with ensure windows that do not overlap. */
  ghost predicate Reachable(s: State) {
    Reached(s, true)
  }

  // ----- The invariant of exclusive windows -----

  /** The child a phase holds. */
  function OwnOf(p: Phase): Option<nat> {
    match p
    case Booting(k) => Some(k)
    case Failing(k) => Some(k)
    case Using(own) => own
    case Stopping(own) => own
    case Ordering(own) => own
    case Reaping(k) => Some(k)
    case _ => None
  }

  ghost predicate AtMostOne(s: State) {
    forall a: nat, b: nat | Alive(s, a) && Alive(s, b) :: a == b
  }

  /** At most one ensure window is open. */
  ghost predicate OneWindow(s: State) {
    forall i: nat, j: nat | InWindow(s, i) && InWindow(s, j) :: i == j
  }

  predicate InWindow(s: State, i: nat) {
    i < |s.invocations| && Ensuring(s.invocations[i].phase)
  }

  /** An invocation holds only a server it spawned; while its window is open no
      other lives; if visible, it goes on to stop a session only as a spawner. */
  ghost predicate Fits(s: State, i: nat, p: Phase)
    requires i < |s.invocations|
  {
    && (OwnOf(p).Some? ==> OwnOf(p).value < |s.servers| && s.servers[OwnOf(p).value].spawner == i)
    && (Ensuring(p) ==> forall k: nat | Alive(s, k) :: OwnOf(p) == Some(k))
    && (s.invocations[i].use.Visible? && (p.Stopping? || p.Ordering?) ==> OwnOf(p).Some?)
  }

  ghost predicate AllFit(s: State) {
    forall i: nat | i < |s.invocations| :: Fits(s, i, s.invocations[i].phase)
  }

  /** A server that is not ready yet is waited for or being stopped by its spawner. */
  predicate Watched(s: State, k: nat)
    requires k < |s.servers|
  {
    var i := s.servers[k].spawner;
    InWindow(s, i) && OwnOf(s.invocations[i].phase) == Some(k)
  }

  ghost predicate StartingIsWatched(s: State) {
    forall k: nat | k < |s.servers| && s.servers[k].stage.Starting? :: Watched(s, k)
  }

  ghost predicate Inv(s: State) {
    AtMostOne(s) && OneWindow(s) && AllFit(s) && StartingIsWatched(s)
  }

  /** Moving one invocation on, with no server started or ended. */
  lemma MoveKeeps(s: State, i: nat, p: Phase)
    requires Inv(s) && i < |s.invocations| && Fits(s, i, p)
    requires Ensuring(p) ==> Free(s) || InWindow(s, i)
    requires forall k: nat | k < |s.servers| && s.servers[k].stage.Starting? && s.servers[k].spawner == i :: Ensuring(p) && OwnOf(p) == Some(k)
    ensures Inv(Move(s, i, p))
  {
    var t := Move(s, i, p);
    assert AtMostOne(t) by {
      forall a: nat, b: nat | Alive(t, a) && Alive(t, b) ensures a == b { assert Alive(s, a) && Alive(s, b); }
    }
    assert OneWindow(t) by { MoveWindow(s, i, p); }
    assert AllFit(t) by {
      forall j: nat | j < |t.invocations| ensures Fits(t, j, t.invocations[j].phase) {
        assert Fits(s, j, t.invocations[j].phase);
        assert forall k: nat :: Alive(t, k) == Alive(s, k);
      }
    }
    forall k: nat | k < |t.servers| && t.servers[k].stage.Starting? ensures Watched(t, k) {
      assert Watched(s, k);
    }
  }

  lemma MoveWindow(s: State, i: nat, p: Phase)
    requires OneWindow(s) && i < |s.invocations| && (Ensuring(p) ==> Free(s) || InWindow(s, i))
    ensures OneWindow(Move(s, i, p))
  {
    var t := Move(s, i, p);
    forall a: nat, b: nat | InWindow(t, a) && InWindow(t, b) ensures a == b {
      assert a == i || InWindow(s, a);
      assert b == i || InWindow(s, b);
    }
  }

  lemma EndKeeps(s: State, k: nat, cause: Cause)
    requires Inv(s) && k < |s.servers|
    ensures Inv(End(s, k, cause))
    ensures !Alive(End(s, k, cause), k)
  {
    var t := End(s, k, cause);
    assert forall j: nat :: Alive(t, j) ==> Alive(s, j);
    assert forall i: nat :: InWindow(t, i) == InWindow(s, i);
    assert forall i: nat | i < |s.invocations| :: Fits(s, i, s.invocations[i].phase) ==> Fits(t, i, t.invocations[i].phase);
    forall j: nat | j < |t.servers| && t.servers[j].stage.Starting? ensures Watched(t, j) {
      assert Watched(s, j);
    }
  }

  lemma ReadyKeeps(s: State, k: nat, compatible: Option<bool>)
    requires Inv(s) && k < |s.servers| && s.servers[k].stage.Starting?
    ensures Inv(s.(servers := s.servers[k := s.servers[k].(stage := Ready(compatible))]))
  {
    var t := s.(servers := s.servers[k := s.servers[k].(stage := Ready(compatible))]);
    assert forall j: nat :: Alive(t, j) == Alive(s, j);
    assert forall i: nat :: InWindow(t, i) == InWindow(s, i);
    assert forall i: nat | i < |s.invocations| :: Fits(s, i, s.invocations[i].phase) ==> Fits(t, i, t.invocations[i].phase);
    assert Alive(s, k);
    assert forall j: nat | j < |t.servers| :: t.servers[j].stage.Starting? ==> Alive(s, j) && j != k;
  }

  lemma ArriveKeeps(s: State, use: Use)
    requires Inv(s)
    ensures Inv(s.(invocations := s.invocations + [Invocation(use, Idle)]))
  {
    var t := s.(invocations := s.invocations + [Invocation(use, Idle)]);
    assert forall j: nat :: Alive(t, j) == Alive(s, j);
    assert forall i: nat :: InWindow(t, i) == InWindow(s, i);
    assert forall i: nat | i < |s.invocations| :: Fits(s, i, s.invocations[i].phase) ==> Fits(t, i, t.invocations[i].phase);
    forall j: nat | j < |t.servers| && t.servers[j].stage.Starting? ensures Watched(t, j) {
      assert Watched(s, j);
    }
  }

  lemma SpawnKeeps(s: State, i: nat)
    requires Inv(s) && i < |s.invocations| && s.invocations[i].phase.Deciding?
    ensures Inv(Move(s, i, Booting(|s.servers|)).(servers := s.servers + [Server(i, Starting)]))
  {
    var n := |s.servers|;
    var t := Move(s, i, Booting(n)).(servers := s.servers + [Server(i, Starting)]);
    assert InWindow(s, i) && Fits(s, i, Deciding);
    assert forall k: nat :: !Alive(s, k);
    forall k: nat | Alive(t, k) ensures k == n {
      assert k < n ==> Alive(s, k);
    }
    assert forall j: nat :: InWindow(t, j) ==> InWindow(s, j);
    forall j: nat | j < |t.invocations| ensures Fits(t, j, t.invocations[j].phase) {
      assert Fits(s, j, s.invocations[j].phase);
      if j != i { assert InWindow(t, j) ==> InWindow(s, j); }
    }
  }

  /** When no window is open and nothing runs, nothing lives. */
  lemma NoneAlive(s: State)
    requires Inv(s) && Free(s) && Running(s.servers).None?
    ensures forall k: nat :: !Alive(s, k)
  {
    forall k: nat ensures !Alive(s, k) {
      assert k < |s.servers| && s.servers[k].stage.Starting? ==> Watched(s, k);
    }
  }

  lemma BeginKeeps(s: State, i: nat)
    requires Inv(s) && i < |s.invocations| && NextBegin(s, i, true).Some?
    ensures Inv(NextBegin(s, i, true).value)
  {
    assert !InWindow(s, i);
    forall k: nat | k < |s.servers| && s.servers[k].stage.Starting? ensures s.servers[k].spawner != i {
      assert Watched(s, k);
    }
    if s.invocations[i].use.StopCommand? {
      MoveKeeps(s, i, Stopping(None));
    } else if Running(s.servers).None? {
      NoneAlive(s);
      MoveKeeps(s, i, Deciding);
    } else {
      MoveKeeps(s, i, if HealthyServer(s.servers[Running(s.servers).value]) then Using(None) else Refused);
    }
  }

  /** Under exclusive windows a server that becomes ready is the waiter's own. */
  lemma ReadyIsMine(s: State, i: nat)
    requires Inv(s) && InWindow(s, i) && Running(s.servers).Some?
    ensures OwnOf(s.invocations[i].phase) == Running(s.servers)
  {
    assert Fits(s, i, s.invocations[i].phase);
    assert Alive(s, Running(s.servers).value);
  }

  lemma NothingOfMineStarts(s: State, i: nat)
    requires Inv(s) && i < |s.invocations| && !InWindow(s, i)
    ensures forall k: nat | k < |s.servers| && s.servers[k].stage.Starting? :: s.servers[k].spawner != i
  {
    forall k: nat | k < |s.servers| && s.servers[k].stage.Starting? ensures s.servers[k].spawner != i {
      assert Watched(s, k);
    }
  }

  lemma WindowKeeps(s: State, i: nat, l: Label)
    requires Inv(s) && InWindow(s, i) && NextOf(s, i, l).Some?
    ensures Inv(NextOf(s, i, l).value)
  {
    var p := s.invocations[i].phase;
    assert Fits(s, i, p);
    forall k: nat | k < |s.servers| && s.servers[k].stage.Starting? ensures OwnOf(p) == Some(k) { assert Alive(s, k); }
    match p {
      case Deciding => if l.Spawn? { SpawnKeeps(s, i); } else { MoveKeeps(s, i, Refused); }
      case Booting(k) =>
        if l.SeeReady? {
          ReadyIsMine(s, i);
          MoveKeeps(s, i, Using(Some(k)));
        } else {
          MoveKeeps(s, i, Failing(k));
        }
      case Failing(k) =>
        EndKeeps(s, k, FailedStart(i));
        MoveKeeps(End(s, k, FailedStart(i)), i, Refused);
        assert NextOf(s, i, l).value == Move(End(s, k, FailedStart(i)), i, Refused);
    }
  }

  lemma UseKeeps(s: State, i: nat, l: Label)
    requires Inv(s) && i < |s.invocations| && !InWindow(s, i) && NextOf(s, i, l).Some?
    ensures Inv(NextOf(s, i, l).value)
  {
    var p, t := s.invocations[i].phase, NextOf(s, i, l).value;
    assert Fits(s, i, p);
    NothingOfMineStarts(s, i);
    if p.Ordering? && l.obeyed && Running(s.servers).Some? {
      var k := Running(s.servers).value;
      EndKeeps(s, k, ByName(i));
      NothingOfMineStarts(End(s, k, ByName(i)), i);
      MoveKeeps(End(s, k, ByName(i)), i, AfterStop(p.own));
      assert t == Move(End(s, k, ByName(i)), i, AfterStop(p.own));
    } else if p.Reaping? {
      EndKeeps(s, p.child, Reaped(i));
      NothingOfMineStarts(End(s, p.child, Reaped(i)), i);
      MoveKeeps(End(s, p.child, Reaped(i)), i, Gone);
      assert t == Move(End(s, p.child, Reaped(i)), i, Gone);
    } else {
      MoveKeeps(s, i, t.invocations[i].phase);
    }
  }

  lemma StepKeeps(s: State, l: Label)
    requires Inv(s) && Next(s, l, true).Some?
    ensures Inv(Next(s, l, true).value)
  {
    match l
    case Arrive(use) => ArriveKeeps(s, use);
    case Begin(i) => BeginKeeps(s, i);
    case BecomeReady(k, compatible) => ReadyKeeps(s, k, compatible);
    case Exit(k) => EndKeeps(s, k, OwnExit);
    case _ => if InWindow(s, l.i) { WindowKeeps(s, l.i, l); } else { UseKeeps(s, l.i, l); }
  }

  lemma {:induction false} RunKeeps(s: State, ls: seq<Label>)
    requires Inv(s) && Run(s, ls, true).Some?
    ensures Inv(Run(s, ls, true).value)
    decreases |ls|
  {
    if ls == [] {
    } else {
      StepKeeps(s, ls[0]);
      RunKeeps(Next(s, ls[0], true).value, ls[1..]);
    }
  }

  lemma ReachableKeeps(s: State)
    requires Reachable(s)
    ensures Inv(s)
  {
    var ls: seq<Label> :| Run(START, ls, true) == Some(s);
    RunKeeps(START, ls);
  }

  // ----- One server, one owner -----

  /** At most one server of the session lives, and at most one invocation past its
      window holds it. */
  lemma OneServerOneOwner(s: State)
    requires Reachable(s)
    ensures forall a: nat, b: nat | Alive(s, a) && Alive(s, b) :: a == b
    ensures forall i: nat, j: nat | i < |s.invocations| && j < |s.invocations|
      && OwnOf(s.invocations[i].phase).Some? && OwnOf(s.invocations[j].phase).Some?
      && Alive(s, OwnOf(s.invocations[i].phase).value) && Alive(s, OwnOf(s.invocations[j].phase).value) :: i == j
  {
    ReachableKeeps(s);
    forall i: nat, j: nat | i < |s.invocations| && j < |s.invocations|
      && OwnOf(s.invocations[i].phase).Some? && OwnOf(s.invocations[j].phase).Some?
      && Alive(s, OwnOf(s.invocations[i].phase).value) && Alive(s, OwnOf(s.invocations[j].phase).value)
      ensures i == j
    {
      assert Fits(s, i, s.invocations[i].phase) && Fits(s, j, s.invocations[j].phase);
    }
  }

  /** An invocation that counts itself as the spawner of a ready server is. */
  lemma SpawnedIsNeverMistaken(s: State, i: nat)
    requires Reachable(s) && i < |s.invocations| && s.invocations[i].phase.Booting? && Next(s, SeeReady(i), true).Some?
    ensures Running(s.servers) == Some(s.invocations[i].phase.child)
  {
    ReachableKeeps(s);
    ReadyIsMine(s, i);
  }

  // ----- How a server ends -----

  /** The steps that may end server k: its own exit, its spawner's stop of its
      child, or a stop by name by an explicit command, a service, or a visible
      invocation that spawned a server. */
  predicate MayEnd(s: State, l: Label, k: nat)
    requires k < |s.servers|
  {
    match l
    case Exit(j) => j == k
    case Kill(i) => i == s.servers[k].spawner
    case Order(i, _) => i < |s.invocations| && (s.invocations[i].use.Visible? ==> OwnOf(s.invocations[i].phase).Some?)
    case _ => false
  }

  lemma EndsOnlyBy(s: State, l: Label, k: nat)
    requires Reachable(s) && Next(s, l, true).Some? && Alive(s, k) && !Alive(Next(s, l, true).value, k)
    ensures MayEnd(s, l, k)
  {
    ReachableKeeps(s);
    if l.Kill? || l.Order? {
      assert Fits(s, l.i, s.invocations[l.i].phase);
    }
  }

  /** An invocation spawns at most one server, and none before it decides to. */
  ghost predicate SpawnsOnce(s: State) {
    && (forall a: nat, b: nat | a < |s.servers| && b < |s.servers| && s.servers[a].spawner == s.servers[b].spawner :: a == b)
    && (forall a: nat | a < |s.servers| :: HasSpawned(s, s.servers[a].spawner))
  }

  predicate HasSpawned(s: State, i: nat) {
    i < |s.invocations| && !s.invocations[i].phase.Idle? && !s.invocations[i].phase.Deciding?
  }

  lemma SpawnedStays(s: State, l: Label, exclusive: bool, i: nat)
    requires Next(s, l, exclusive).Some? && HasSpawned(s, i)
    ensures HasSpawned(Next(s, l, exclusive).value, i)
  {}

  /** Servers keep their spawner; a new one comes from an invocation that decides. */
  lemma SpawnersStay(s: State, l: Label, exclusive: bool, k: nat)
    requires Next(s, l, exclusive).Some? && k < |Next(s, l, exclusive).value.servers|
    ensures var t := Next(s, l, exclusive).value;
      if k < |s.servers| then t.servers[k].spawner == s.servers[k].spawner
      else k == |s.servers| && !HasSpawned(s, t.servers[k].spawner) && HasSpawned(t, t.servers[k].spawner)
  {}

  lemma SpawnsOnceKeeps(s: State, l: Label, exclusive: bool)
    requires SpawnsOnce(s) && Next(s, l, exclusive).Some?
    ensures SpawnsOnce(Next(s, l, exclusive).value)
  {
    var t := Next(s, l, exclusive).value;
    forall a: nat | a < |t.servers| ensures HasSpawned(t, t.servers[a].spawner) {
      SpawnersStay(s, l, exclusive, a);
      if a < |s.servers| { SpawnedStays(s, l, exclusive, s.servers[a].spawner); }
    }
    forall a: nat, b: nat | a < |t.servers| && b < |t.servers| && t.servers[a].spawner == t.servers[b].spawner ensures a == b {
      SpawnersStay(s, l, exclusive, a);
      SpawnersStay(s, l, exclusive, b);
    }
  }

  lemma {:induction false} RunSpawnsOnce(s: State, ls: seq<Label>)
    requires SpawnsOnce(s) && Run(s, ls, true).Some?
    ensures SpawnsOnce(Run(s, ls, true).value)
    decreases |ls|
  {
    if ls == [] {
    } else {
      SpawnsOnceKeeps(s, ls[0], true);
      RunSpawnsOnce(Next(s, ls[0], true).value, ls[1..]);
    }
  }

  /** A stop by name on the way to a clean-up of its own server, by a visible
      invocation or a service, hits one that another invocation spawned exactly when
      its own child has already exited. */
  lemma CleanupHitsAnotherIff(s: State, i: nat, k: nat)
    requires Reachable(s) && i < |s.invocations| && s.invocations[i].phase.Ordering?
    requires OwnOf(s.invocations[i].phase).Some? && Running(s.servers) == Some(k)
    ensures s.servers[k].spawner != i <==> !Alive(s, OwnOf(s.invocations[i].phase).value)
  {
    ReachableKeeps(s);
    var ls: seq<Label> :| Run(START, ls, true) == Some(s);
    RunSpawnsOnce(START, ls);
    assert Fits(s, i, s.invocations[i].phase);
    assert Alive(s, k);
  }

  // ----- Who ends nothing -----

  function Who(c: Cause): Option<nat> {
    match c case OwnExit => None case FailedStart(i) => Some(i) case ByName(i) => Some(i) case Reaped(i) => Some(i)
  }

  predicate Spawned(s: State, i: nat) {
    exists k :: 0 <= k < |s.servers| && s.servers[k].spawner == i
  }

  /** What may be said against an invocation that a server's end is put down to. */
  predicate Blamable(s: State, i: nat, cause: Cause) {
    && i < |s.invocations|
    && (s.invocations[i].use.Visible? ==> Spawned(s, i))
    && (var p := s.invocations[i].phase;
        if p.Refused? then cause.FailedStart? else p.Stopping? || p.Ordering? || p.Reaping? || p.Gone?)
  }

  ghost predicate BlameFits(s: State) {
    forall k: nat | k < |s.servers| && s.servers[k].stage.Ended? && Who(s.servers[k].stage.cause).Some? ::
      Blamable(s, Who(s.servers[k].stage.cause).value, s.servers[k].stage.cause)
  }

  lemma SpawnedLasts(s: State, l: Label, i: nat)
    requires Next(s, l, true).Some? && Spawned(s, i)
    ensures Spawned(Next(s, l, true).value, i)
  {
    var k :| 0 <= k < |s.servers| && s.servers[k].spawner == i;
    SpawnersStay(s, l, true, k);
  }

  lemma BlamableLasts(s: State, l: Label, i: nat, cause: Cause)
    requires Next(s, l, true).Some? && Blamable(s, i, cause)
    ensures Blamable(Next(s, l, true).value, i, cause)
  {
    if Spawned(s, i) { SpawnedLasts(s, l, i); }
  }

  /** A server that has just ended is put down to somebody who may be blamed. */
  lemma BlameIsFair(s: State, l: Label, k: nat)
    requires Inv(s) && Next(s, l, true).Some? && k < |Next(s, l, true).value.servers|
    requires !(k < |s.servers| && s.servers[k].stage.Ended?)
    ensures var t := Next(s, l, true).value;
      t.servers[k].stage.Ended? && Who(t.servers[k].stage.cause).Some? ==>
        Blamable(t, Who(t.servers[k].stage.cause).value, t.servers[k].stage.cause)
  {
    var t := Next(s, l, true).value;
    if (l.Kill? || l.Order?) && t.servers[k].stage.Ended? {
      var p := s.invocations[l.i].phase;
      assert Fits(s, l.i, p);
      if OwnOf(p).Some? {
        assert t.servers[OwnOf(p).value].spawner == l.i;
      }
    }
  }

  /** An ended server keeps its cause. */
  lemma EndedStays(s: State, l: Label, k: nat)
    requires Next(s, l, true).Some? && k < |s.servers| && s.servers[k].stage.Ended?
    ensures k < |Next(s, l, true).value.servers| && Next(s, l, true).value.servers[k] == s.servers[k]
  {}

  lemma BlameKeeps(s: State, l: Label)
    requires Inv(s) && BlameFits(s) && Next(s, l, true).Some?
    ensures BlameFits(Next(s, l, true).value)
  {
    var t := Next(s, l, true).value;
    forall k: nat | k < |t.servers| && t.servers[k].stage.Ended? && Who(t.servers[k].stage.cause).Some?
      ensures Blamable(t, Who(t.servers[k].stage.cause).value, t.servers[k].stage.cause)
    {
      if k < |s.servers| && s.servers[k].stage.Ended? {
        EndedStays(s, l, k);
        BlamableLasts(s, l, Who(s.servers[k].stage.cause).value, s.servers[k].stage.cause);
      } else {
        BlameIsFair(s, l, k);
      }
    }
  }

  lemma {:induction false} RunBlames(s: State, ls: seq<Label>)
    requires Inv(s) && BlameFits(s) && Run(s, ls, true).Some?
    ensures BlameFits(Run(s, ls, true).value)
    decreases |ls|
  {
    if ls == [] {
    } else {
      StepKeeps(s, ls[0]);
      BlameKeeps(s, ls[0]);
      RunBlames(Next(s, ls[0], true).value, ls[1..]);
    }
  }

  /** Over whole runs: a visible invocation that never spawned a server, because it
      reused one or was refused, has ended none; nor has one that is still using a
      server; and a refused one has ended at most the server it failed to start. */
  lemma BystandersEndNothing(s: State, i: nat, k: nat)
    requires Reachable(s) && i < |s.invocations| && k < |s.servers|
    requires s.servers[k].stage.Ended? && Who(s.servers[k].stage.cause) == Some(i)
    ensures s.invocations[i].use.Visible? ==> Spawned(s, i)
    ensures !s.invocations[i].phase.Using?
    ensures s.invocations[i].phase.Refused? ==> s.servers[k].stage.cause == FailedStart(i)
  {
    var ls: seq<Label> :| Run(START, ls, true) == Some(s);
    RunBlames(START, ls);
  }

  /** An invocation that met a running server: refused, or visible and reusing. It
      has spawned no server and ended none. */
  ghost predicate Aloof(s: State, i: nat) {
    && i < |s.invocations|
    && (var p := s.invocations[i].phase; p.Refused? || (s.invocations[i].use.Visible? && (p == Using(None) || p.Gone?)))
    && forall k: nat | k < |s.servers| :: SparedBy(s.servers[k], i)
  }

  predicate SparedBy(server: Server, i: nat) {
    server.spawner != i && (server.stage.Ended? ==> Who(server.stage.cause) != Some(i))
  }

  /** Whoever takes a step, a server that another invocation spares is still spared by it. */
  lemma StepSpares(s: State, l: Label, i: nat, k: nat)
    requires Aloof(s, i) && Next(s, l, true).Some? && k < |Next(s, l, true).value.servers|
    ensures SparedBy(Next(s, l, true).value.servers[k], i)
  {
    if k < |s.servers| {
      assert SparedBy(s.servers[k], i);
    }
  }

  lemma StepStaysAloof(s: State, l: Label, i: nat)
    requires Aloof(s, i) && Next(s, l, true).Some?
    ensures Aloof(Next(s, l, true).value, i)
    ensures s.invocations[i].phase.Refused? ==> Next(s, l, true).value.invocations[i].phase.Refused?
  {
    forall k: nat | k < |Next(s, l, true).value.servers| ensures SparedBy(Next(s, l, true).value.servers[k], i) {
      StepSpares(s, l, i, k);
    }
  }

  lemma {:induction false} RunStaysAloof(s: State, ls: seq<Label>, i: nat)
    requires Aloof(s, i) && Run(s, ls, true).Some?
    ensures Aloof(Run(s, ls, true).value, i)
    ensures s.invocations[i].phase.Refused? ==> Run(s, ls, true).value.invocations[i].phase.Refused?
    decreases |ls|
  {
    if ls == [] {
    } else {
      StepStaysAloof(s, ls[0], i);
      RunStaysAloof(Next(s, ls[0], true).value, ls[1..], i);
    }
  }

  lemma IdleHasDoneNothing(s: State, i: nat, k: nat)
    requires Reachable(s) && i < |s.invocations| && s.invocations[i].phase.Idle? && k < |s.servers|
    ensures SparedBy(s.servers[k], i)
  {
    var ls: seq<Label> :| Run(START, ls, true) == Some(s);
    RunSpawnsOnce(START, ls);
    RunBlames(START, ls);
    assert HasSpawned(s, s.servers[k].spawner);
  }

  /** The first status query decides. Meeting a ready server with the verdict
      `compatible`: an incompatible one refuses the invocation for good, any other is
      used without being owned; and an invocation that is refused so, or is visible,
      never spawns a server and never ends one. */
  lemma MetServerIsSpared(s: State, i: nat, k: nat, compatible: Option<bool>, ls: seq<Label>)
    requires Reachable(s) && i < |s.invocations| && s.invocations[i].phase.Idle? && !s.invocations[i].use.StopCommand?
    requires Running(s.servers) == Some(k) && s.servers[k].stage == Ready(compatible)
    requires Run(s, [Begin(i)] + ls, true).Some?
    ensures var t, u := Next(s, Begin(i), true).value, Run(s, [Begin(i)] + ls, true).value;
      && t.servers == s.servers && i < |t.invocations|
      && t.invocations[i].phase == (if compatible == Some(false) then Refused else Using(None))
      && (compatible == Some(false) ==> i < |u.invocations| && u.invocations[i].phase == Refused)
      && (compatible == Some(false) || s.invocations[i].use.Visible? ==>
            forall j: nat | j < |u.servers| :: u.servers[j].spawner != i
              && u.servers[j].stage != Ended(ByName(i)) && u.servers[j].stage != Ended(Reaped(i)) && u.servers[j].stage != Ended(FailedStart(i)))
  {
    assert ([Begin(i)] + ls)[1..] == ls;
    var t := Next(s, Begin(i), true).value;
    if compatible.Some? {
      if compatible.value { assert compatible == Some(true); } else { assert compatible == Some(false); }
    }
    if compatible == Some(false) || s.invocations[i].use.Visible? {
      forall j: nat | j < |s.servers| ensures SparedBy(s.servers[j], i) {
        IdleHasDoneNothing(s, i, j);
      }
      assert t.servers == s.servers && Aloof(t, i);
      RunStaysAloof(t, ls, i);
      var u := Run(t, ls, true).value;
      forall j: nat | j < |u.servers|
        ensures u.servers[j].spawner != i
        ensures u.servers[j].stage != Ended(ByName(i)) && u.servers[j].stage != Ended(Reaped(i)) && u.servers[j].stage != Ended(FailedStart(i))
      {
        assert SparedBy(u.servers[j], i);
      }
    }
  }

  // ----- Where the ownership rule does not hold -----

  lemma {:induction false} RunSnoc(s: State, ls: seq<Label>, l: Label, exclusive: bool)
    requires Run(s, ls, exclusive).Some?
    ensures Run(s, ls + [l], exclusive) == Next(Run(s, ls, exclusive).value, l, exclusive)
    decreases |ls|
  {
    if ls == [] {
      assert ([] + [l])[1..] == [];
    } else {
      assert (ls + [l])[1..] == ls[1..] + [l];
      RunSnoc(Next(s, ls[0], exclusive).value, ls[1..], l, exclusive);
    }
  }

  lemma Reach(s: State, l: Label, t: State, exclusive: bool)
    requires Reached(s, exclusive) && Next(s, l, exclusive).Some?
    requires var u := Next(s, l, exclusive).value; u.invocations == t.invocations && u.servers == t.servers
    ensures Reached(t, exclusive)
  {
    var ls: seq<Label> :| Run(START, ls, exclusive) == Some(s);
    RunSnoc(START, ls, l, exclusive);
  }

  /** Two visible invocations. */
  function Two(p: Phase, q: Phase, servers: seq<Server>): State {
    State([Invocation(Visible, p), Invocation(Visible, q)], servers)
  }

  /** Of one server, or of two of which one is over, the ready one is found. */
  lemma RunningLast(server: Server, over: Server)
    requires over.stage.Ended?
    ensures Running([server]) == (if server.stage.Ready? then Some(0) else None)
    ensures Running([over, server]) == (if server.stage.Ready? then Some(1) else None)
  {
    assert [server][..0] == [] && [over][..0] == [] && [over, server][..1] == [over];
  }

  lemma TwoArrive(exclusive: bool)
    ensures Reached(Two(Idle, Idle, []), exclusive)
  {
    assert Run(START, [], exclusive) == Some(START);
    var one := State([Invocation(Visible, Idle)], []);
    Reach(START, Arrive(Visible), one, exclusive);
    Reach(one, Arrive(Visible), Two(Idle, Idle, []), exclusive);
  }

  /** Either of two invocations decides to spawn, and then does. */
  lemma Decides(q: Phase, exclusive: bool)
    requires Reached(Two(Idle, q, []), exclusive) && (exclusive ==> !Ensuring(q))
    ensures Reached(Two(Deciding, q, []), exclusive)
  {
    Reach(Two(Idle, q, []), Begin(0), Two(Deciding, q, []), exclusive);
  }

  lemma FirstSpawns(q: Phase, exclusive: bool)
    requires Reached(Two(Deciding, q, []), exclusive)
    ensures Reached(Two(Booting(0), q, [Server(0, Starting)]), exclusive)
  {
    Reach(Two(Deciding, q, []), Spawn(0), Two(Booting(0), q, [Server(0, Starting)]), exclusive);
  }

  lemma SecondSpawns(p: Phase, server: Server, exclusive: bool)
    requires Reached(Two(p, Deciding, [server]), exclusive)
    ensures Reached(Two(p, Booting(1), [server, Server(1, Starting)]), exclusive)
  {
    Reach(Two(p, Deciding, [server]), Spawn(1), Two(p, Booting(1), [server, Server(1, Starting)]), exclusive);
  }

  /** A first server, spawned by the first invocation, is up; the other idles. */
  lemma FirstIsUp()
    ensures Reached(Two(Using(Some(0)), Idle, [Server(0, Ready(None))]), true)
  {
    TwoArrive(true);
    Decides(Idle, true);
    FirstSpawns(Idle, true);
    var starting, ready := Server(0, Starting), Server(0, Ready(None));
    RunningLast(starting, Server(0, Ended(OwnExit)));
    RunningLast(ready, Server(0, Ended(OwnExit)));
    Reach(Two(Booting(0), Idle, [starting]), BecomeReady(0, None), Two(Booting(0), Idle, [ready]), true);
    Reach(Two(Booting(0), Idle, [ready]), SeeReady(0), Two(Using(Some(0)), Idle, [ready]), true);
  }

  /** It exits, and the second invocation spawns another. */
  lemma SecondSpawnsAlone()
    ensures Reached(Two(Using(Some(0)), Booting(1), [Server(0, Ended(OwnExit)), Server(1, Starting)]), true)
  {
    var over := Server(0, Ended(OwnExit));
    FirstIsUp();
    RunningLast(over, over);
    Reach(Two(Using(Some(0)), Idle, [Server(0, Ready(None))]), Exit(0), Two(Using(Some(0)), Idle, [over]), true);
    Reach(Two(Using(Some(0)), Idle, [over]), Begin(1), Two(Using(Some(0)), Deciding, [over]), true);
    SecondSpawns(Using(Some(0)), over, true);
  }

  lemma SecondIsUp(p: Phase, over: Server)
    requires over.stage.Ended? && Reached(Two(p, Booting(1), [over, Server(1, Starting)]), true)
    ensures Reached(Two(p, Using(Some(1)), [over, Server(1, Ready(None))]), true)
  {
    var starting, ready := Server(1, Starting), Server(1, Ready(None));
    RunningLast(starting, over);
    RunningLast(ready, over);
    Reach(Two(p, Booting(1), [over, starting]), BecomeReady(1, None), Two(p, Booting(1), [over, ready]), true);
    Reach(Two(p, Booting(1), [over, ready]), SeeReady(1), Two(p, Using(Some(1)), [over, ready]), true);
  }

  /** The first invocation, told to clean up, asks and then stops the session. */
  lemma FirstCleansUp(q: Phase, over: Server)
    requires over.stage.Ended? && Reached(Two(Using(Some(0)), q, [over, Server(1, Ready(None))]), true)
    ensures Reached(Two(Ordering(Some(0)), q, [over, Server(1, Ready(None))]), true)
  {
    var servers := [over, Server(1, Ready(None))];
    RunningLast(servers[1], over);
    Reach(Two(Using(Some(0)), q, servers), GiveUp(0), Two(Stopping(Some(0)), q, servers), true);
    Reach(Two(Stopping(Some(0)), q, servers), Ask(0), Two(Ordering(Some(0)), q, servers), true);
  }

  /** "Only tear down a server we created" fails by name: after its own server has
      exited, an invocation whose TUI cannot start ends the server another one
      spawned meanwhile. */
  lemma CleanupHitsAnother()
    ensures Reachable(Two(Reaping(0), Using(Some(1)), [Server(0, Ended(OwnExit)), Server(1, Ended(ByName(0)))]))
  {
    var over, ready := Server(0, Ended(OwnExit)), Server(1, Ready(None));
    SecondSpawnsAlone();
    SecondIsUp(Using(Some(0)), over);
    FirstCleansUp(Using(Some(1)), over);
    RunningLast(ready, over);
    Reach(Two(Ordering(Some(0)), Using(Some(1)), [over, ready]), Order(0, true),
      Two(Reaping(0), Using(Some(1)), [over, Server(1, Ended(ByName(0)))]), true);
  }

  /** With overlapping windows two servers live at once, and an invocation takes
      the other's ready server for its own. */
  lemma OverlapMistakesTheSpawner()
    ensures Reached(Two(Booting(0), Using(Some(1)), [Server(0, Ready(None)), Server(1, Starting)]), false)
  {
    TwoArrive(false);
    Decides(Idle, false);
    Reach(Two(Deciding, Idle, []), Begin(1), Two(Deciding, Deciding, []), false);
    FirstSpawns(Deciding, false);
    SecondSpawns(Booting(0), Server(0, Starting), false);
    OneBecomesReady();
  }

  lemma OneBecomesReady()
    requires Reached(Two(Booting(0), Booting(1), [Server(0, Starting), Server(1, Starting)]), false)
    ensures Reached(Two(Booting(0), Using(Some(1)), [Server(0, Ready(None)), Server(1, Starting)]), false)
  {
    var first, up, second := Server(0, Starting), Server(0, Ready(None)), Server(1, Starting);
    assert [first, second][..1] == [first] && [up, second][..1] == [up];
    RunningLast(first, Server(0, Ended(OwnExit)));
    RunningLast(up, Server(0, Ended(OwnExit)));
    assert Running([up, second]) == Some(0) && Running([first, second]) == None;
    Reach(Two(Booting(0), Booting(1), [first, second]), BecomeReady(0, None), Two(Booting(0), Booting(1), [up, second]), false);
    Reach(Two(Booting(0), Booting(1), [up, second]), SeeReady(1), Two(Booting(0), Using(Some(1)), [up, second]), false);
  }
}
