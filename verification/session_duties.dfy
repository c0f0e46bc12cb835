/** What invocations owe the servers they spawn: a service leaves none behind, a
    clean-up ends its own, and a stop ends whatever runs. */
module SessionDuties {
  import opened Text
  import opened Sessions

  // ----- Every live server is somebody's -----

  /** A live server is held by its spawner, or was left running by a visible one. */
  predicate HeldOrLeft(s: State, k: nat)
    requires k < |s.servers|
  {
    var i := s.servers[k].spawner;
    && i < |s.invocations|
    && (OwnOf(s.invocations[i].phase) == Some(k) || (s.invocations[i].use.Visible? && s.invocations[i].phase.Gone?))
  }

  ghost predicate NoneAbandoned(s: State) {
    forall k: nat | Alive(s, k) :: HeldOrLeft(s, k)
  }

  /** Servers come to life only when spawned. */
  lemma AliveBefore(s: State, l: Label, k: nat)
    requires Next(s, l, true).Some? && Alive(Next(s, l, true).value, k) && !l.Spawn?
    ensures Alive(s, k) && Next(s, l, true).value.servers[k].spawner == s.servers[k].spawner
  {}

  lemma SpawnIsHeld(s: State, i: nat, k: nat)
    requires NoneAbandoned(s) && Next(s, Spawn(i), true).Some? && Alive(Next(s, Spawn(i), true).value, k)
    ensures HeldOrLeft(Next(s, Spawn(i), true).value, k)
  {
    if k < |s.servers| {
      assert Alive(s, k) && HeldOrLeft(s, k);
    }
  }

  lemma OtherIsHeld(s: State, l: Label, k: nat)
    requires NoneAbandoned(s) && Next(s, l, true).Some? && !l.Spawn? && Alive(Next(s, l, true).value, k)
    ensures HeldOrLeft(Next(s, l, true).value, k)
  {
    AliveBefore(s, l, k);
    assert HeldOrLeft(s, k);
  }

  lemma StepAbandonsNone(s: State, l: Label)
    requires NoneAbandoned(s) && Next(s, l, true).Some?
    ensures NoneAbandoned(Next(s, l, true).value)
  {
    forall k: nat | Alive(Next(s, l, true).value, k) ensures HeldOrLeft(Next(s, l, true).value, k) {
      if l.Spawn? { SpawnIsHeld(s, l.i, k); } else { OtherIsHeld(s, l, k); }
    }
  }

  lemma {:induction false} RunAbandonsNone(s: State, ls: seq<Label>)
    requires NoneAbandoned(s) && Run(s, ls, true).Some?
    ensures NoneAbandoned(Run(s, ls, true).value)
    decreases |ls|
  {
    if ls == [] {
    } else {
      StepAbandonsNone(s, ls[0]);
      RunAbandonsNone(Next(s, ls[0], true).value, ls[1..]);
    }
  }

  /** A service that has returned, and any refused invocation, leaves no server of its
      own alive, whatever happened; a visible one may leave its server running. */
  lemma ServiceLeavesNothing(s: State, i: nat, k: nat)
    requires Reachable(s) && i < |s.invocations| && k < |s.servers| && s.servers[k].spawner == i
    requires s.invocations[i].phase.Refused? || (s.invocations[i].phase.Gone? && !s.invocations[i].use.Visible?)
    ensures s.servers[k].stage.Ended?
  {
    var ls: seq<Label> :| Run(START, ls, true) == Some(s);
    RunAbandonsNone(START, ls);
    assert Alive(s, k) ==> HeldOrLeft(s, k);
  }

  /** A service ends by itself only when the server it spawned is dead, or when the
      session it adopted is seen not to run. */
  lemma ServiceStays(s: State, i: nat)
    requires i < |s.invocations| && s.invocations[i].use.Service? && Next(s, Leave(i), true).Some?
    ensures s.invocations[i].phase.Using?
    ensures match s.invocations[i].phase.own
            case Some(k) => k < |s.servers| ==> s.servers[k].stage.Ended?
            case None => forall k: nat | k < |s.servers| :: !s.servers[k].stage.Ready?
  {}

  // ----- Cleaning up -----

  /** On the way from giving up to the end of its own server. */
  predicate TearingDown(s: State, i: nat, k: nat) {
    && i < |s.invocations| && k < |s.servers|
    && (var p := s.invocations[i].phase;
        p == Stopping(Some(k)) || p == Ordering(Some(k)) || p == Reaping(k) || (p.Gone? && s.servers[k].stage.Ended?))
  }

  lemma StepTearsDown(s: State, l: Label, i: nat, k: nat)
    requires TearingDown(s, i, k) && Next(s, l, true).Some?
    ensures TearingDown(Next(s, l, true).value, i, k)
  {}

  lemma {:induction false} RunTearsDown(s: State, ls: seq<Label>, i: nat, k: nat)
    requires TearingDown(s, i, k) && Run(s, ls, true).Some?
    ensures TearingDown(Run(s, ls, true).value, i, k)
    decreases |ls|
  {
    if ls == [] {
    } else {
      StepTearsDown(s, ls[0], i, k);
      RunTearsDown(Next(s, ls[0], true).value, ls[1..], i, k);
    }
  }

  /** A spawner that gives up, because infrastructure or TUI did not start or the
      service is told to end, does not return before its server is dead. */
  lemma GiveUpTearsDown(s: State, i: nat, k: nat, ls: seq<Label>)
    requires Reachable(s) && i < |s.invocations| && s.invocations[i].phase == Using(Some(k))
    requires Run(s, [GiveUp(i)] + ls, true).Some?
    ensures var t := Run(s, [GiveUp(i)] + ls, true).value;
      i < |t.invocations| && k < |t.servers| && (t.invocations[i].phase.Gone? ==> t.servers[k].stage.Ended?)
  {
    ReachableKeeps(s);
    assert Fits(s, i, s.invocations[i].phase);
    assert ([GiveUp(i)] + ls)[1..] == ls;
    RunTearsDown(Next(s, GiveUp(i), true).value, ls, i, k);
  }

  // ----- Stopping by name -----

  /** An obeyed stop leaves no ready server. */
  lemma ObeyedStopEnds(s: State, i: nat)
    requires Reachable(s) && Next(s, Order(i, true), true).Some?
    ensures forall k: nat | k < |Next(s, Order(i, true), true).value.servers| ::
      !Next(s, Order(i, true), true).value.servers[k].stage.Ready?
  {
    ReachableKeeps(s);
    var t := Next(s, Order(i, true), true).value;
    forall k: nat | k < |t.servers| ensures !t.servers[k].stage.Ready? {
      if s.servers[k].stage.Ready? {
        assert Alive(s, k) && Alive(s, Running(s.servers).value);
      }
    }
  }

  lemma RunCons(s: State, l: Label, ls: seq<Label>)
    requires Next(s, l, true).Some?
    ensures Run(s, [l] + ls, true) == Run(Next(s, l, true).value, ls, true)
  {
    assert ([l] + ls)[1..] == ls;
  }

  /** An explicit stop of a running session, once obeyed, has ended its server and returns. */
  lemma StopCommandStops(s: State, i: nat, k: nat)
    requires i < |s.invocations| && s.invocations[i] == Invocation(StopCommand, Idle) && Running(s.servers) == Some(k)
    ensures var t := Run(s, [Begin(i)] + ([Ask(i)] + ([Order(i, true)] + [])), true);
      && t.Some? && i < |t.value.invocations| && t.value.invocations[i].phase == Gone
      && t.value.servers == s.servers[k := s.servers[k].(stage := Ended(ByName(i)))]
  {
    var s1 := Move(s, i, Stopping(None));
    var s2 := Move(s1, i, Ordering(None));
    assert Next(s, Begin(i), true) == Some(s1);
    assert Next(s1, Ask(i), true) == Some(s2);
    var s3 := End(Move(s2, i, Gone), k, ByName(i));
    assert Next(s2, Order(i, true), true) == Some(s3);
    RunCons(s, Begin(i), [Ask(i)] + ([Order(i, true)] + []));
    RunCons(s1, Ask(i), [Order(i, true)] + []);
    RunCons(s2, Order(i, true), []);
  }
}
