/** What whole commands do to the pair of pointers, and that runs of single steps,
    with refused and failed commands, pruning, recording and garbage collection in
    between, do no more than the commands that completed their activation. */
module RuntimeCommands {
  import opened Text
  import opened FilePath
  import opened RuntimeRuns
  import opened RuntimeLaws

  datatype Command = Activate(target: string) | Rollback

  /** A rollback onto a valid previous runtime; refused when there is none. */
  function RolledBack(p: Pointers): Pointers {
    match ReadPointer(p.previous)
    case Target(t) => Rotated(p, t)
    case _ => p
  }

  function Do(p: Pointers, c: Command): Pointers {
    match c
    case Activate(t) => Rotated(p, t)
    case Rollback => RolledBack(p)
  }

  function Perform(p: Pointers, cs: seq<Command>): Pointers
    decreases |cs|
  {
    if cs == [] then p else Perform(Do(p, cs[0]), cs[1..])
  }

  // ----- The commands of a run -----

  /** A step that completes an activation. */
  function Completed(s: Sys, t: Sys): seq<Command> {
    if s.phase.Active? || !t.phase.Active? then []
    else match t.phase.job
      case Provision(_, built) => [Activate(Clean(built))]
      case Revert => [Rollback]
  }

  function Commands(s: Sys, ls: seq<Label>): seq<Command>
    decreases |ls|
  {
    if ls == [] then []
    else match Next(s, ls[0])
      case None => []
      case Some(t) => Completed(s, t) + Commands(t, ls[1..])
  }

  /** A crash, or a failed rename, between the two renames. */
  predicate Tears(s: Sys, l: Label) {
    l.Abort? && s.phase.Placing? && s.disk.current.Some?
  }

  predicate Whole(s: Sys, ls: seq<Label>)
    decreases |ls|
  {
    if ls == [] then true
    else !Tears(s, ls[0]) && match Next(s, ls[0]) case None => true case Some(t) => Whole(t, ls[1..])
  }

  /** The job under way aims at what its command will install. */
  predicate Aims(p: Pointers, job: Job, target: string) {
    match job
    case Provision(_, built) => target == Clean(built)
    case Revert => ReadPointer(p.previous) == Target(target)
  }

  /** The pair `p` of the last completed command, and the state after it. */
  predicate Since(p: Pointers, s: Sys) {
    var now := PairOf(s.disk);
    match s.phase
    case Ready(job, raw) => now == p && Aims(p, job, Clean(raw))
    case Rotating(job, target, former) =>
      now == p && Aims(p, job, target) && p.current == Some(Link(former)) && IsAbs(former) && former != target
    case Placing(job, target) =>
      && Aims(p, job, target)
      && (if p.current.None? then now == p
          else p.current.value.Link? && p.current.value.target != target && now == Half(p))
    case _ => now == p
  }

  lemma EnterSince(p: Pointers, s: Sys)
    requires Since(p, s) && Next(s, Enter).Some?
    ensures var t := Next(s, Enter).value; Since(Perform(p, Completed(s, t)), t)
  {
    var job, target := s.phase.job, Clean(s.phase.raw);
    assert Next(s, Enter) == EnterStep(s, job, target);
    var t := Next(s, Enter).value;
    if t.phase.Active? {
      PerformOne(p, Completed(s, t)[0]);
      assert Completed(s, t) == [Completed(s, t)[0]];
    }
  }

  lemma PerformOne(p: Pointers, c: Command)
    ensures Perform(p, [c]) == Do(p, c)
  {
    assert [c][1..] == [];
  }

  lemma PromoteSince(p: Pointers, s: Sys)
    requires Since(p, s) && Next(s, Promote).Some?
    ensures var t := Next(s, Promote).value; Since(Perform(p, Completed(s, t)), t)
  {
    var t := Next(s, Promote).value;
    assert Completed(s, t) == [Completed(s, t)[0]];
    PerformOne(p, Completed(s, t)[0]);
    assert PairOf(t.disk) == Rotated(p, s.phase.target);
  }

  lemma BeginRollbackSince(p: Pointers, s: Sys)
    requires Since(p, s) && Safe(s.disk) && Next(s, BeginRollback).Some?
    ensures Since(p, Next(s, BeginRollback).value)
  {
    assert Clean(ReadPointer(s.disk.previous).path) == ReadPointer(s.disk.previous).path;
  }

  lemma RetainSince(p: Pointers, s: Sys)
    requires Since(p, s) && Next(s, Retain).Some?
    ensures Since(p, Next(s, Retain).value)
  {}

  lemma OtherSince(p: Pointers, s: Sys, l: Label)
    requires Since(p, s) && Next(s, l).Some? && !Tears(s, l)
    requires !l.Enter? && !l.Promote? && !l.BeginRollback? && !l.Retain?
    ensures Since(p, Next(s, l).value) && Completed(s, Next(s, l).value) == []
  {}

  lemma StepSince(p: Pointers, s: Sys, l: Label)
    requires Since(p, s) && Safe(s.disk) && Next(s, l).Some? && !Tears(s, l)
    ensures var t := Next(s, l).value; Since(Perform(p, Completed(s, t)), t)
  {
    match l
    case Enter => EnterSince(p, s);
    case Promote => PromoteSince(p, s);
    case BeginRollback => BeginRollbackSince(p, s);
    case Retain => RetainSince(p, s);
    case _ => OtherSince(p, s, l);
  }

  lemma {:induction false} PerformConcat(p: Pointers, a: seq<Command>, b: seq<Command>)
    ensures Perform(p, a + b) == Perform(Perform(p, a), b)
    decreases |a|
  {
    if a == [] {
      assert a + b == b;
    } else {
      assert (a + b)[1..] == a[1..] + b;
      PerformConcat(Do(p, a[0]), a[1..], b);
    }
  }

  lemma {:induction false} RunSince(p: Pointers, s: Sys, ls: seq<Label>)
    requires Since(p, s) && Inv(s) && Whole(s, ls) && Exec(s, ls).Some?
    ensures Since(Perform(p, Commands(s, ls)), Exec(s, ls).value)
    decreases |ls|
  {
    if ls == [] {
    } else {
      var t := Next(s, ls[0]).value;
      StepKeeps(s, ls[0]);
      StepSince(p, s, ls[0]);
      RunSince(Perform(p, Completed(s, t)), t, ls[1..]);
      PerformConcat(p, Completed(s, t), Commands(t, ls[1..]));
    }
  }

  /** The pointers after any run that is not torn between two renames, from rest to
      rest, are those of its completed commands alone. */
  lemma RunsPerform(s: Sys, ls: seq<Label>)
    requires Reachable(s) && s.phase.Idle? && Whole(s, ls) && Exec(s, ls).Some? && Exec(s, ls).value.phase.Idle?
    ensures PairOf(Exec(s, ls).value.disk) == Perform(PairOf(s.disk), Commands(s, ls))
  {
    PointersStaySafe(s);
    RunSince(PairOf(s.disk), s, ls);
  }

  // ----- Current and previous never coincide -----

  predicate Coincide(d: Disk) {
    d.current.Some? && d.current.value.Link? && d.previous == d.current
  }

  ghost predicate Apart(s: Sys) {
    var d := s.disk;
    && (Coincide(d) ==> s.phase.Placing?)
    && (d.previous.Some? && d.previous.value.Link? ==> d.current.Some? && d.current.value.Link?)
    && (match s.phase
        case Rotating(_, target, former) => d.current == Some(Link(former)) && former != target
        case Placing(_, target) =>
          d.current.None? || (d.current.value.Link? && d.current.value.target != target && d.previous == d.current)
        case _ => true)
  }

  lemma StepStaysApart(s: Sys, l: Label)
    requires Apart(s) && Next(s, l).Some? && !Tears(s, l)
    ensures Apart(Next(s, l).value)
  {}

  lemma {:induction false} RunStaysApart(s: Sys, ls: seq<Label>)
    requires Apart(s) && Whole(s, ls) && Exec(s, ls).Some?
    ensures Apart(Exec(s, ls).value)
    decreases |ls|
  {
    if ls == [] {
    } else {
      StepStaysApart(s, ls[0]);
      RunStaysApart(Next(s, ls[0]).value, ls[1..]);
    }
  }

  /** Over any run from a fresh node: after a step that leaves no rename pending,
      current and previous hold the same link exactly when that step tore an
      activation, given that none did before. */
  lemma CoincideIffTorn(s0: Sys, ls: seq<Label>, l: Label)
    requires Fresh(s0) && Whole(s0, ls) && Exec(s0, ls).Some?
    requires Next(Exec(s0, ls).value, l).Some? && !Next(Exec(s0, ls).value, l).value.phase.Placing?
    ensures Coincide(Next(Exec(s0, ls).value, l).value.disk) <==> Tears(Exec(s0, ls).value, l)
  {
    var s := Exec(s0, ls).value;
    RunStaysApart(s0, ls);
    if !Tears(s, l) {
      StepStaysApart(s, l);
    }
  }

  // ----- Rollbacks -----

  /** Both names hold absolute links, or are free; previous only beside a
      different current. */
  predicate Proper(p: Pointers) {
    && (p.current.Some? ==> p.current.value.Link? && IsAbs(p.current.value.target))
    && (p.previous.Some? ==> p.previous.value.Link? && IsAbs(p.previous.value.target))
    && (p.previous.Some? ==> p.current.Some? && p.current != p.previous)
  }

  /** A rollback conserves the pair as a set, and undoes itself. */
  lemma RollbackUndone(p: Pointers)
    requires Proper(p)
    ensures RolledBack(RolledBack(p)) == p && Proper(RolledBack(p))
    ensures p.previous.Some? ==> RolledBack(p) == Pointers(p.previous, p.current)
  {}

  predicate AllRollbacks(cs: seq<Command>) {
    forall k | 0 <= k < |cs| :: cs[k].Rollback?
  }

  /** A pair left by a crash between the renames is a fixed point. */
  lemma {:induction false} RollbackParity(p: Pointers, cs: seq<Command>)
    requires Proper(p) || (p.current == p.previous && ReadPointer(p.previous).Target?)
    requires AllRollbacks(cs)
    ensures Perform(p, cs) == if |cs| % 2 == 0 then p else RolledBack(p)
    ensures p.current == p.previous ==> Perform(p, cs) == p
    decreases |cs|
  {
    if cs == [] {
    } else {
      if Proper(p) { RollbackUndone(p); }
      RollbackParity(RolledBack(p), cs[1..]);
    }
  }

  /** Over any run that is not torn and whose completed commands are all rollbacks,
      however many others were refused or failed: the pair is the one at the start
      or its swap, by the parity of their number. */
  lemma RunsOfRollbacks(s: Sys, ls: seq<Label>)
    requires Reachable(s) && s.phase.Idle? && Whole(s, ls) && Exec(s, ls).Some? && Exec(s, ls).value.phase.Idle?
    requires AllRollbacks(Commands(s, ls)) && Proper(PairOf(s.disk))
    ensures PairOf(Exec(s, ls).value.disk)
      == if |Commands(s, ls)| % 2 == 0 then PairOf(s.disk) else RolledBack(PairOf(s.disk))
  {
    RunsPerform(s, ls);
    RollbackParity(PairOf(s.disk), Commands(s, ls));
  }
}
