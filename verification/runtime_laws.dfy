/** What the runtime store promises over whole runs: provenance, convergence,
    pruning, pointer rotation and rollback. */
module RuntimeLaws {
  import opened Text
  import opened FilePath
  import opened RuntimeRuns
  import opened RuntimeSteps

  // ----- Provenance -----

  /** Whenever an apply of `i` is skipped, the runtime in use is valid, retained
      if it is a store output, and an output that a build of `i` produced and
      that passed validation, smoke and activation. */
  lemma SkipIsSound(s: Sys, i: string)
    requires Reachable(s) && Satisfied(s.disk, i).Some?
    ensures var t := Satisfied(s.disk, i).value;
      && s.disk.current == Some(Link(t)) && Valid(s.disk, t) && Earned(s, i, t)
      && (IsStorePath(t) ==> Rooted(s.disk, t))
  {
    PointersStaySafe(s);
  }

  lemma ActiveIsEarned(s: Sys, i: string, t: string)
    requires Reachable(s) && s.phase == Active(Provision(i, t))
    ensures (Activated, i, t) in s.trail
  {
    PointersStaySafe(s);
  }

  /** Every build in the run answers as the function `build` does. */
  ghost predicate BuildsBy(s: Sys, ls: seq<Label>, build: string -> string)
    decreases |ls|
  {
    ls == [] || (
      && (ls[0].Build? && s.phase.Building? ==> ls[0].output == build(s.phase.installable))
      && (Next(s, ls[0]).Some? ==> BuildsBy(Next(s, ls[0]).value, ls[1..], build)))
  }

  lemma {:induction false} TrailFollowsBuild(s: Sys, ls: seq<Label>, build: string -> string)
    requires BuildsBy(s, ls, build) && Exec(s, ls).Some?
    requires forall i, t | (Built, i, t) in s.trail :: t == build(i)
    ensures forall i, t | (Built, i, t) in Exec(s, ls).value.trail :: t == build(i)
    decreases |ls|
  {
    if ls == [] {
    } else {
      TrailFollowsBuild(Next(s, ls[0]).value, ls[1..], build);
    }
  }

  /** With reproducible builds, a skip names the target the full path would build. */
  lemma SkipAgreesWithBuild(s0: Sys, ls: seq<Label>, i: string, build: string -> string)
    requires Fresh(s0) && BuildsBy(s0, ls, build) && Exec(s0, ls).Some?
    ensures var skip := Satisfied(Exec(s0, ls).value.disk, i);
      skip.Some? ==> skip.value == build(i)
  {
    var s := Exec(s0, ls).value;
    TrailFollowsBuild(s0, ls, build);
    RunKeeps(s0, ls);
  }

  // ----- Convergence -----

  predicate AllOutside(ls: seq<Label>) {
    forall k | 0 <= k < |ls| :: ls[k].Outside?
  }

  lemma {:induction false} OutsideChangesUsableOnly(s: Sys, ls: seq<Label>)
    requires AllOutside(ls) && Exec(s, ls).Some?
    ensures var d := Exec(s, ls).value.disk; Exec(s, ls).value == s.(disk := s.disk.(usable := d.usable, starts := d.starts))
    decreases |ls|
  {
    if ls == [] {
    } else {
      OutsideChangesUsableOnly(Next(s, ls[0]).value, ls[1..]);
    }
  }

  /** The record step leaves the job's own output current and recorded. */
  lemma RecordedIsCurrent(s: Sys)
    requires Reachable(s) && s.phase.Recording?
    ensures Next(s, Record).Some? && Reachable(Next(s, Record).value)
    ensures var d := Next(s, Record).value.disk;
      d.current == Some(Link(Clean(s.phase.built))) && d.applied == Some(Applied(s.phase.installable, s.phase.built))
  {
    PointersStaySafe(s);
    ReachNext(s, Record);
  }

  /** When an installable whose output is current and recorded is satisfied. */
  lemma RecordedIsSatisfied(d: Disk, i: string, t: string)
    requires d.current == Some(Link(Clean(t))) && d.applied == Some(Applied(i, t))
    ensures Satisfied(d, i).Some? <==> i != "" && t == Clean(t) && Valid(d, t)
    ensures Satisfied(d, i).Some? ==> Satisfied(d, i) == Some(t)
  {}

  lemma CurrentIsValid(s: Sys, t: string)
    requires Inv(s) && s.disk.current == Some(Link(Clean(t))) && IsStorePath(t) && t == Clean(t)
    ensures Valid(s.disk, t)
  {}

  /** Whatever came before, an apply that completes leaves its own build output
      current and recorded. A later apply of the same installable, whatever the
      outside did meanwhile, is skipped exactly when the installable is not
      empty, the build output was spelled in clean form and it is still valid;
      for a clean store output validity is not in question. */
  lemma CompletedApplySticks(s: Sys, between: seq<Label>)
    requires Reachable(s) && s.phase.Recording? && AllOutside(between)
    requires Exec(s, [Record] + between).Some?
    ensures var i, t, d := s.phase.installable, s.phase.built, Exec(s, [Record] + between).value.disk;
      && d.current == Some(Link(Clean(t))) && d.applied == Some(Applied(i, t))
      && (Satisfied(d, i).Some? <==> i != "" && t == Clean(t) && Valid(d, t))
      && (Satisfied(d, i).Some? ==> Satisfied(d, i) == Some(t))
      && (IsStorePath(t) && t == Clean(t) ==> Valid(d, t))
  {
    var i, t, s1 := s.phase.installable, s.phase.built, Next(s, Record).value;
    RecordedIsCurrent(s);
    ExecCons(s, Record, between);
    OutsideTail(s1, between);
    var s2 := Exec(s1, between).value;
    RecordedIsSatisfied(s2.disk, i, t);
    if IsStorePath(t) && t == Clean(t) {
      CurrentIsValid(s2, t);
    }
  }

  lemma OutsideTail(s: Sys, between: seq<Label>)
    requires Reachable(s) && AllOutside(between) && Exec(s, between).Some?
    ensures var s' := Exec(s, between).value;
      Inv(s') && s'.disk.current == s.disk.current && s'.disk.applied == s.disk.applied
  {
    PointersStaySafe(s);
    RunKeeps(s, between);
    OutsideChangesUsableOnly(s, between);
  }

  lemma ExecCons(s: Sys, l: Label, ls: seq<Label>)
    requires Next(s, l).Some?
    ensures Exec(s, [l] + ls) == Exec(Next(s, l).value, ls)
  {
    assert ([l] + ls)[1..] == ls;
  }

  // ----- GC roots -----

  /** Root b points at the store output b. */
  ghost predicate Named(roots: map<string, Entry>) {
    forall b | b in roots :: roots[b] == Link(STORE + "/" + b)
  }

  lemma RetainStaysNamed(s: Sys, i: string, t: string)
    requires Named(s.disk.roots) && RetainStep(s, i, t).Some?
    ensures Named(RetainStep(s, i, t).value.disk.roots)
  {
    if IsStorePath(t) {
      StorePathShape(t);
    }
  }

  lemma StepStaysNamed(s: Sys, l: Label)
    requires Named(s.disk.roots) && Next(s, l).Some?
    ensures Named(Next(s, l).value.disk.roots)
  {
    if l.Retain? {
      RetainStaysNamed(s, s.phase.installable, s.phase.built);
    } else if !l.PruneOne? {
      assert Next(s, l).value.disk.roots == s.disk.roots;
    }
  }

  lemma {:induction false} RootsStayNamed(s: Sys, ls: seq<Label>)
    requires Named(s.disk.roots) && Exec(s, ls).Some?
    ensures Named(Exec(s, ls).value.disk.roots)
    decreases |ls|
  {
    if ls == [] {
    } else {
      StepStaysNamed(s, ls[0]);
      RootsStayNamed(Next(s, ls[0]).value, ls[1..]);
    }
  }

  /** From named roots the "unexpected target" refusal never happens: a store
      output can always be retained, and afterwards its root is in place. */
  lemma RetainNeverRefused(s0: Sys, ls: seq<Label>, i: string, t: string)
    requires Named(s0.disk.roots) && Exec(s0, ls).Some?
    requires Exec(s0, ls).value.phase == Retaining(i, t)
    ensures RetainStep(Exec(s0, ls).value, i, t).Some?
    ensures IsStorePath(t) ==> Rooted(RetainStep(Exec(s0, ls).value, i, t).value.disk, Clean(t))
  {
    RootsStayNamed(s0, ls);
    if IsStorePath(t) {
      StorePathShape(t);
    }
  }

  predicate PruneOnly(ls: seq<Label>) {
    forall k | 0 <= k < |ls| :: ls[k].PruneOne? || ls[k].Outside?
  }

  /** From `s` the pruning loop has gone on to `t`: the first names are visited,
      exactly the visited roots whose target is not kept are gone, and nothing else
      of the store has changed. */
  ghost predicate PrunedTo(s: Sys, t: Sys) {
    && s.phase.Pruning? && t.phase.Pruning? && |t.phase.names| <= |s.phase.names|
    && (var k := |s.phase.names| - |t.phase.names|;
        && t.phase == s.phase.(names := s.phase.names[k..])
        && t.disk == s.disk.(roots := t.disk.roots, usable := t.disk.usable, starts := t.disk.starts)
        && t.disk.roots.Keys == set b | b in s.disk.roots && (b in s.phase.names[..k] ==> Stays(s, b)))
    && (forall b | b in t.disk.roots :: t.disk.roots[b] == s.disk.roots[b])
  }

  predicate Stays(s: Sys, b: string)
    requires s.phase.Pruning? && b in s.disk.roots
  {
    s.disk.roots[b].Link? && s.disk.roots[b].target in s.phase.keep
  }

  lemma PrunedOne(s: Sys)
    requires s.phase.Pruning? && Next(s, PruneOne).Some?
    ensures PrunedTo(s, Next(s, PruneOne).value)
  {
    var t := Next(s, PruneOne).value;
    assert s.phase.names[..1] == [s.phase.names[0]];
    assert |s.phase.names| - |t.phase.names| == 1;
  }

  lemma PrunedMeanwhile(s: Sys, l: Label)
    requires s.phase.Pruning? && l.Outside? && Next(s, l).Some?
    ensures PrunedTo(s, Next(s, l).value)
  {}

  lemma PrunedOn(s: Sys, m: Sys, t: Sys)
    requires PrunedTo(s, m) && PrunedTo(m, t)
    ensures PrunedTo(s, t)
  {
    var names := s.phase.names;
    var j, k := |names| - |m.phase.names|, |names| - |t.phase.names|;
    assert names[..k] == names[..j] + m.phase.names[..k - j];
    assert names[k..] == m.phase.names[k - j..];
    forall b | b in m.disk.roots ensures Stays(m, b) == Stays(s, b) {
      assert m.disk.roots[b] == s.disk.roots[b];
    }
  }

  /** Wherever the pruning loop is cut, whatever the outside does meanwhile. */
  lemma {:induction false} PruneCutAnywhere(s: Sys, ls: seq<Label>)
    requires s.phase.Pruning? && PruneOnly(ls) && Exec(s, ls).Some?
    ensures PrunedTo(s, Exec(s, ls).value)
    decreases |ls|
  {
    if ls == [] {
    } else {
      var m := Next(s, ls[0]).value;
      if ls[0].PruneOne? { PrunedOne(s); } else { PrunedMeanwhile(s, ls[0]); }
      PruneCutAnywhere(m, ls[1..]);
      PrunedOn(s, m, Exec(s, ls).value);
    }
  }

  /** A finished prune keeps exactly the old roots of current and previous. */
  lemma PruneIsExact(s: Sys, order: seq<string>, ls: seq<Label>)
    requires Next(s, StartPrune(order)).Some? && PruneOnly(ls)
    requires Exec(s, [StartPrune(order)] + ls).Some?
    requires Next(Exec(s, [StartPrune(order)] + ls).value, EndPrune).Some?
    ensures var roots', keep := Exec(s, [StartPrune(order)] + ls).value.disk.roots, Kept(s.disk);
      roots' == map b | b in s.disk.roots && s.disk.roots[b].Link? && s.disk.roots[b].target in keep :: s.disk.roots[b]
  {
    var all := [StartPrune(order)] + ls;
    assert all[0] == StartPrune(order) && all[1..] == ls;
    var s1 := Next(s, StartPrune(order)).value;
    PruneCutAnywhere(s1, ls);
    var roots' := Exec(s1, ls).value.disk.roots;
    assert Exec(s1, ls).value.phase.names == [];
    forall b ensures b in roots' <==> b in s.disk.roots && s.disk.roots[b].Link? && s.disk.roots[b].target in Kept(s.disk) {
      assert order[..|order| - 0] == order;
    }
  }

  lemma SubsetSize(a: set<string>, b: set<string>)
    requires a <= b
    ensures |a| <= |b|
  {
    assert b == a + (b - a);
  }

  /** The root name that goes with a store output. */
  function RootName(target: string): string {
    if |target| > |STORE| then target[|STORE| + 1..] else ""
  }

  lemma RootNameOf(b: string)
    ensures RootName(STORE + "/" + b) == b
  {}

  function PathOf(e: Option<Entry>): string {
    match ReadPointer(e) case Target(t) => t case _ => ""
  }

  /** Named roots whose targets are all kept number at most two. */
  lemma AtMostTwoRoots(d: Disk)
    requires Named(d.roots)
    requires forall b | b in d.roots :: d.roots[b].target in Kept(d)
    ensures |d.roots| <= 2
  {
    var x, y := PathOf(d.current), PathOf(d.previous);
    var two := {RootName(x), RootName(y)};
    forall b | b in d.roots ensures b in two {
      RootNameOf(b);
      assert d.roots[b].target == x || d.roots[b].target == y;
    }
    SubsetSize(d.roots.Keys, two);
    assert |two| <= 2;
  }

  // ----- Pointer rotation -----

  datatype Pointers = Pointers(current: Option<Entry>, previous: Option<Entry>)

  function PairOf(d: Disk): Pointers {
    Pointers(d.current, d.previous)
  }

  /** A complete activation of `target`. */
  function Rotated(p: Pointers, target: string): Pointers {
    if p.current == Some(Link(target)) then p
    else if p.current.None? then p.(current := Some(Link(target)))
    else Pointers(Some(Link(target)), p.current)
  }

  /** Between the two renames. */
  function Half(p: Pointers): Pointers {
    Pointers(p.current, p.current)
  }

  predicate ActivationOnly(ls: seq<Label>) {
    forall k | 0 <= k < |ls| :: ActivationStep(ls[k])
  }

  /** Where an activation of `target` that began with the pair `p` can stand. */
  ghost predicate Midway(p: Pointers, target: string, s: Sys) {
    var now := PairOf(s.disk);
    match s.phase
    case Ready(_, raw) => now == p && Clean(raw) == target
    case Rotating(_, t, former) => now == p && t == target && now.current == Some(Link(former)) && IsAbs(former) && former != target
    case Placing(_, t) =>
      && t == target
      && (if p.current.None? then now == p
          else Tearable(p, target) && now == Half(p))
    case Active(_) => now == Rotated(p, target)
    case Idle => now == p || now == Rotated(p, target) || (Tearable(p, target) && now == Half(p))
    case _ => false
  }

  /** The first rename happens: another absolute target is current, and nothing
      but a symlink is in the way of previous. */
  predicate Tearable(p: Pointers, target: string) {
    && p.current.Some? && p.current.value.Link? && IsAbs(p.current.value.target)
    && p.current.value.target != target
    && p.previous != Some(Other)
  }

  predicate ActivationStep(l: Label) {
    l.Enter? || l.Demote? || l.Promote? || l.Outside? || l.Abort?
  }

  lemma EnterStaysMidway(p: Pointers, target: string, s: Sys)
    requires Midway(p, target, s) && Next(s, Enter).Some?
    ensures Midway(p, target, Next(s, Enter).value)
  {
    assert s.phase.Ready? && Clean(s.phase.raw) == target;
    assert Next(s, Enter) == EnterStep(s, s.phase.job, target);
  }

  lemma StepStaysMidway(p: Pointers, target: string, s: Sys, l: Label)
    requires Midway(p, target, s) && ActivationStep(l) && Next(s, l).Some?
    ensures Midway(p, target, Next(s, l).value)
  {
    if l.Enter? {
      EnterStaysMidway(p, target, s);
    }
  }

  lemma {:induction false} MidwayStays(p: Pointers, target: string, s: Sys, ls: seq<Label>)
    requires Midway(p, target, s) && ActivationOnly(ls) && Exec(s, ls).Some?
    ensures Midway(p, target, Exec(s, ls).value)
    decreases |ls|
  {
    if ls == [] {
    } else {
      StepStaysMidway(p, target, s, ls[0]);
      MidwayStays(p, target, Next(s, ls[0]).value, ls[1..]);
    }
  }

  /** Cut anywhere, an activation leaves one of three pairs: untouched, current
      copied to previous, or complete. */
  lemma ActivationCut(s: Sys, ls: seq<Label>)
    requires s.phase.Ready? && ActivationOnly(ls) && Exec(s, ls).Some?
    ensures var p, t, now := PairOf(s.disk), Clean(s.phase.raw), PairOf(Exec(s, ls).value.disk);
      now == p || now == Half(p) || now == Rotated(p, t)
  {
    MidwayStays(PairOf(s.disk), Clean(s.phase.raw), s, ls);
  }

  ghost predicate SeenTorn(s: Sys, ls: seq<Label>)
    requires s.phase.Ready?
  {
    && ActivationOnly(ls) && Exec(s, ls).Some?
    && PairOf(Exec(s, ls).value.disk) != PairOf(s.disk)
    && PairOf(Exec(s, ls).value.disk) != Rotated(PairOf(s.disk), Clean(s.phase.raw))
  }

  ghost predicate CanTear(s: Sys)
    requires s.phase.Ready?
  {
    var p, t := PairOf(s.disk), Clean(s.phase.raw);
    Tearable(p, t) && p.previous != p.current && IsAbs(t) && SafeText(t)
  }

  lemma TornOnlyIf(s: Sys, ls: seq<Label>)
    requires s.phase.Ready? && SeenTorn(s, ls)
    ensures CanTear(s)
  {
    var p, t := PairOf(s.disk), Clean(s.phase.raw);
    MidwayStays(p, t, s, ls);
    if !(IsAbs(t) && SafeText(t)) {
      UnacceptableNeverMoves(p, s, ls);
    }
  }

  lemma HalfIsTorn(p: Pointers, t: string)
    requires Tearable(p, t) && p.previous != p.current
    ensures Half(p) != p && Half(p) != Rotated(p, t)
  {}

  /** The target exists, validation passes, the first rename happens. */
  function Tearing(s: Sys): seq<Label>
    requires s.phase.Ready?
  {
    [Outside(s.disk.usable + {Clean(s.phase.raw)}, s.disk.starts), Enter, Demote]
  }

  /** The target has been built. */
  function WithTarget(s: Sys, target: string): Sys {
    s.(disk := s.disk.(usable := s.disk.usable + {target}))
  }

  lemma OutsideAllows(s: Sys, target: string)
    ensures Next(s, Outside(s.disk.usable + {target}, s.disk.starts)) == Some(WithTarget(s, target))
  {}

  lemma EnterRotates(s: Sys, job: Job, target: string, former: string)
    requires s.phase.Ready? && s.phase.job == job && Clean(s.phase.raw) == target
    requires Valid(s.disk, target) && ReadPointer(s.disk.current) == Target(former) && former != target
    ensures Next(s, Enter) == Some(s.(phase := Rotating(job, target, former)))
  {
    assert Next(s, Enter) == EnterStep(s, job, target);
  }

  lemma DemoteCopies(s: Sys, job: Job, target: string, former: string)
    requires s.phase == Rotating(job, target, former) && s.disk.previous != Some(Other) && s.disk.current == Some(Link(former))
    ensures Next(s, Demote).Some? && PairOf(Next(s, Demote).value.disk) == Half(PairOf(s.disk))
  {}

  lemma TearingRuns(s: Sys)
    requires s.phase.Ready? && CanTear(s)
    ensures Exec(s, Tearing(s)).Some? && PairOf(Exec(s, Tearing(s)).value.disk) == Half(PairOf(s.disk))
  {
    var job, target, former := s.phase.job, Clean(s.phase.raw), s.disk.current.value.target;
    var s1 := WithTarget(s, target);
    var s2 := s1.(phase := Rotating(job, target, former));
    OutsideAllows(s, target);
    EnterRotates(s1, job, target, former);
    DemoteCopies(s2, job, target, former);
    ExecThree(s, Outside(s.disk.usable + {target}, s.disk.starts), Enter, Demote, s1, s2);
  }

  lemma TornWhen(s: Sys)
    requires s.phase.Ready? && CanTear(s)
    ensures SeenTorn(s, Tearing(s))
  {
    TearingRuns(s);
    HalfIsTorn(PairOf(s.disk), Clean(s.phase.raw));
    assert ActivationOnly(Tearing(s));
  }

  /** The comment on Activate promises that a crash leaves both pointers either
      untouched or fully updated. A crash can be seen in between exactly when an
      absolute path other than the target is current, previous does not already
      equal it, previous is not blocked, and the target's text is acceptable. */
  lemma TornIff(s: Sys)
    requires s.phase.Ready?
    ensures (exists ls :: SeenTorn(s, ls)) <==> CanTear(s)
  {
    if ls :| SeenTorn(s, ls) {
      TornOnlyIf(s, ls);
    }
    if CanTear(s) {
      TornWhen(s);
    }
  }

  lemma ExecThree(s: Sys, a: Label, b: Label, c: Label, s1: Sys, s2: Sys)
    requires Next(s, a) == Some(s1) && Next(s1, b) == Some(s2) && Next(s2, c).Some?
    ensures Exec(s, [a, b, c]) == Next(s2, c)
  {
    ExecCons(s2, c, []);
    ExecCons(s1, b, [c]);
    ExecCons(s, a, [b, c]);
    assert [b] + [c] == [b, c] && [a] + [b, c] == [a, b, c] && [c] + [] == [c];
  }

  lemma {:induction false} UnacceptableNeverMoves(p: Pointers, s: Sys, ls: seq<Label>)
    requires ActivationOnly(ls) && Exec(s, ls).Some? && PairOf(s.disk) == p
    requires s.phase.Idle? || (s.phase.Ready? && !(IsAbs(Clean(s.phase.raw)) && SafeText(Clean(s.phase.raw))))
    ensures PairOf(Exec(s, ls).value.disk) == p
    decreases |ls|
  {
    if ls == [] {
    } else {
      UnacceptableNeverMoves(p, Next(s, ls[0]).value, ls[1..]);
    }
  }

  /** A node that is ready to activate an output of its own, `t`, built from `t`. */
  lemma Provisioned(s: Sys, t: string) returns (ready: Sys)
    requires Reachable(s) && s.phase.Idle? && s.disk.applied.None?
    requires Valid(s.disk, t) && t in s.disk.starts && Clean(t) == t && !IsStorePath(t)
    ensures Reachable(ready) && ready.phase == Ready(Provision(t, t), t) && ready.disk == s.disk
  {
    ready := s.(phase := Building(t));
    Begins(s, t);
    ReachSteps(s, ready);
    var built := ready.(phase := Vetting(t, t), trail := ready.trail + {(Built, t, t)});
    Builds(ready, t, t);
    ReachSteps(ready, built);
    ready := built.(phase := Smoking(t, t), trail := built.trail + {(Checked, t, t)});
    Vets(built, t, t);
    ReachSteps(built, ready);
    var smoked := ready.(phase := Retaining(t, t), trail := ready.trail + {(Smoked, t, t)});
    Smokes(ready, t, t);
    ReachSteps(ready, smoked);
    ready := smoked.(phase := Ready(Provision(t, t), t));
    NeedsNoRoot(smoked, t, t);
    ReachSteps(smoked, ready);
  }

  /** The first activation of a node, cut before its record. */
  lemma FirstActivated(s: Sys, job: Job, t: string) returns (done: Sys)
    requires Reachable(s) && s.phase == Ready(job, t) && Clean(t) == t && Valid(s.disk, t)
    requires s.disk.current.None?
    ensures Reachable(done) && done.phase.Idle? && done.disk == s.disk.(current := Some(Link(t)))
  {
    var placing := s.(phase := Placing(job, t));
    Enters(s, job, t);
    ReachSteps(s, placing);
    var active := placing.(disk := placing.disk.(current := Some(Link(t))), phase := Active(job), trail := placing.trail + JobTrail(job));
    Promotes(placing, job, t);
    ReachSteps(placing, active);
    done := active.(phase := Idle);
    Aborts(active);
    ReachSteps(active, done);
  }

  /** A directory that may be activated as it is. */
  ghost predicate Plain(t: string) {
    IsAbs(t) && SafeText(t) && Clean(t) == t && !IsStorePath(t)
  }

  /** The failing state arises from any two such directories, of which a node runs
      one and has built the other. */
  lemma TearFrom(x: string, y: string) returns (s: Sys)
    requires Plain(x) && Plain(y) && x != y
    ensures Reachable(s) && s.phase.Ready? && CanTear(s)
  {
    s := Sys(Disk(None, None, map[], None, {x, y}, {x, y}), Idle, {});
    assert Fresh(s) && Exec(s, []) == Some(s);
    s := Provisioned(s, x);
    s := FirstActivated(s, s.phase.job, x);
    s := Provisioned(s, y);
  }

  lemma SomeArePlain(c: string)
    requires |c| == 1 && c != "." && c != "/" && SafeText(c)
    ensures Plain("/" + c)
  {
    DirOfRooted([], c);
    CleanRooted([c]);
    assert [] + [c] == [c] && Join([c], '/') == c;
  }

  /** So it arises: a crash can be seen in the middle of an activation. */
  lemma TearArises() returns (s: Sys)
    ensures Reachable(s) && s.phase.Ready? && CanTear(s)
  {
    SomeArePlain("a");
    SomeArePlain("b");
    assert ("/" + "a")[1] != ("/" + "b")[1];
    s := TearFrom("/" + "a", "/" + "b");
  }
}
