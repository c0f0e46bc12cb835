/** The runtime store as a system of single file-system steps. A run is any
    interleaving of apply, true-up and rollback, cut by a crash after any step,
    with garbage collection and outside changes in between. One client process
    works on the store at a time. */
module RuntimeRuns {
  import opened Text
  import opened FilePath

  /** What a name in the state directory holds: a symlink or something else. */
  datatype Entry = Link(target: string) | Other

  datatype Applied = Applied(installable: string, target: string)

  /** `usable` holds every spelling under which stat finds a directory with an
      executable bin/pi, `starts` those whose bin/pi runs when asked for its version;
      `applied` is None when the record is missing or unreadable. */
  datatype Disk = Disk(current: Option<Entry>, previous: Option<Entry>,
                       roots: map<string, Entry>, applied: Option<Applied>, usable: set<string>, starts: set<string>)

  datatype Read = NoRuntime | Target(path: string) | Broken

  function ReadPointer(e: Option<Entry>): Read {
    match e
    case None => NoRuntime
    case Some(Other) => Broken
    case Some(Link(t)) => if IsAbs(t) then Target(t) else Broken
  }

  const UNSAFE := ":\r\n'\"$`\\"

  predicate SafeText(target: string) {
    forall c | c in UNSAFE :: c !in target
  }

  predicate Valid(d: Disk, target: string) {
    IsAbs(target) && SafeText(target) && target in d.usable
  }

  predicate Rooted(d: Disk, target: string) {
    Base(target) in d.roots && d.roots[Base(target)] == Link(target)
  }

  /** The runtime that makes a repeated apply of `installable` unnecessary. */
  function Satisfied(d: Disk, installable: string): Option<string> {
    match d.applied
    case None => None
    case Some(Applied(i, t)) =>
      if i == "" || t == "" || i != installable || ReadPointer(d.current) != Target(t) || !Valid(d, t)
      then None
      else Some(t)
  }

  /** Targets that pruning must not touch. */
  function Kept(d: Disk): set<string> {
    (match ReadPointer(d.current) case Target(t) => {t} case _ => {}) +
    (match ReadPointer(d.previous) case Target(t) => {t} case _ => {})
  }

  /** What happens after an activation: provenance is recorded, or nothing is. */
  datatype Job = Provision(installable: string, built: string) | Revert

  datatype Phase =
    | Idle
    | Building(installable: string)
    | Vetting(installable: string, built: string)
    | Smoking(installable: string, built: string)
    | Retaining(installable: string, built: string)
    | Ready(job: Job, raw: string)
    | Rotating(job: Job, target: string, former: string)
    | Placing(job: Job, target: string)
    | Active(job: Job)
    | Pruning(job: Job, keep: set<string>, names: seq<string>)
    | Recording(installable: string, built: string)

  datatype Milestone = Built | Checked | Smoked | Activated

  /** The disk, the position of the running command, and the history of what
      each (installable, build output) pair has been through. */
  datatype Sys = Sys(disk: Disk, phase: Phase, trail: set<(Milestone, string, string)>)

  datatype Label =
    | Begin(installable: string)     // apply or true-up that is not already satisfied
    | Build(output: string)
    | Vet
    | Smoke
    | Retain
    | BeginRollback
    | Enter                          // Activate: validate, read current
    | Demote                         // rename onto previous
    | Promote                        // rename onto current
    | StartPrune(order: seq<string>)
    | PruneOne
    | EndPrune
    | Record                         // rename onto the record
    | Abort                          // crash, or any error return
    | Outside(usable: set<string>, starts: set<string>)   // garbage collection, operators, builders

  /** A collector honours roots: a rooted store output that exists stays. */
  predicate Honours(d: Disk, usable: set<string>) {
    forall t | t in d.usable :: IsStorePath(t) && Clean(t) == t && Rooted(d, t) ==> t in usable
  }

  predicate Lists(names: seq<string>, roots: map<string, Entry>) {
    && (forall b | b in roots :: b in names)
    && (forall i | 0 <= i < |names| :: names[i] in roots)
    && (forall i, j | 0 <= i < j < |names| :: names[i] != names[j])
  }

  predicate BuildAllowed(installable: string, output: string) {
    if IsAbs(installable) then output == Clean(installable)
    else forall c | c in " \t\r\n" :: c !in installable
  }

  function JobTrail(job: Job): set<(Milestone, string, string)> {
    match job
    case Provision(i, t) => {(Activated, i, t)}
    case Revert => {}
  }

  /** One step; None when the label is not possible in this state. */
  function Next(s: Sys, l: Label): Option<Sys> {
    var d := s.disk;
    match l
    case Abort => Some(s.(phase := Idle))
    case Outside(u, starts) => if Honours(d, u) then Some(s.(disk := d.(usable := u, starts := starts))) else None
    case Begin(i) => if s.phase.Idle? && Satisfied(d, i).None? then Some(s.(phase := Building(i))) else None
    case Build(t) =>
      if s.phase.Building? && BuildAllowed(s.phase.installable, t)
      then Some(s.(phase := Vetting(s.phase.installable, t), trail := s.trail + {(Built, s.phase.installable, t)}))
      else None
    case Vet =>
      if s.phase.Vetting? && Valid(d, s.phase.built)
      then Some(s.(phase := Smoking(s.phase.installable, s.phase.built),
                   trail := s.trail + {(Checked, s.phase.installable, s.phase.built)}))
      else None
    case Smoke =>
      if s.phase.Smoking? && s.phase.built in d.starts
      then Some(s.(phase := Retaining(s.phase.installable, s.phase.built),
                   trail := s.trail + {(Smoked, s.phase.installable, s.phase.built)}))
      else None
    case Retain => if s.phase.Retaining? then RetainStep(s, s.phase.installable, s.phase.built) else None
    case BeginRollback =>
      if s.phase.Idle? && ReadPointer(d.previous).Target? && Valid(d, ReadPointer(d.previous).path)
      then Some(s.(phase := Ready(Revert, ReadPointer(d.previous).path)))
      else None
    case Enter => if s.phase.Ready? then EnterStep(s, s.phase.job, Clean(s.phase.raw)) else None
    case Demote =>
      if s.phase.Rotating? && d.previous != Some(Other)
      then Some(s.(disk := d.(previous := Some(Link(s.phase.former))), phase := Placing(s.phase.job, s.phase.target)))
      else None
    case Promote =>
      if s.phase.Placing? && d.current != Some(Other)
      then Some(s.(disk := d.(current := Some(Link(s.phase.target))), phase := Active(s.phase.job),
                   trail := s.trail + JobTrail(s.phase.job)))
      else None
    case StartPrune(names) =>
      if s.phase.Active? && !ReadPointer(d.current).Broken? && !ReadPointer(d.previous).Broken? && Lists(names, d.roots)
      then Some(s.(phase := Pruning(s.phase.job, Kept(d), names)))
      else None
    case PruneOne => if s.phase.Pruning? && s.phase.names != [] then PruneStep(s, s.phase.names[0]) else None
    case EndPrune =>
      if s.phase.Pruning? && s.phase.names == []
      then match s.phase.job
        case Provision(i, t) => Some(s.(phase := Recording(i, t)))
        case Revert => Some(s.(phase := Idle))
      else None
    case Record =>
      if s.phase.Recording?
      then Some(s.(disk := d.(applied := Some(Applied(s.phase.installable, s.phase.built))), phase := Idle))
      else None
  }

  function RetainStep(s: Sys, i: string, t: string): Option<Sys> {
    var d, c := s.disk, Clean(t);
    var next := s.(phase := Ready(Provision(i, t), t));
    if !IsStorePath(t) || Rooted(d, c) then Some(next)
    else if Base(c) in d.roots then None
    else Some(next.(disk := d.(roots := d.roots[Base(c) := Link(c)])))
  }

  function EnterStep(s: Sys, job: Job, target: string): Option<Sys> {
    if !Valid(s.disk, target) then None
    else match ReadPointer(s.disk.current)
      case Broken => None
      case NoRuntime => Some(s.(phase := Placing(job, target)))
      case Target(former) =>
        if former == target then Some(s.(phase := Active(job), trail := s.trail + JobTrail(job)))
        else Some(s.(phase := Rotating(job, target, former)))
  }

  function PruneStep(s: Sys, name: string): Option<Sys>
    requires s.phase.Pruning? && s.phase.names != []
  {
    var d := s.disk;
    if name !in d.roots || d.roots[name].Other? then None
    else
      var next := s.(phase := s.phase.(names := s.phase.names[1..]));
      if d.roots[name].target in s.phase.keep then Some(next)
      else Some(next.(disk := d.(roots := d.roots - {name})))
  }

  function Exec(s: Sys, ls: seq<Label>): Option<Sys>
    decreases |ls|
  {
    if ls == [] then Some(s)
    else match Next(s, ls[0])
      case None => None
      case Some(s') => Exec(s', ls[1..])
  }

  /** A node before its first activation. Names that are not symlinks may be in the way. */
  predicate Fresh(s: Sys) {
    && s.phase.Idle? && s.trail == {}
    && s.disk.applied.None?
    && (s.disk.current.None? || s.disk.current.value.Other?)
    && (s.disk.previous.None? || s.disk.previous.value.Other?)
  }

  ghost predicate Reachable(s: Sys) {
    exists s0, ls :: Fresh(s0) && Exec(s0, ls) == Some(s)
  }

  lemma {:induction false} ExecSnoc(s: Sys, ls: seq<Label>, l: Label)
    ensures Exec(s, ls + [l]) == match Exec(s, ls) case None => None case Some(m) => Next(m, l)
    decreases |ls|
  {
    if ls == [] {
      assert [l][1..] == [];
      assert ls + [l] == [l];
    } else {
      assert (ls + [l])[1..] == ls[1..] + [l];
      match Next(s, ls[0])
      case None =>
      case Some(m) => ExecSnoc(m, ls[1..], l);
    }
  }

  lemma ReachNext(s: Sys, l: Label)
    requires Reachable(s) && Next(s, l).Some?
    ensures Reachable(Next(s, l).value)
  {
    var s0, ls :| Fresh(s0) && Exec(s0, ls) == Some(s);
    ExecSnoc(s0, ls, l);
    assert Exec(s0, ls + [l]) == Some(Next(s, l).value);
  }

  // ----- Safety -----

  /** A target in use is spelled in clean form; a store output in use is retained
      and still a runtime. */
  ghost predicate StoreSafe(d: Disk, target: string) {
    Clean(target) == target && (IsStorePath(target) ==> Rooted(d, target) && Valid(d, target))
  }

  ghost predicate PointerSafe(d: Disk, e: Option<Entry>) {
    e.Some? && e.value.Link? ==> StoreSafe(d, e.value.target)
  }

  ghost predicate Safe(d: Disk) {
    PointerSafe(d, d.current) && PointerSafe(d, d.previous)
  }

  /** The pair went through build, validation, smoke and activation. */
  ghost predicate Earned(s: Sys, i: string, t: string) {
    Vetted(s, i, t) && (Activated, i, t) in s.trail
  }

  ghost predicate Vetted(s: Sys, i: string, t: string) {
    (Built, i, t) in s.trail && (Checked, i, t) in s.trail && (Smoked, i, t) in s.trail
  }

  ghost predicate JobVetted(s: Sys, job: Job) {
    job.Provision? ==> Vetted(s, job.installable, job.built)
  }

  /** After activation the job's own target is current. */
  ghost predicate JobActive(s: Sys, job: Job) {
    job.Provision? ==>
      Earned(s, job.installable, job.built) && s.disk.current == Some(Link(Clean(job.built)))
  }

  ghost predicate Heading(s: Sys, job: Job, target: string) {
    && JobVetted(s, job) && StoreSafe(s.disk, target)
    && (job.Provision? ==> target == Clean(job.built))
  }

  ghost predicate PhaseInv(s: Sys) {
    var d := s.disk;
    match s.phase
    case Idle => true
    case Building(_) => true
    case Vetting(i, t) => (Built, i, t) in s.trail
    case Smoking(i, t) => (Built, i, t) in s.trail && (Checked, i, t) in s.trail
    case Retaining(i, t) => Vetted(s, i, t)
    case Ready(job, raw) =>
      && JobVetted(s, job) && (job.Provision? ==> raw == job.built)
      && (IsStorePath(raw) ==> Rooted(d, Clean(raw)))
    case Rotating(job, target, former) => Heading(s, job, target) && d.current == Some(Link(former))
    case Placing(job, target) => Heading(s, job, target)
    case Active(job) => JobActive(s, job)
    case Pruning(job, keep, _) => JobActive(s, job) && keep == Kept(d)
    case Recording(i, t) => JobActive(s, Provision(i, t))
  }

  ghost predicate Inv(s: Sys) {
    && Safe(s.disk) && PhaseInv(s)
    && (s.disk.applied.Some? ==> Earned(s, s.disk.applied.value.installable, s.disk.applied.value.target))
  }

  lemma RetainKeeps(s: Sys, i: string, t: string)
    requires Inv(s) && s.phase == Retaining(i, t) && RetainStep(s, i, t).Some?
    ensures Inv(RetainStep(s, i, t).value)
  {}

  /** The target of an activation: vetted, clean, and retained if a store output. */
  ghost predicate Enterable(s: Sys, job: Job, target: string) {
    && JobVetted(s, job) && (job.Provision? ==> target == Clean(job.built))
    && Clean(target) == target && (IsStorePath(target) ==> Rooted(s.disk, target))
  }

  lemma EnterHeads(s: Sys, job: Job, target: string)
    requires Enterable(s, job, target) && EnterStep(s, job, target).Some?
    ensures PhaseInv(EnterStep(s, job, target).value)
  {
    assert Heading(s, job, target);
  }

  lemma EnterKeepsDisk(s: Sys, job: Job, target: string)
    requires EnterStep(s, job, target).Some?
    ensures EnterStep(s, job, target).value.disk == s.disk && s.trail <= EnterStep(s, job, target).value.trail
  {}

  lemma EnterKeeps(s: Sys)
    requires Inv(s) && s.phase.Ready? && EnterStep(s, s.phase.job, Clean(s.phase.raw)).Some?
    ensures Inv(EnterStep(s, s.phase.job, Clean(s.phase.raw)).value)
  {
    var raw, c := s.phase.raw, Clean(s.phase.raw);
    CleanIdempotent(raw);
    assert IsStorePath(c) == IsStorePath(raw);
    EnterHeads(s, s.phase.job, c);
    EnterKeepsDisk(s, s.phase.job, c);
  }

  lemma StoreTargetKept(d: Disk, e: Option<Entry>)
    requires e == d.current || e == d.previous
    requires e.Some? && e.value.Link? && IsStorePath(e.value.target)
    ensures e.value.target in Kept(d)
  {
    StorePathShape(e.value.target);
  }

  lemma PruneKeepsPointer(d: Disk, name: string, e: Option<Entry>)
    requires e == d.current || e == d.previous
    requires PointerSafe(d, e)
    requires name in d.roots && d.roots[name].Link? && d.roots[name].target !in Kept(d)
    ensures PointerSafe(d.(roots := d.roots - {name}), e)
  {
    if e.Some? && e.value.Link? && IsStorePath(e.value.target) {
      StoreTargetKept(d, e);
      assert StoreSafe(d.(roots := d.roots - {name}), e.value.target);
    }
  }

  /** The rest of the invariant does not look at roots while pruning. */
  lemma PruningFits(s: Sys, roots: map<string, Entry>, names: seq<string>)
    requires Inv(s) && s.phase.Pruning?
    ensures PhaseInv(s.(disk := s.disk.(roots := roots), phase := s.phase.(names := names)))
  {
    assert Kept(s.disk.(roots := roots)) == Kept(s.disk);
  }

  lemma PruneKeeps(s: Sys)
    requires Inv(s) && s.phase.Pruning? && s.phase.names != [] && PruneStep(s, s.phase.names[0]).Some?
    ensures Inv(PruneStep(s, s.phase.names[0]).value)
  {
    var d, name := s.disk, s.phase.names[0];
    var roots := if d.roots[name].target in s.phase.keep then d.roots else d.roots - {name};
    PruningFits(s, roots, s.phase.names[1..]);
    if d.roots[name].target !in s.phase.keep {
      PruneKeepsSafe(d, name);
    }
    assert PruneStep(s, name) == Some(s.(disk := d.(roots := roots), phase := s.phase.(names := s.phase.names[1..])));
  }

  lemma PruneKeepsSafe(d: Disk, name: string)
    requires Safe(d) && name in d.roots && d.roots[name].Link? && d.roots[name].target !in Kept(d)
    ensures Safe(d.(roots := d.roots - {name}))
  {
    PruneKeepsPointer(d, name, d.current);
    PruneKeepsPointer(d, name, d.previous);
  }

  lemma AbortKeeps(s: Sys)
    requires Inv(s) && Next(s, Abort).Some?
    ensures Inv(Next(s, Abort).value)
  {}

  lemma OutsideKeeps(s: Sys, usable: set<string>, starts: set<string>)
    requires Inv(s) && Next(s, Outside(usable, starts)).Some?
    ensures Inv(Next(s, Outside(usable, starts)).value)
  {}

  lemma BeginKeeps(s: Sys, i: string)
    requires Inv(s) && Next(s, Begin(i)).Some?
    ensures Inv(Next(s, Begin(i)).value)
  {}

  lemma BuildKeeps(s: Sys, output: string)
    requires Inv(s) && Next(s, Build(output)).Some?
    ensures Inv(Next(s, Build(output)).value)
  {}

  lemma VetKeeps(s: Sys)
    requires Inv(s) && Next(s, Vet).Some?
    ensures Inv(Next(s, Vet).value)
  {}

  lemma SmokeKeeps(s: Sys)
    requires Inv(s) && Next(s, Smoke).Some?
    ensures Inv(Next(s, Smoke).value)
  {}

  /** Replacing a pointer by a link to a safe target keeps the disk safe. */
  lemma PointKeeps(d: Disk, target: string)
    requires Safe(d) && StoreSafe(d, target)
    ensures Safe(d.(previous := Some(Link(target)))) && Safe(d.(current := Some(Link(target))))
  {
    assert StoreSafe(d.(previous := Some(Link(target))), target);
    assert StoreSafe(d.(current := Some(Link(target))), target);
  }

  lemma DemoteKeeps(s: Sys)
    requires Inv(s) && Next(s, Demote).Some?
    ensures Inv(Next(s, Demote).value)
  {
    var job, target, former := s.phase.job, s.phase.target, s.phase.former;
    assert StoreSafe(s.disk, former);
    PointKeeps(s.disk, former);
    var next := s.(disk := s.disk.(previous := Some(Link(former))), phase := Placing(job, target));
    assert StoreSafe(next.disk, target);
    assert Next(s, Demote) == Some(next);
  }

  lemma PromoteKeeps(s: Sys)
    requires Inv(s) && Next(s, Promote).Some?
    ensures Inv(Next(s, Promote).value)
  {
    PointKeeps(s.disk, s.phase.target);
  }

  lemma StartPruneKeeps(s: Sys, order: seq<string>)
    requires Inv(s) && Next(s, StartPrune(order)).Some?
    ensures Inv(Next(s, StartPrune(order)).value)
  {}

  lemma EndPruneKeeps(s: Sys)
    requires Inv(s) && Next(s, EndPrune).Some?
    ensures Inv(Next(s, EndPrune).value)
  {}

  lemma RecordKeeps(s: Sys)
    requires Inv(s) && Next(s, Record).Some?
    ensures Inv(Next(s, Record).value)
  {}

  lemma BeginRollbackKeeps(s: Sys)
    requires Inv(s) && Next(s, BeginRollback).Some?
    ensures Inv(Next(s, BeginRollback).value)
  {
    var t := ReadPointer(s.disk.previous).path;
    PreviousIsRooted(s.disk, t);
    var next := s.(phase := Ready(Revert, t));
    assert Next(s, BeginRollback) == Some(next) && PhaseInv(next);
  }

  lemma PreviousIsRooted(d: Disk, t: string)
    requires Safe(d) && ReadPointer(d.previous) == Target(t)
    ensures IsStorePath(t) ==> Rooted(d, Clean(t))
  {}

  /** Every step of every command, and every outside step, keeps the invariant. */
  lemma StepKeeps(s: Sys, l: Label)
    requires Inv(s) && Next(s, l).Some?
    ensures Inv(Next(s, l).value)
  {
    match l
    case Abort => AbortKeeps(s);
    case Outside(usable, starts) => OutsideKeeps(s, usable, starts);
    case Begin(i) => BeginKeeps(s, i);
    case Build(output) => BuildKeeps(s, output);
    case Vet => VetKeeps(s);
    case Smoke => SmokeKeeps(s);
    case Retain => RetainKeeps(s, s.phase.installable, s.phase.built);
    case BeginRollback => BeginRollbackKeeps(s);
    case Enter => EnterKeeps(s);
    case Demote => DemoteKeeps(s);
    case Promote => PromoteKeeps(s);
    case StartPrune(order) => StartPruneKeeps(s, order);
    case PruneOne => PruneKeeps(s);
    case EndPrune => EndPruneKeeps(s);
    case Record => RecordKeeps(s);
  }

  lemma {:induction false} RunKeeps(s: Sys, ls: seq<Label>)
    requires Inv(s) && Exec(s, ls).Some?
    ensures Inv(Exec(s, ls).value)
    decreases |ls|
  {
    if ls == [] {
    } else {
      StepKeeps(s, ls[0]);
      RunKeeps(Next(s, ls[0]).value, ls[1..]);
    }
  }

  /** In every reachable state, current and previous, when they are store
      outputs, have their own GC root and are still valid runtimes. */
  lemma PointersStaySafe(s: Sys)
    requires Reachable(s)
    ensures Safe(s.disk)
    ensures Inv(s)
  {
    var s0, ls :| Fresh(s0) && Exec(s0, ls) == Some(s);
    RunKeeps(s0, ls);
  }
}
