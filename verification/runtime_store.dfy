/** The runtime store and its applier as the client runs them: fields replaced
    in place, one step at a time. Sound() says that the history so far is a run
    of the step system, so everything proved of runs holds at every return,
    including the ones that stand for a crash. */
module RuntimeStore {
  import opened Text
  import opened FilePath
  import opened Words
  import opened RuntimeRuns
  import opened RuntimeSteps
  import opened RuntimeLaws
  import RuntimeCommands

  datatype Stage =
    | Interrupted      // a crash, or an I/O error that the client reports
    | BadDescriptor
    | LookupFailed
    | BuildFailed
    | Invalid
    | SmokeFailed
    | RetainFailed
    | PointerBroken
    | NothingToRollBack
    | PruneFailed

  datatype Outcome<+T> = Done(value: T) | Failed(stage: Stage) {
    predicate IsFailure() { Failed? }
    function PropagateFailure<U>(): Outcome<U> requires Failed? { Failed(stage) }
    function Extract(): T requires Done? { value }
  }

  datatype ApplyResult = ApplyResult(target: string, changed: bool, skipped: bool)

  datatype Descriptor = Descriptor(schema: int, installable: string)

  /** What the world answers during one apply: whether nix and nix-store are found,
      what the build prints, and how nix-store takes a request for a root. */
  datatype Answers = Answers(nix: bool, output: Option<string>, nixStore: bool, registration: Registration)

  datatype Registration = Registered | Refused | LinkedThenFailed

  predicate HasBlank(installable: string) {
    ' ' in installable || '\t' in installable || '\r' in installable || '\n' in installable
  }

  /** What is built: a directory is taken as it is, anything else is what nix prints,
      if that is one path. */
  function BuiltFrom(installable: string, world: Answers): Option<string> {
    if IsAbs(installable) then Some(Clean(installable))
    else if !world.nix || HasBlank(installable) || world.output.None? || |Fields(world.output.value)| != 1 then None
    else Some(Fields(world.output.value)[0])
  }

  const PREFIX := "github:gisikw/familiar/"
  const SUFFIX := "#familiar-worker-runtime"

  predicate IsHex(c: char) {
    '0' <= c <= '9' || 'a' <= c <= 'f'
  }

  /** Schema 1 and one exact commit of the Familiar flake. */
  predicate Acceptable(d: Descriptor) {
    && d.schema == 1
    && |d.installable| == |PREFIX| + 40 + |SUFFIX|
    && d.installable[..|PREFIX|] == PREFIX
    && d.installable[|PREFIX| + 40..] == SUFFIX
    && forall k | |PREFIX| <= k < |PREFIX| + 40 :: IsHex(d.installable[k])
  }

  /** The roots of `d` whose target is kept. */
  function KeptRoots(d: Disk): map<string, Entry> {
    map b | b in d.roots && d.roots[b].Link? && d.roots[b].target in Kept(d) :: d.roots[b]
  }

  /** Some roots are gone, none of them with a kept target. */
  ghost predicate Pruned(was: map<string, Entry>, now: map<string, Entry>, keep: set<string>) {
    && (forall b | b in now :: b in was && now[b] == was[b])
    && (forall b | b in was && b !in now :: was[b].Link? && was[b].target !in keep)
  }

  lemma KeptRootsSame(was: Disk, now: Disk)
    requires Kept(was) == Kept(now) && Pruned(was.roots, now.roots, Kept(was))
    ensures KeptRoots(was) == KeptRoots(now)
  {}

  /** Of the visited names, those still there lead to kept targets. */
  ghost predicate VisitedStay(names: seq<string>, roots: map<string, Entry>, keep: set<string>) {
    forall j | 0 <= j < |names| :: names[j] in roots ==> roots[names[j]].Link? && roots[names[j]].target in keep
  }

  ghost predicate StillThere(names: seq<string>, roots: map<string, Entry>) {
    forall j | 0 <= j < |names| :: names[j] in roots
  }

  /** One turn of the loop, which removes its name or finds that it leads to a kept target. */
  lemma TurnTaken(names: seq<string>, k: nat, was: map<string, Entry>, now: map<string, Entry>, keep: set<string>)
    requires k < |names| && (forall i, j | 0 <= i < j < |names| :: names[i] != names[j])
    requires VisitedStay(names[..k], was, keep) && StillThere(names[k..], was) && names[k] in was && was[names[k]].Link?
    requires now == if was[names[k]].target in keep then was else was - {names[k]}
    ensures VisitedStay(names[..k + 1], now, keep) && StillThere(names[k + 1..], now)
  {
    var head, rest := names[..k + 1], names[k + 1..];
    forall j | 0 <= j < |head| && head[j] in now ensures now[head[j]].Link? && now[head[j]].target in keep {
      assert j < k ==> names[..k][j] == head[j];
    }
    forall j | 0 <= j < |rest| ensures rest[j] in now {
      assert names[k..][j + 1] == rest[j] == names[k + 1 + j];
    }
  }

  lemma VisitedAll(names: seq<string>, was: map<string, Entry>, now: map<string, Entry>, keep: set<string>)
    requires Lists(names, was) && Pruned(was, now, keep) && VisitedStay(names, now, keep)
    ensures forall b | b in now :: now[b].Link? && now[b].target in keep
  {
    forall b | b in now ensures now[b].Link? && now[b].target in keep {
      assert b in was && b in names;
    }
  }

  lemma PrunedFurther(was: map<string, Entry>, now: map<string, Entry>, keep: set<string>, name: string)
    requires Pruned(was, now, keep) && name in now && now[name].Link? && now[name].target !in keep
    ensures Pruned(was, now - {name}, keep)
  {}

  /** Where an activation that began at `p` and leads to `done` can leave the pointers. */
  predicate CutShort(p: Pointers, done: Pointers, q: Pointers) {
    q == p || q == Half(p) || q == done
  }

  lemma NoBlanks(installable: string)
    requires !HasBlank(installable)
    ensures forall c | c in " \t\r\n" :: c !in installable
  {}

  /** A commit in full: forty hexadecimal digits. */
  predicate IsCommit(commit: string) {
    |commit| == 40 && forall k | 0 <= k < 40 :: '0' <= commit[k] <= '9' || 'a' <= commit[k] <= 'f'
  }

  lemma Framed(text: string, prefix: string, commit: string, suffix: string)
    requires text == prefix + commit + suffix && |commit| == 40
    ensures |text| == |prefix| + 40 + |suffix| && text[..|prefix|] == prefix && text[|prefix| + 40..] == suffix
    ensures forall k | 0 <= k < 40 :: text[|prefix| + k] == commit[k]
  {}

  lemma Unframed(text: string, prefix: string, suffix: string) returns (commit: string)
    requires |text| == |prefix| + 40 + |suffix| && text[..|prefix|] == prefix && text[|prefix| + 40..] == suffix
    ensures |commit| == 40 && text == prefix + commit + suffix
    ensures forall k | 0 <= k < 40 :: text[|prefix| + k] == commit[k]
  {
    commit := text[|prefix|..|prefix| + 40];
    assert text == text[..|prefix|] + commit + text[|prefix| + 40..];
  }

  lemma DigitsAt(text: string, n: nat, commit: string)
    requires |commit| == 40 && |text| >= n + 40 && forall k | 0 <= k < 40 :: text[n + k] == commit[k]
    ensures (forall k | n <= k < n + 40 :: IsHex(text[k])) <==> IsCommit(commit)
  {
    if forall k | n <= k < n + 40 :: IsHex(text[k]) {
      forall k | 0 <= k < 40 ensures '0' <= commit[k] <= '9' || 'a' <= commit[k] <= 'f' {
        assert IsHex(text[n + k]);
      }
    }
    if IsCommit(commit) {
      forall k | n <= k < n + 40 ensures IsHex(text[k]) {
        assert text[n + (k - n)] == commit[k - n];
      }
    }
  }

  lemma NamesCommit(d: Descriptor, prefix: string, commit: string, suffix: string)
    requires prefix == PREFIX && suffix == SUFFIX && d.installable == prefix + commit + suffix && |commit| == 40
    ensures Acceptable(d) <==> d.schema == 1 && IsCommit(commit)
  {
    Framed(d.installable, prefix, commit, suffix);
    DigitsAt(d.installable, |prefix|, commit);
  }

  /** An enrolled descriptor is accepted exactly when it has schema 1 and names one
      commit, in full. */
  lemma AcceptableIff(d: Descriptor, prefix: string, suffix: string)
    requires prefix == "github:gisikw/familiar/" && suffix == "#familiar-worker-runtime"
    ensures Acceptable(d) <==>
      (d.schema == 1 && exists commit :: IsCommit(commit) && d.installable == prefix + commit + suffix)
  {
    if Acceptable(d) {
      var commit := Unframed(d.installable, prefix, suffix);
      NamesCommit(d, prefix, commit, suffix);
    }
    if commit :| IsCommit(commit) && d.installable == prefix + commit + suffix {
      NamesCommit(d, prefix, commit, suffix);
    }
  }

  class Store {
    var current: Option<Entry>
    var previous: Option<Entry>
    var roots: map<string, Entry>
    var applied: Option<Applied>
    var usable: set<string>
    const starts: set<string>
    ghost var phase: Phase
    ghost var trail: set<(Milestone, string, string)>

    function OnDisk(): Disk
      reads this
    {
      Disk(current, previous, roots, applied, usable, starts)
    }

    ghost function Here(): Sys
      reads this
    {
      Sys(OnDisk(), phase, trail)
    }

    function Pair(): Pointers
      reads this
    {
      Pointers(current, previous)
    }

    ghost predicate Sound()
      reads this
    {
      Reachable(Here())
    }

    constructor (usable: set<string>, starts: set<string>)
      ensures Sound() && phase == Idle && this.starts == starts
      ensures current.None? && previous.None? && applied.None? && roots == map[]
    {
      current, previous, applied, roots := None, None, None, map[];
      this.usable, this.starts := usable, starts;
      phase, trail := Idle, {};
      new;
      assert Exec(Here(), []) == Some(Here());
    }

    /** Records the step from `s` to `next`, whose disk is the one here. */
    ghost method Mark(s: Sys, next: Sys)
      requires Reachable(s) && Steps(s, next) && next.disk == OnDisk()
      modifies this`phase, this`trail
      ensures Sound() && Here() == next
    {
      ReachSteps(s, next);
      phase, trail := next.phase, next.trail;
    }

    /** Time between two steps: anything outside may change the file system as
        far as garbage collection honours roots, and the client may die. */
    method Interlude() returns (died: bool)
      requires Sound()
      modifies this`usable, this`phase, this`trail
      ensures Sound() && Honours(old(OnDisk()), usable) && trail == old(trail)
      ensures phase == if died then Idle else old(phase)
    {
      var later: set<string> := *;
      ghost var s := Here();
      if Honours(OnDisk(), later) {
        usable := later;
        OutsideSteps(s, later);
        Mark(s, s.(disk := s.disk.(usable := later)));
      }
      died := *;
      if died {
        s := Here();
        Aborts(s);
        Mark(s, s.(phase := Idle));
      }
    }

    /** Returns to rest with an error. */
    ghost method GiveUp()
      requires Sound()
      modifies this`phase, this`trail
      ensures Sound() && phase == Idle && trail == old(trail)
    {
      Aborts(Here());
      Mark(Here(), Here().(phase := Idle));
    }

    method Activate(raw: string, ghost job: Job) returns (out: Outcome<bool>)
      requires Sound() && phase == Ready(job, raw)
      modifies this
      ensures Sound() && roots == old(roots) && applied == old(applied)
      ensures old(ReadPointer(current).Broken?) || !IsAbs(Clean(raw)) || !SafeText(Clean(raw)) ==>
                out.Failed? && Pair() == old(Pair())
      ensures out.Done? ==>
                && phase == Active(job)
                && Pair() == Rotated(old(Pair()), Clean(raw))
                && out.value == (old(current) != Some(Link(Clean(raw))))
      ensures out.Failed? ==>
                && phase == Idle
                && (Pair() == old(Pair()) || (out.stage == Interrupted && Pair() == Half(old(Pair()))))
    {
      var target := Clean(raw);
      var died := Interlude();
      if died { return Failed(Interrupted); }
      if !Valid(OnDisk(), target) {
        GiveUp();
        return Failed(Invalid);
      }
      var read := ReadPointer(current);
      if read.Broken? {
        GiveUp();
        return Failed(PointerBroken);
      }
      Enters(Here(), job, raw);
      Mark(Here(), Entered(Here(), job, target));
      if read == Target(target) {
        return Done(false);
      }
      if read.Target? {
        var demoted :- ReplacePrevious(job, target, read.path);
      }
      var promoted :- ReplaceCurrent(job, target);
      return Done(true);
    }

    /** Symlink and rename onto previous; anything but a symlink there is left alone. */
    method ReplacePrevious(ghost job: Job, ghost target: string, former: string) returns (out: Outcome<()>)
      requires Sound() && phase == Rotating(job, target, former)
      modifies this
      ensures Sound() && current == old(current) && roots == old(roots) && applied == old(applied)
      ensures out.Done? ==> phase == Placing(job, target) && previous == Some(Link(former))
      ensures out.Failed? ==> phase == Idle && previous == old(previous)
      ensures old(previous) == Some(Other) ==> out.Failed?
    {
      var died := Interlude();
      if died { return Failed(Interrupted); }
      if previous == Some(Other) {
        GiveUp();
        return Failed(PointerBroken);
      }
      ghost var s := Here();
      previous := Some(Link(former));
      Demotes(s, job, target, former);
      Mark(s, s.(disk := OnDisk(), phase := Placing(job, target)));
      return Done(());
    }

    /** Symlink and rename onto current. */
    method ReplaceCurrent(ghost job: Job, target: string) returns (out: Outcome<()>)
      requires Sound() && phase == Placing(job, target)
      modifies this
      ensures Sound() && previous == old(previous) && roots == old(roots) && applied == old(applied)
      ensures out.Done? ==> phase == Active(job) && current == Some(Link(target))
      ensures out.Failed? ==> phase == Idle && current == old(current)
      ensures out.Failed? && out.stage != Interrupted ==> current == Some(Other)
    {
      var died := Interlude();
      if died { return Failed(Interrupted); }
      if current == Some(Other) {
        GiveUp();
        return Failed(PointerBroken);
      }
      ghost var s := Here();
      current := Some(Link(target));
      Promotes(s, job, target);
      Mark(s, s.(disk := OnDisk(), phase := Active(job), trail := s.trail + JobTrail(job)));
      return Done(());
    }

    /** The roots after a registration that was reported as failed: nix-store may
        have made the link before it failed or was stopped. */
    predicate MayHaveRetained(was: map<string, Entry>, built: string)
      reads this
    {
      || roots == was
      || (IsStorePath(built) && Base(Clean(built)) !in was && roots == was[Base(Clean(built)) := Link(Clean(built))])
    }

    /** Adds the root of the cleaned target, unless it is there already. */
    method RegisterGCRoot(built: string, ghost installable: string, answer: Registration) returns (out: Outcome<()>)
      requires Sound() && phase == Retaining(installable, built)
      modifies this
      ensures Sound() && Pair() == old(Pair()) && applied == old(applied)
      ensures out.Done? ==>
                && phase == Ready(Provision(installable, built), built)
                && IsStorePath(built) && Rooted(OnDisk(), Clean(built))
                && roots == old(roots)[Base(Clean(built)) := Link(Clean(built))]
      ensures out.Failed? ==> phase == Idle && out.stage == RetainFailed && MayHaveRetained(old(roots), built)
      ensures out.Done? <==> old(IsStorePath(built)
                && if Base(Clean(built)) in roots then roots[Base(Clean(built))] == Link(Clean(built)) else answer.Registered?)
      ensures old(Base(Clean(built)) in roots) || answer.Refused? ==> roots == old(roots)
    {
      var target := Clean(built);
      if Dir(target) != STORE {
        GiveUp();
        return Failed(RetainFailed);
      }
      var root := Base(target);
      ghost var s := Here();
      if root in roots && roots[root] != Link(target) {
        GiveUp();
        return Failed(RetainFailed);
      }
      Retains(s, installable, built);
      if root in roots {
        assert roots == roots[root := Link(target)];
        Mark(s, s.(disk := OnDisk(), phase := Ready(Provision(installable, built), built)));
        return Done(());
      }
      if !answer.Registered? {
        if answer.LinkedThenFailed? {
          roots := roots[root := Link(target)];
          Mark(s, s.(disk := OnDisk(), phase := Ready(Provision(installable, built), built)));
        }
        GiveUp();
        return Failed(RetainFailed);
      }
      roots := roots[root := Link(target)];
      Mark(s, s.(disk := OnDisk(), phase := Ready(Provision(installable, built), built)));
      return Done(());
    }

    /** Directory entries in some order. */
    method ReadRoots() returns (names: seq<string>)
      ensures Lists(names, roots)
    {
      names := [];
      var left := roots.Keys;
      while left != {}
        invariant left <= roots.Keys
        invariant forall b | b in roots :: b in names || b in left
        invariant forall k | 0 <= k < |names| :: names[k] in roots && names[k] !in left
        invariant forall j, k | 0 <= j < k < |names| :: names[j] != names[k]
      {
        var b :| b in left;
        names, left := names + [b], left - {b};
      }
    }

    /** The targets of both pointers; an unreadable pointer is an error. */
    method PointerTargets() returns (keep: Option<set<string>>)
      ensures keep.None? <==> ReadPointer(current).Broken? || ReadPointer(previous).Broken?
      ensures keep.Some? ==> keep.value == Kept(OnDisk())
    {
      var found: set<string> := {};
      var pointers := [current, previous];
      for k := 0 to 2
        invariant forall j | 0 <= j < k :: !ReadPointer(pointers[j]).Broken?
        invariant k == 0 ==> found == {}
        invariant k == 1 ==> found == Kept(OnDisk().(previous := None))
        invariant k == 2 ==> found == Kept(OnDisk())
      {
        var read := ReadPointer(pointers[k]);
        if read.Broken? {
          return None;
        }
        if read.Target? {
          found := found + {read.path};
        }
      }
      assert pointers[0] == current && pointers[1] == previous;
      return Some(found);
    }

    /** Retains roots for exactly current and previous. Cut short, it has removed
        none of those. */
    method PruneGCRoots(ghost job: Job) returns (out: Outcome<()>)
      requires Sound() && phase == Active(job)
      modifies this
      ensures Sound() && Pair() == old(Pair()) && applied == old(applied)
      ensures out.Done? ==>
                && phase == (match job case Provision(i, t) => Recording(i, t) case Revert => Idle)
                && roots == KeptRoots(old(OnDisk()))
      ensures out.Failed? ==> phase == Idle
      ensures old(ReadPointer(current).Broken? || ReadPointer(previous).Broken?) ==> out.Failed? && roots == old(roots)
      ensures roots.Keys <= old(roots).Keys && KeptRoots(OnDisk()) == KeptRoots(old(OnDisk()))
      ensures trail == old(trail)
    {
      var keep := PointerTargets();
      if keep.None? {
        GiveUp();
        return Failed(PointerBroken);
      }
      var names := ReadRoots();
      StartsPrune(Here(), job, names);
      Mark(Here(), Here().(phase := Pruning(job, keep.value, names)));
      ghost var was := OnDisk();
      var pruned := RemoveUnkept(job, keep.value, names);
      KeptRootsSame(was, OnDisk());
      if pruned.Failed? { return pruned; }
      assert roots == KeptRoots(OnDisk());
      EndsPrune(Here(), job, keep.value);
      Mark(Here(), Here().(phase := match job case Provision(i, t) => Recording(i, t) case Revert => Idle));
      return Done(());
    }

    method RemoveUnkept(ghost job: Job, keep: set<string>, names: seq<string>) returns (out: Outcome<()>)
      requires Sound() && phase == Pruning(job, keep, names) && Lists(names, roots)
      modifies this
      ensures Sound() && Pair() == old(Pair()) && applied == old(applied)
      ensures Pruned(old(roots), roots, keep) && trail == old(trail)
      ensures out.Done? ==>
                && phase == Pruning(job, keep, [])
                && forall b | b in roots :: roots[b].Link? && roots[b].target in keep
      ensures out.Failed? ==> phase == Idle
    {
      for k := 0 to |names|
        invariant Sound() && phase == Pruning(job, keep, names[k..])
        invariant Pair() == old(Pair()) && applied == old(applied) && trail == old(trail)
        invariant Pruned(old(roots), roots, keep)
        invariant VisitedStay(names[..k], roots, keep)
        invariant StillThere(names[k..], roots)
      {
        assert names[k..][0] == names[k];
        var entry := roots[names[k]];
        if entry.Other? {
          GiveUp();
          return Failed(PruneFailed);
        }
        ghost var now := roots;
        var died := RemoveEntry(job, keep, names[k..]);
        if died { return Failed(Interrupted); }
        if entry.target !in keep {
          PrunedFurther(old(roots), now, keep, names[k]);
        }
        TurnTaken(names, k, now, roots, keep);
      }
      assert names[|names|..] == [] && names[..|names|] == names;
      VisitedAll(names, old(roots), roots, keep);
      return Done(());
    }

    /** One turn of the pruning loop, on a readable link. */
    method RemoveEntry(ghost job: Job, keep: set<string>, names: seq<string>) returns (died: bool)
      requires Sound() && phase == Pruning(job, keep, names) && names != []
      requires names[0] in roots && roots[names[0]].Link?
      modifies this
      ensures Sound() && Pair() == old(Pair()) && applied == old(applied) && trail == old(trail)
      ensures if died then phase == Idle && roots == old(roots)
              else
                && phase == Pruning(job, keep, names[1..])
                && roots == if old(roots)[names[0]].target in keep then old(roots) else old(roots) - {names[0]}
    {
      died := Interlude();
      if died { return; }
      ghost var s := Here();
      if roots[names[0]].target !in keep {
        roots := roots - {names[0]};
      }
      PrunesOne(s, job, keep, names);
      Mark(s, s.(disk := OnDisk(), phase := Pruning(job, keep, names[1..])));
    }

    /** Replaces the provenance record by rename. */
    method RecordApplied(installable: string, built: string) returns (out: Outcome<()>)
      requires Sound() && phase == Recording(installable, built)
      modifies this
      ensures Sound() && phase == Idle && Pair() == old(Pair()) && roots == old(roots) && trail == old(trail)
      ensures applied == if out.Done? then Some(Applied(installable, built)) else old(applied)
    {
      var died := Interlude();
      if died { return Failed(Interrupted); }
      ghost var s := Here();
      applied := Some(Applied(installable, built));
      Records(s, installable, built);
      Mark(s, s.(disk := OnDisk(), phase := Idle));
      return Done(());
    }

    /** A directory is taken as it is; anything else nix resolves, builds and prints
        as one output path. */
    method Build(installable: string, world: Answers) returns (out: Outcome<string>)
      requires Sound() && phase == Building(installable)
      modifies this
      ensures Sound() && Pair() == old(Pair()) && applied == old(applied) && roots == old(roots)
      ensures out.Done? ==> phase == Vetting(installable, out.value)
      ensures out.Done? ==>
                if IsAbs(installable) then out.value == Clean(installable)
                else
                  && world.nix && world.output.Some? && Fields(world.output.value) == [out.value]
                  && ' ' !in installable && '\t' !in installable && '\r' !in installable && '\n' !in installable
      ensures out.Done? ==> BuiltFrom(installable, world) == Some(out.value)
      ensures out.Failed? ==> phase == Idle
      ensures out.Failed? && out.stage != Interrupted ==>
                BuiltFrom(installable, world).None? && out.stage == (if world.nix then BuildFailed else LookupFailed)
    {
      var died := Interlude();
      if died { return Failed(Interrupted); }
      var built: string;
      if IsAbs(installable) {
        built := Clean(installable);
      } else {
        if !world.nix {
          GiveUp();
          return Failed(LookupFailed);
        }
        if HasBlank(installable) || world.output.None? {
          GiveUp();
          return Failed(BuildFailed);
        }
        var lines := Fields(world.output.value);
        if |lines| != 1 {
          GiveUp();
          return Failed(BuildFailed);
        }
        built := lines[0];
        assert lines == [built];
        NoBlanks(installable);
      }
      Builds(Here(), installable, built);
      Mark(Here(), Here().(phase := Vetting(installable, built), trail := trail + {(Built, installable, built)}));
      return Done(built);
    }

    /** Validate, smoke and retain a build output before anything is activated. */
    method Prepare(installable: string, built: string, world: Answers) returns (out: Outcome<()>)
      requires Sound() && phase == Vetting(installable, built)
      modifies this
      ensures Sound() && Pair() == old(Pair()) && applied == old(applied)
      ensures out.Done? ==>
                && phase == Ready(Provision(installable, built), built)
                && roots == if IsStorePath(built) then old(roots)[Base(Clean(built)) := Link(Clean(built))] else old(roots)
      ensures out.Failed? ==> phase == Idle && MayHaveRetained(old(roots), built)
      ensures out.Failed? && out.stage != RetainFailed ==> roots == old(roots)
      ensures out.Done? ==> built in starts && (IsStorePath(built) ==> world.nixStore)
      ensures built !in starts || (IsStorePath(built) && !world.nixStore) ==> out.Failed? && roots == old(roots)
      ensures out.Failed? && out.stage == SmokeFailed ==> built !in starts
      ensures out.Failed? && out.stage == LookupFailed ==> IsStorePath(built) && !world.nixStore
    {
      var died := Interlude();
      if died { return Failed(Interrupted); }
      if !Valid(OnDisk(), built) {
        GiveUp();
        return Failed(Invalid);
      }
      Vets(Here(), installable, built);
      Mark(Here(), Here().(phase := Smoking(installable, built), trail := trail + {(Checked, installable, built)}));
      died := Interlude();
      if died { return Failed(Interrupted); }
      if built !in starts {
        GiveUp();
        return Failed(SmokeFailed);
      }
      Smokes(Here(), installable, built);
      Mark(Here(), Here().(phase := Retaining(installable, built), trail := trail + {(Smoked, installable, built)}));
      if IsStorePath(built) {
        if !world.nixStore {
          GiveUp();
          return Failed(LookupFailed);
        }
        out := RegisterGCRoot(built, installable, world.registration);
      } else {
        NeedsNoRoot(Here(), installable, built);
        Mark(Here(), Here().(phase := Ready(Provision(installable, built), built)));
        out := Done(());
      }
    }

    /** Activate, prune, record: the part of an apply that changes pointers and record. */
    method Commit(installable: string, built: string) returns (out: Outcome<ApplyResult>)
      requires Sound() && phase == Ready(Provision(installable, built), built)
      modifies this
      ensures Sound() && phase == Idle
      ensures out.Done? ==>
                && out.value == ApplyResult(built, old(current) != current, false)
                && Pair() == Rotated(old(Pair()), Clean(built))
                && applied == Some(Applied(installable, built))
                && roots == KeptRoots(OnDisk())
      ensures out.Failed? ==>
                && applied == old(applied)
                && CutShort(old(Pair()), Rotated(old(Pair()), Clean(built)), Pair())
                && (Pair() == old(Pair()) || Pair() == Half(old(Pair())) || (Activated, installable, built) in trail)
                && (out.stage in {LookupFailed, BuildFailed, Invalid, SmokeFailed, RetainFailed} ==> Pair() == old(Pair()))
    {
      var changed :- Activate(built, Provision(installable, built));
      ActiveIsEarned(Here(), installable, built);
      var pruned := PruneGCRoots(Provision(installable, built));
      if pruned.Failed? {
        return Failed(if pruned.stage == PointerBroken then PointerBroken else PruneFailed);
      }
      assert roots == KeptRoots(OnDisk());
      var recorded := RecordApplied(installable, built);
      if recorded.Failed? { return Failed(Interrupted); }
      return Done(ApplyResult(built, changed, false));
    }

    /** Makes `installable` the active runtime. An error before activation leaves
        the pointers and the record alone; on success the build output is current,
        retained and recorded, whatever the store went through before. */
    method Apply(installable: string, world: Answers) returns (out: Outcome<ApplyResult>)
      requires Sound() && phase == Idle
      modifies this
      ensures Sound() && phase == Idle
      ensures old(Satisfied(OnDisk(), installable)).Some? ==>
                && OnDisk() == old(OnDisk())
                && out == Done(ApplyResult(old(Satisfied(OnDisk(), installable)).value, false, true))
      ensures out.Done? ==>
                && current == Some(Link(Clean(out.value.target)))
                && applied == Some(Applied(installable, out.value.target))
                && out.value.changed == (old(current) != current)
                && (out.value.skipped <==> old(Satisfied(OnDisk(), installable)).Some?)
                && (!out.value.skipped ==>
                      BuiltFrom(installable, world) == Some(out.value.target)
                      && out.value.target in starts && (IsStorePath(out.value.target) ==> world.nixStore))
      ensures old(Satisfied(OnDisk(), installable)).None?
                && (match BuiltFrom(installable, world)
                    case None => true
                    case Some(built) => built !in starts || (IsStorePath(built) && !world.nixStore)) ==>
                out.Failed? && Pair() == old(Pair()) && roots == old(roots) && applied == old(applied)
      ensures out.Done? && !out.value.skipped ==>
                && Pair() == Rotated(old(Pair()), Clean(out.value.target))
                && roots == KeptRoots(OnDisk())
      ensures out.Failed? ==>
                && applied == old(applied)
                && (Pair() == old(Pair()) || Pair() == Half(old(Pair()))
                    || exists t :: (Activated, installable, t) in trail && Pair() == Rotated(old(Pair()), Clean(t)))
                && (out.stage in {LookupFailed, BuildFailed, Invalid, SmokeFailed, RetainFailed} ==> Pair() == old(Pair()))
    {
      var satisfied := Satisfied(OnDisk(), installable);
      if satisfied.Some? {
        PointersStaySafe(Here());
        return Done(ApplyResult(satisfied.value, false, true));
      }
      Begins(Here(), installable);
      Mark(Here(), Here().(phase := Building(installable)));
      var built :- Build(installable, world);
      var prepared :- Prepare(installable, built, world);
      out := Commit(installable, built);
    }

    /** Converges on the enrolled descriptor. */
    method TrueUp(descriptor: Descriptor, world: Answers) returns (out: Outcome<ApplyResult>)
      requires Sound() && phase == Idle
      modifies this
      ensures Sound() && phase == Idle
      ensures !Acceptable(descriptor) ==> out == Failed(BadDescriptor) && OnDisk() == old(OnDisk())
      ensures Acceptable(descriptor) && old(Satisfied(OnDisk(), descriptor.installable)).Some? ==>
                && OnDisk() == old(OnDisk())
                && out == Done(ApplyResult(old(Satisfied(OnDisk(), descriptor.installable)).value, false, true))
      ensures out.Done? ==>
                && current == Some(Link(Clean(out.value.target)))
                && applied == Some(Applied(descriptor.installable, out.value.target))
                && (IsStorePath(out.value.target) && Clean(out.value.target) == out.value.target ==>
                    Satisfied(OnDisk(), descriptor.installable) == Some(out.value.target))
      ensures out.Done? && out.value.skipped ==> OnDisk() == old(OnDisk())
      ensures out.Done? && !out.value.skipped ==>
                BuiltFrom(descriptor.installable, world) == Some(out.value.target) && out.value.target in starts
    {
      if !Acceptable(descriptor) {
        return Failed(BadDescriptor);
      }
      out := Apply(descriptor.installable, world);
      PointersStaySafe(Here());
    }

    /** The rollback command: swap onto a valid previous runtime, then prune. */
    method Rollback() returns (out: Outcome<string>)
      requires Sound() && phase == Idle
      modifies this
      ensures Sound() && phase == Idle && applied == old(applied)
      ensures out.Done? ==>
                && old(previous) == Some(Link(out.value))
                && Pair() == RuntimeCommands.RolledBack(old(Pair()))
                && roots.Keys <= old(roots).Keys && roots == KeptRoots(OnDisk())
      ensures old(previous.None? || !ReadPointer(previous).Target? || !Valid(OnDisk(), ReadPointer(previous).path)) ==>
                out.Failed? && OnDisk() == old(OnDisk())
      ensures out.Failed? ==> CutShort(old(Pair()), RuntimeCommands.RolledBack(old(Pair())), Pair())
    {
      PointersStaySafe(Here());
      match ReadPointer(previous) {
        case NoRuntime => return Failed(NothingToRollBack);
        case Broken => return Failed(PointerBroken);
        case Target(target) =>
          if !Valid(OnDisk(), target) {
            return Failed(Invalid);
          }
          BeginsRollback(Here(), target);
          Mark(Here(), Here().(phase := Ready(Revert, target)));
          var changed :- Activate(target, Revert);
          var pruned :- PruneGCRoots(Revert);
          return Done(target);
      }
    }
  }
}
