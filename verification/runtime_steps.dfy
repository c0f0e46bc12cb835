/** What each step of the runtime store does to a state that allows it. */
module RuntimeSteps {
  import opened Text
  import opened FilePath
  import opened RuntimeRuns

  ghost predicate Steps(s: Sys, t: Sys) {
    exists l :: Next(s, l) == Some(t)
  }

  lemma ReachSteps(s: Sys, t: Sys)
    requires Reachable(s) && Steps(s, t)
    ensures Reachable(t)
  {
    var l :| Next(s, l) == Some(t);
    ReachNext(s, l);
  }

  lemma Aborts(s: Sys)
    ensures Steps(s, s.(phase := Idle))
  {
    assert Next(s, Abort) == Some(s.(phase := Idle));
  }

  lemma OutsideSteps(s: Sys, usable: set<string>)
    requires Honours(s.disk, usable)
    ensures Steps(s, s.(disk := s.disk.(usable := usable)))
  {
    assert Next(s, Outside(usable, s.disk.starts)) == Some(s.(disk := s.disk.(usable := usable)));
  }

  lemma Begins(s: Sys, i: string)
    requires s.phase.Idle? && Satisfied(s.disk, i).None?
    ensures Steps(s, s.(phase := Building(i)))
  {
    assert Next(s, Begin(i)) == Some(s.(phase := Building(i)));
  }

  lemma Builds(s: Sys, i: string, t: string)
    requires s.phase == Building(i) && BuildAllowed(i, t)
    ensures Steps(s, s.(phase := Vetting(i, t), trail := s.trail + {(Built, i, t)}))
  {
    assert Next(s, Build(t)) == Some(s.(phase := Vetting(i, t), trail := s.trail + {(Built, i, t)}));
  }

  lemma Vets(s: Sys, i: string, t: string)
    requires s.phase == Vetting(i, t) && Valid(s.disk, t)
    ensures Steps(s, s.(phase := Smoking(i, t), trail := s.trail + {(Checked, i, t)}))
  {
    assert Next(s, Vet) == Some(s.(phase := Smoking(i, t), trail := s.trail + {(Checked, i, t)}));
  }

  lemma Smokes(s: Sys, i: string, t: string)
    requires s.phase == Smoking(i, t) && t in s.disk.starts
    ensures Steps(s, s.(phase := Retaining(i, t), trail := s.trail + {(Smoked, i, t)}))
  {
    assert Next(s, Smoke) == Some(s.(phase := Retaining(i, t), trail := s.trail + {(Smoked, i, t)}));
  }

  /** Retaining a store output whose root name is free, or already its own. */
  lemma Retains(s: Sys, i: string, t: string)
    requires s.phase == Retaining(i, t) && IsStorePath(t)
    requires Base(Clean(t)) in s.disk.roots ==> Rooted(s.disk, Clean(t))
    ensures Steps(s, s.(
              disk := s.disk.(roots := s.disk.roots[Base(Clean(t)) := Link(Clean(t))]), phase := Ready(Provision(i, t), t)))
  {
    var c := Clean(t);
    if Rooted(s.disk, c) {
      assert s.disk.roots[Base(c) := Link(c)] == s.disk.roots;
    }
    assert Next(s, Retain) == Some(s.(
      disk := s.disk.(roots := s.disk.roots[Base(Clean(t)) := Link(Clean(t))]), phase := Ready(Provision(i, t), t)));
  }

  lemma NeedsNoRoot(s: Sys, i: string, t: string)
    requires s.phase == Retaining(i, t) && !IsStorePath(t)
    ensures Steps(s, s.(phase := Ready(Provision(i, t), t)))
  {
    assert Next(s, Retain) == Some(s.(phase := Ready(Provision(i, t), t)));
  }

  lemma BeginsRollback(s: Sys, t: string)
    requires s.phase.Idle? && ReadPointer(s.disk.previous) == Target(t) && Valid(s.disk, t)
    ensures Steps(s, s.(phase := Ready(Revert, t)))
  {
    assert Next(s, BeginRollback) == Some(s.(phase := Ready(Revert, t)));
  }

  /** Where a validated activation of `target` goes, by what current holds. */
  function Entered(s: Sys, job: Job, target: string): Sys {
    match ReadPointer(s.disk.current)
    case Target(former) =>
      if former == target then s.(phase := Active(job), trail := s.trail + JobTrail(job))
      else s.(phase := Rotating(job, target, former))
    case _ => s.(phase := Placing(job, target))
  }

  lemma Enters(s: Sys, job: Job, raw: string)
    requires s.phase == Ready(job, raw) && Valid(s.disk, Clean(raw)) && !ReadPointer(s.disk.current).Broken?
    ensures Steps(s, Entered(s, job, Clean(raw)))
  {
    assert Next(s, Enter) == EnterStep(s, job, Clean(raw));
  }

  lemma Demotes(s: Sys, job: Job, target: string, former: string)
    requires s.phase == Rotating(job, target, former) && s.disk.previous != Some(Other)
    ensures Steps(s, s.(disk := s.disk.(previous := Some(Link(former))), phase := Placing(job, target)))
  {
    assert Next(s, Demote) == Some(s.(disk := s.disk.(previous := Some(Link(former))), phase := Placing(job, target)));
  }

  lemma Promotes(s: Sys, job: Job, target: string)
    requires s.phase == Placing(job, target) && s.disk.current != Some(Other)
    ensures Steps(s, s.(disk := s.disk.(current := Some(Link(target))), phase := Active(job), trail := s.trail + JobTrail(job)))
  {
    assert Next(s, Promote) == Some(s.(
      disk := s.disk.(current := Some(Link(target))), phase := Active(job), trail := s.trail + JobTrail(job)));
  }

  lemma StartsPrune(s: Sys, job: Job, names: seq<string>)
    requires s.phase == Active(job) && Lists(names, s.disk.roots)
    requires !ReadPointer(s.disk.current).Broken? && !ReadPointer(s.disk.previous).Broken?
    ensures Steps(s, s.(phase := Pruning(job, Kept(s.disk), names)))
  {
    assert Next(s, StartPrune(names)) == Some(s.(phase := Pruning(job, Kept(s.disk), names)));
  }

  lemma PrunesOne(s: Sys, job: Job, keep: set<string>, names: seq<string>)
    requires s.phase == Pruning(job, keep, names) && names != [] && names[0] in s.disk.roots && s.disk.roots[names[0]].Link?
    ensures Steps(s, s.(
      disk := s.disk.(roots := if s.disk.roots[names[0]].target in keep then s.disk.roots else s.disk.roots - {names[0]}),
      phase := Pruning(job, keep, names[1..])))
  {
    assert Next(s, PruneOne) == Some(s.(
      disk := s.disk.(roots := if s.disk.roots[names[0]].target in keep then s.disk.roots else s.disk.roots - {names[0]}),
      phase := Pruning(job, keep, names[1..])));
  }

  lemma EndsPrune(s: Sys, job: Job, keep: set<string>)
    requires s.phase == Pruning(job, keep, [])
    ensures Steps(s, s.(phase := match job case Provision(i, t) => Recording(i, t) case Revert => Idle))
  {
    assert Next(s, EndPrune) == Some(s.(phase := match job case Provision(i, t) => Recording(i, t) case Revert => Idle));
  }

  lemma Records(s: Sys, i: string, t: string)
    requires s.phase == Recording(i, t)
    ensures Steps(s, s.(disk := s.disk.(applied := Some(Applied(i, t))), phase := Idle))
  {
    assert Next(s, Record) == Some(s.(disk := s.disk.(applied := Some(Applied(i, t))), phase := Idle));
  }
}
