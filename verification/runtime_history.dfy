/** What the history of a run is evidence of, what its steps refuse, and what the
    safety of the pointers comes to in plain terms. */
module RuntimeHistory {
  import opened Text
  import opened FilePath
  import opened RuntimeRuns
  import opened RuntimeSteps

  // ----- Milestones are facts of the run -----

  /** What a milestone of (installable, output) stands for, at a step from `s`. */
  predicate Happened(m: Milestone, i: string, t: string, s: Sys, l: Label) {
    match m
    case Built => s.phase == Building(i) && l == Build(t)
    case Checked => s.phase == Vetting(i, t) && l.Vet? && t in s.disk.usable && t != "" && t[0] == '/'
    case Smoked => s.phase == Smoking(i, t) && l.Smoke? && t in s.disk.starts
    case Activated =>
      && (s.phase == Ready(Provision(i, t), t) || s.phase == Placing(Provision(i, t), Clean(t)))
      && Next(s, l).Some? && Next(s, l).value.disk.current == Some(Link(Clean(t)))
  }

  predicate Occurred(m: Milestone, i: string, t: string, s: Sys, ls: seq<Label>)
    decreases |ls|
  {
    if ls == [] then false
    else Happened(m, i, t, s, ls[0]) || (Next(s, ls[0]).Some? && Occurred(m, i, t, Next(s, ls[0]).value, ls[1..]))
  }

  lemma ActivationHappens(s: Sys, l: Label, i: string, t: string)
    requires Inv(s) && Next(s, l).Some?
    requires (Activated, i, t) in Next(s, l).value.trail && (Activated, i, t) !in s.trail
    ensures Happened(Activated, i, t, s, l)
  {
    match l
    case Enter =>
      assert Next(s, l) == EnterStep(s, s.phase.job, Clean(s.phase.raw));
      assert s.phase.job == Provision(i, t);
    case Promote => assert s.phase.job == Provision(i, t);
    case _ =>
  }

  lemma OtherHappens(s: Sys, l: Label, m: Milestone, i: string, t: string)
    requires Next(s, l).Some? && m != Activated
    requires (m, i, t) in Next(s, l).value.trail && (m, i, t) !in s.trail
    ensures Happened(m, i, t, s, l)
  {}

  lemma StepHappens(s: Sys, l: Label, m: Milestone, i: string, t: string)
    requires Inv(s) && Next(s, l).Some?
    requires (m, i, t) in Next(s, l).value.trail && (m, i, t) !in s.trail
    ensures Happened(m, i, t, s, l)
  {
    if m == Activated { ActivationHappens(s, l, i, t); } else { OtherHappens(s, l, m, i, t); }
  }

  /** Nothing enters the history but by happening. */
  lemma {:induction false} TrailIsTrue(s: Sys, ls: seq<Label>, m: Milestone, i: string, t: string)
    requires Inv(s) && Exec(s, ls).Some? && (m, i, t) in Exec(s, ls).value.trail && (m, i, t) !in s.trail
    ensures Occurred(m, i, t, s, ls)
    decreases |ls|
  {
    if ls == [] {
    } else {
      var next := Next(s, ls[0]).value;
      StepKeeps(s, ls[0]);
      if (m, i, t) in next.trail {
        StepHappens(s, ls[0], m, i, t);
      } else {
        TrailIsTrue(next, ls[1..], m, i, t);
      }
    }
  }

  ghost predicate ActivatedAreVetted(s: Sys) {
    forall i, t | (Activated, i, t) in s.trail :: Vetted(s, i, t)
  }

  lemma StepTrailGrows(s: Sys, l: Label)
    requires Next(s, l).Some?
    ensures s.trail <= Next(s, l).value.trail
  {
    if l.Enter? { EnterKeepsDisk(s, s.phase.job, Clean(s.phase.raw)); }
  }

  lemma StepVetted(s: Sys, l: Label)
    requires Inv(s) && ActivatedAreVetted(s) && Next(s, l).Some?
    ensures ActivatedAreVetted(Next(s, l).value)
  {
    var next := Next(s, l).value;
    StepTrailGrows(s, l);
    forall i, t | (Activated, i, t) in next.trail ensures Vetted(next, i, t) {
      if (Activated, i, t) !in s.trail {
        ActivationHappens(s, l, i, t);
        assert Vetted(s, i, t);
      }
    }
  }

  lemma {:induction false} RunVetted(s: Sys, ls: seq<Label>)
    requires Inv(s) && ActivatedAreVetted(s) && Exec(s, ls).Some?
    ensures ActivatedAreVetted(Exec(s, ls).value)
    decreases |ls|
  {
    if ls == [] {
    } else {
      StepKeeps(s, ls[0]);
      StepVetted(s, ls[0]);
      RunVetted(Next(s, ls[0]).value, ls[1..]);
    }
  }

  /** Every target an apply made current had been built for that installable, was
      found usable, and started when it was smoked, all within the run. */
  lemma ActivatedHadStarted(s0: Sys, ls: seq<Label>, i: string, t: string)
    requires Fresh(s0) && Exec(s0, ls).Some? && (Activated, i, t) in Exec(s0, ls).value.trail
    ensures Occurred(Built, i, t, s0, ls) && Occurred(Checked, i, t, s0, ls)
    ensures Occurred(Smoked, i, t, s0, ls) && Occurred(Activated, i, t, s0, ls)
  {
    RunVetted(s0, ls);
    TrailIsTrue(s0, ls, Built, i, t);
    TrailIsTrue(s0, ls, Checked, i, t);
    TrailIsTrue(s0, ls, Smoked, i, t);
    TrailIsTrue(s0, ls, Activated, i, t);
  }

  /** A skip rests on such an activation. */
  lemma SkipHadStarted(s0: Sys, ls: seq<Label>, i: string)
    requires Fresh(s0) && Exec(s0, ls).Some? && Satisfied(Exec(s0, ls).value.disk, i).Some?
    ensures Occurred(Smoked, i, Satisfied(Exec(s0, ls).value.disk, i).value, s0, ls)
  {
    RunKeeps(s0, ls);
    ActivatedHadStarted(s0, ls, i, Satisfied(Exec(s0, ls).value.disk, i).value);
  }

  // ----- What no step does -----

  lemma StepLeavesOthers(s: Sys, l: Label)
    requires Next(s, l).Some?
    ensures s.disk.current == Some(Other) ==> Next(s, l).value.disk.current == Some(Other)
    ensures s.disk.previous == Some(Other) ==> Next(s, l).value.disk.previous == Some(Other)
  {
    if l.Enter? { EnterKeepsDisk(s, s.phase.job, Clean(s.phase.raw)); }
  }

  lemma StepLeavesOtherRoots(s: Sys, l: Label, b: string)
    requires Next(s, l).Some? && b in s.disk.roots && s.disk.roots[b] == Other
    ensures b in Next(s, l).value.disk.roots && Next(s, l).value.disk.roots[b] == Other
  {
    if l.Enter? { EnterKeepsDisk(s, s.phase.job, Clean(s.phase.raw)); }
  }

  /** Over whole runs nothing but a symlink is ever replaced or removed. */
  lemma {:induction false} NonLinksStay(s: Sys, ls: seq<Label>, b: string)
    requires Exec(s, ls).Some?
    ensures s.disk.current == Some(Other) ==> Exec(s, ls).value.disk.current == Some(Other)
    ensures s.disk.previous == Some(Other) ==> Exec(s, ls).value.disk.previous == Some(Other)
    ensures b in s.disk.roots && s.disk.roots[b] == Other ==>
      b in Exec(s, ls).value.disk.roots && Exec(s, ls).value.disk.roots[b] == Other
    decreases |ls|
  {
    if ls == [] {
    } else {
      StepLeavesOthers(s, ls[0]);
      if b in s.disk.roots && s.disk.roots[b] == Other { StepLeavesOtherRoots(s, ls[0], b); }
      NonLinksStay(Next(s, ls[0]).value, ls[1..], b);
    }
  }

  lemma HonoursWithout(d: Disk, t: string)
    requires t in d.usable
    ensures Honours(d, d.usable - {t}) <==> !(IsStorePath(t) && Clean(t) == t && Rooted(d, t))
  {
    assert t !in d.usable - {t};
    assert forall u | u in d.usable && u != t :: u in d.usable - {t};
  }

  lemma OutsideIff(s: Sys, usable: set<string>)
    ensures Next(s, Outside(usable, s.disk.starts)).Some? <==> Honours(s.disk, usable)
  {}

  /** The collector is as free as a collector is: it may take away any output but a
      store output with a root of its own. */
  lemma CollectorMayTake(s: Sys, t: string)
    requires t in s.disk.usable
    ensures Next(s, Outside(s.disk.usable - {t}, s.disk.starts)).Some?
      <==> !(Clean(t) == t && Dir(t) == "/nix/store" && Base(t) in s.disk.roots && s.disk.roots[Base(t)] == Link(t))
  {
    OutsideIff(s, s.disk.usable - {t});
    HonoursWithout(s.disk, t);
  }

  // ----- Safety in plain terms -----

  /** In every reachable state a pointer at a store output has its own root link, and
      the output is there, with its executable, under a name no shell can misread. */
  lemma PointersInPlainTerms(s: Sys, t: string)
    requires Reachable(s) && (s.disk.current == Some(Link(t)) || s.disk.previous == Some(Link(t)))
    requires Dir(Clean(t)) == "/nix/store"
    ensures Clean(t) == t && t in s.disk.usable
    ensures Base(t) in s.disk.roots && s.disk.roots[Base(t)] == Link(t)
    ensures ':' !in t && '\r' !in t && '\n' !in t && '\'' !in t && '"' !in t && '$' !in t && '`' !in t && '\\' !in t
  {
    PointersStaySafe(s);
    assert StoreSafe(s.disk, t) && IsStorePath(t);
    SafeTextMeans(t);
  }

  lemma SafeTextMeans(t: string)
    requires SafeText(t)
    ensures ':' !in t && '\r' !in t && '\n' !in t && '\'' !in t && '"' !in t && '$' !in t && '`' !in t && '\\' !in t
  {
    var unsafe := UNSAFE;
    assert unsafe[0] == ':' && unsafe[1] == '\r' && unsafe[2] == '\n' && unsafe[3] == '\'';
    assert unsafe[4] == '"' && unsafe[5] == '$' && unsafe[6] == '`' && unsafe[7] == '\\';
  }
}
