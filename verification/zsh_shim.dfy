/** The zsh shim: startup files in a directory of Familiar's own that source the
    user's files and assert PATH last. zsh itself is one driver; a native start
    and a start under the shim differ only in the environment they begin with.
    User files are arbitrary functions of what they can see. */
module ZshShim {
  import opened Text
  import PaneShell

  datatype Stage = Zshenv | Zprofile | Zshrc | Zlogin

  /** What user files see and may change. HOME is left alone. */
  datatype View = View(zdotdir: Option<string>, path: string, rest: map<string, string>)

  /** The user's files: which exist in a directory, and what running one does. */
  datatype User = User(home: string, readable: (string, Stage) -> bool, run: (string, Stage, View) -> View)

  /** The shim's directory and the runtime's bin directory. */
  datatype Setup = Setup(zdot: string, bin: string, login: bool)

  /** A user file's turn: its directory, what it sees, and whether it was there. */
  datatype Turn = Turn(stage: Stage, dir: string, seen: View, read: bool)

  /** `zdot` and `user` are _familiar_zdot and _familiar_user_zdot; `passed` is
      FAMILIAR_USER_ZDOTDIR. */
  datatype Shell = Shell(view: View, zdot: Option<string>, user: Option<string>, passed: Option<string>, log: seq<Turn>)

  function Value(v: Option<string>): string {
    match v case None => "" case Some(s) => s
  }

  /** zsh looks for its files in ZDOTDIR, or in HOME when that is unset. */
  function Directory(u: User, v: View): string {
    match v.zdotdir case None => u.home case Some(d) => d
  }

  function Source(u: User, dir: string, stage: Stage, sh: Shell): Shell {
    sh.(log := sh.log + [Turn(stage, dir, sh.view, u.readable(dir, stage))],
        view := if u.readable(dir, stage) then u.run(dir, stage, sh.view) else sh.view)
  }

  // ----- The generated files -----

  function Expose(u: User, sh: Shell): Shell {
    sh.(view := sh.view.(zdotdir := if Value(sh.user) == u.home then None else Some(Value(sh.user))))
  }

  function Hide(sh: Shell): Shell {
    sh.(view := sh.view.(zdotdir := Some(Value(sh.zdot))))
  }

  function Finalize(u: User, bin: string, sh: Shell): Shell {
    var restored := Expose(u, sh);
    restored.(zdot := None, user := None, view := restored.view.(path := PaneShell.AssertSh(bin, restored.view.path)))
  }

  function ShimZshenv(u: User, s: Setup, sh: Shell): Shell {
    var home := if Value(sh.passed) == "" then u.home else Value(sh.passed);
    var ready := Expose(u, sh.(zdot := Some(s.zdot), user := Some(home), passed := None));
    var after := Source(u, home, Zshenv, ready);
    var moved := Value(after.view.zdotdir) != "" && Value(after.view.zdotdir) != s.zdot;
    Hide(if moved then after.(user := after.view.zdotdir) else after)
  }

  function Shim(u: User, s: Setup, stage: Stage, sh: Shell): Shell {
    if stage == Zshenv then ShimZshenv(u, s, sh)
    else
      var after := Source(u, Value(sh.user), stage, Expose(u, sh));
      if stage == Zprofile || (stage == Zshrc && s.login) then Hide(after)
      else Finalize(u, s.bin, after)
  }

  // ----- zsh, and the launcher -----

  /** zsh reading one startup file: the shim's when it finds itself there. */
  function Read(u: User, s: Setup, stage: Stage, sh: Shell): Shell {
    var dir := Directory(u, sh.view);
    if dir == s.zdot then Shim(u, s, stage, sh) else Source(u, dir, stage, sh)
  }

  /** An interactive start. */
  function Start(u: User, s: Setup, sh: Shell): Shell {
    var env := Read(u, s, Zshenv, sh);
    if s.login
    then Read(u, s, Zlogin, Read(u, s, Zshrc, Read(u, s, Zprofile, env)))
    else Read(u, s, Zshrc, env)
  }

  function Native(v: View): Shell {
    Shell(v, None, None, None, [])
  }

  /** The launcher's environment: it remembers the user's ZDOTDIR and sets its own. */
  function Launched(u: User, s: Setup, v: View, inherited: Option<string>): Shell {
    var z := Value(v.zdotdir);
    var passed :=
      if z != "" && z != s.zdot then Some(z)
      else if z != s.zdot || Value(inherited) == "" then Some(u.home)
      else inherited;
    Shell(v.(zdotdir := Some(s.zdot)), None, None, passed, [])
  }

  // ----- Simulation -----

  /** Only .zshenv moves ZDOTDIR. */
  ghost predicate OnlyZshenvMoves(u: User) {
    forall dir, stage, v | stage != Zshenv :: u.run(dir, stage, v).zdotdir == v.zdotdir
  }

  /** HOME and the shim's directory are names of their own, and what is inherited
      as the user's directory is not the shim's. */
  predicate Homes(u: User, s: Setup, inherited: Option<string>) {
    u.home != "" && s.zdot != "" && s.zdot != u.home && inherited != Some(s.zdot)
  }

  /** The environment to compare with. A launch from inside the shim, where ZDOTDIR
      is the shim's directory, continues the launch that set it, whose user
      directory is inherited. */
  function Original(u: User, s: Setup, v: View, inherited: Option<string>): View {
    if v.zdotdir != Some(s.zdot) then v
    else v.(zdotdir := if Value(inherited) == "" || inherited == Some(u.home) then None else inherited)
  }

  /** Between files: the shell under the shim is the native one but for ZDOTDIR,
      which the helper variable stands in for. */
  predicate Shadow(u: User, s: Setup, n: Shell, sh: Shell) {
    && sh.zdot == Some(s.zdot) && sh.user.Some? && sh.passed.None? && sh.log == n.log
    && sh.view == n.view.(zdotdir := Some(s.zdot))
    && n.view.zdotdir == (if sh.user == Some(u.home) then None else sh.user)
    && n.view.zdotdir != Some("") && n.view.zdotdir != Some(s.zdot)
  }

  predicate Finished(s: Setup, n: Shell, sh: Shell) {
    && sh.zdot.None? && sh.user.None? && sh.passed.None? && sh.log == n.log
    && sh.view == n.view.(path := PaneShell.AssertSh(s.bin, n.view.path))
  }

  lemma StageKeepsShadow(u: User, s: Setup, stage: Stage, n: Shell, sh: Shell)
    requires s.zdot != u.home && OnlyZshenvMoves(u) && Shadow(u, s, n, sh) && stage != Zshenv
    ensures var n', sh' := Read(u, s, stage, n), Read(u, s, stage, sh);
      if stage == Zprofile || (stage == Zshrc && s.login) then Shadow(u, s, n', sh') else Finished(s, n', sh')
  {
    var dir := Value(sh.user);
    assert Directory(u, n.view) == dir;
    assert Expose(u, sh).view == n.view;
  }

  /** After .zshenv: what the user's file left in ZDOTDIR. */
  function Settled(u: User, s: Setup, v: View): Option<string> {
    Read(u, s, Zshenv, Native(v)).view.zdotdir
  }

  /** ZDOTDIR is never empty or HOME itself, and a custom one is not unset. */
  predicate Faithful(u: User, s: Setup, v: View) {
    && v.zdotdir != Some(u.home) && v.zdotdir != Some("")
    && Settled(u, s, v) != Some(u.home) && Settled(u, s, v) != Some("")
    && (Settled(u, s, v).None? ==> v.zdotdir.None?)
  }

  /** The launcher makes no difference between an environment and its original. */
  lemma LaunchedAsOriginal(u: User, s: Setup, v: View, inherited: Option<string>)
    requires Homes(u, s, inherited)
    ensures Launched(u, s, v, inherited) == Launched(u, s, Original(u, s, v, inherited), inherited)
    ensures Original(u, s, v, inherited).zdotdir != Some(s.zdot)
  {}

  /** A set but empty ZDOTDIR launches as an unset one. */
  lemma EmptyLaunchesAsUnset(u: User, s: Setup, v: View, inherited: Option<string>)
    requires Homes(u, s, inherited) && v.zdotdir == Some("")
    ensures Launched(u, s, v, inherited) == Launched(u, s, v.(zdotdir := None), inherited)
  {}

  lemma ZshenvShadows(u: User, s: Setup, v: View, inherited: Option<string>)
    requires Homes(u, s, inherited) && v.zdotdir != Some(s.zdot) && Settled(u, s, v) != Some(s.zdot) && Faithful(u, s, v)
    ensures Shadow(u, s, Read(u, s, Zshenv, Native(v)), Read(u, s, Zshenv, Launched(u, s, v, inherited)))
  {
    var l := Launched(u, s, v, inherited);
    var home := Value(l.passed);
    assert home == Directory(u, v);
    var ready := Expose(u, l.(zdot := Some(s.zdot), user := Some(home), passed := None));
    assert ready.view == v;
  }

  lemma LogsGrow(u: User, s: Setup, stage: Stage, sh: Shell)
    ensures |Read(u, s, stage, sh).log| == |sh.log| + 1 && sh.log <= Read(u, s, stage, sh).log
  {}

  lemma UnfaithfulStartShows(u: User, s: Setup, v: View, inherited: Option<string>)
    requires Homes(u, s, inherited) && v.zdotdir != Some(s.zdot) && (v.zdotdir == Some(u.home) || v.zdotdir == Some(""))
    ensures Read(u, s, Zshenv, Native(v)).log != Read(u, s, Zshenv, Launched(u, s, v, inherited)).log
  {
    var n1, l1 := Read(u, s, Zshenv, Native(v)), Read(u, s, Zshenv, Launched(u, s, v, inherited));
    assert n1.log[0].seen == v;
    assert l1.log[0].seen.zdotdir == None;
  }

  lemma UnfaithfulMoveShows(u: User, s: Setup, v: View, inherited: Option<string>)
    requires Homes(u, s, inherited) && v.zdotdir != Some(s.zdot) && Settled(u, s, v) != Some(s.zdot)
    requires v.zdotdir != Some(u.home) && v.zdotdir != Some("") && !Faithful(u, s, v)
    ensures var n1, l1 := Read(u, s, Zshenv, Native(v)), Read(u, s, Zshenv, Launched(u, s, v, inherited));
      forall stage | stage != Zshenv :: Read(u, s, stage, n1).log[1] != Read(u, s, stage, l1).log[1]
  {
    var l := Launched(u, s, v, inherited);
    var n1, l1 := Read(u, s, Zshenv, Native(v)), Read(u, s, Zshenv, l);
    assert Expose(u, l.(zdot := Some(s.zdot), user := Some(Value(l.passed)), passed := None)).view == v;
    forall stage | stage != Zshenv ensures Read(u, s, stage, n1).log[1] != Read(u, s, stage, l1).log[1] {
      assert Read(u, s, stage, n1).log[1].seen == n1.view;
      assert Read(u, s, stage, l1).log[1].seen == Expose(u, l1).view;
    }
  }

  lemma StartLogs(u: User, s: Setup, sh: Shell)
    ensures var env := Read(u, s, Zshenv, sh);
      var next := Read(u, s, if s.login then Zprofile else Zshrc, env);
      env.log <= next.log <= Start(u, s, sh).log
  {
    var env := Read(u, s, Zshenv, sh);
    LogsGrow(u, s, Zshenv, sh);
    if s.login {
      var p := Read(u, s, Zprofile, env);
      var r := Read(u, s, Zshrc, p);
      LogsGrow(u, s, Zprofile, env);
      LogsGrow(u, s, Zshrc, p);
      LogsGrow(u, s, Zlogin, r);
    } else {
      LogsGrow(u, s, Zshrc, env);
    }
  }

  lemma FaithfulFinishes(u: User, s: Setup, v: View, inherited: Option<string>)
    requires Homes(u, s, inherited) && OnlyZshenvMoves(u)
    requires v.zdotdir != Some(s.zdot) && Settled(u, s, v) != Some(s.zdot) && Faithful(u, s, v)
    ensures Finished(s, Start(u, s, Native(v)), Start(u, s, Launched(u, s, v, inherited)))
  {
    var n1, l1 := Read(u, s, Zshenv, Native(v)), Read(u, s, Zshenv, Launched(u, s, v, inherited));
    ZshenvShadows(u, s, v, inherited);
    if s.login {
      var n2, l2 := Read(u, s, Zprofile, n1), Read(u, s, Zprofile, l1);
      StageKeepsShadow(u, s, Zprofile, n1, l1);
      StageKeepsShadow(u, s, Zshrc, n2, l2);
      StageKeepsShadow(u, s, Zlogin, Read(u, s, Zshrc, n2), Read(u, s, Zshrc, l2));
    } else {
      StageKeepsShadow(u, s, Zshrc, n1, l1);
    }
  }

  lemma UnfaithfulDiffers(u: User, s: Setup, v: View, inherited: Option<string>)
    requires Homes(u, s, inherited) && v.zdotdir != Some(s.zdot) && Settled(u, s, v) != Some(s.zdot) && !Faithful(u, s, v)
    ensures Start(u, s, Launched(u, s, v, inherited)).log != Start(u, s, Native(v)).log
  {
    var l := Launched(u, s, v, inherited);
    var n1, l1 := Read(u, s, Zshenv, Native(v)), Read(u, s, Zshenv, l);
    var next := if s.login then Zprofile else Zshrc;
    StartLogs(u, s, Native(v));
    StartLogs(u, s, l);
    LogsGrow(u, s, Zshenv, Native(v));
    LogsGrow(u, s, Zshenv, l);
    LogsGrow(u, s, next, n1);
    LogsGrow(u, s, next, l1);
    if v.zdotdir == Some(u.home) || v.zdotdir == Some("") {
      UnfaithfulStartShows(u, s, v, inherited);
    } else {
      UnfaithfulMoveShows(u, s, v, inherited);
    }
  }

  /** For arbitrary user files of which only .zshenv moves ZDOTDIR, and not to the
      shim's directory, login or not, launched from anywhere: the same files run
      once each, in the same order, seeing the same environment, exactly when
      ZDOTDIR is never empty or spelled as HOME itself and .zshenv does not unset a
      custom one. Then ZDOTDIR ends as natively, the helper variables are gone, and
      PATH is the native one with the assertion applied last. */
  lemma ShimSimulatesZsh(u: User, s: Setup, v: View, inherited: Option<string>)
    requires Homes(u, s, inherited) && OnlyZshenvMoves(u)
    requires Settled(u, s, Original(u, s, v, inherited)) != Some(s.zdot)
    ensures var o := Original(u, s, v, inherited);
      var n, sh := Start(u, s, Native(o)), Start(u, s, Launched(u, s, v, inherited));
      && (sh.log == n.log <==> Faithful(u, s, o))
      && (Faithful(u, s, o) ==> Finished(s, n, sh))
  {
    var o := Original(u, s, v, inherited);
    LaunchedAsOriginal(u, s, v, inherited);
    if Faithful(u, s, o) {
      FaithfulFinishes(u, s, o, inherited);
    } else {
      UnfaithfulDiffers(u, s, o, inherited);
    }
  }

  // ----- The runtime comes first, whatever happens -----

  /** Under the shim, between files: zsh looks in the shim's directory. */
  predicate InShim(s: Setup, sh: Shell) {
    sh.view.zdotdir == Some(s.zdot) && sh.zdot == Some(s.zdot)
  }

  predicate RunsFirst(s: Setup, sh: Shell) {
    && PaneShell.Entries(sh.view.path) != [] && PaneShell.Entries(sh.view.path)[0] == s.bin
    && sh.zdot.None? && sh.user.None?
  }

  lemma StageEnds(u: User, s: Setup, stage: Stage, sh: Shell)
    requires InShim(s, sh) && stage != Zshenv && s.bin != "" && ':' !in s.bin
    ensures var sh' := Read(u, s, stage, sh);
      if stage == Zprofile || (stage == Zshrc && s.login) then InShim(s, sh') else RunsFirst(s, sh')
  {
    var after := Source(u, Value(sh.user), stage, Expose(u, sh));
    PaneShell.AssertionWins(s.bin, Expose(u, after).view.path);
  }

  /** Whatever the user's files do, wherever they are and whatever the launcher
      inherits: at the end the runtime's bin is the first entry of PATH and the
      helper variables are gone. */
  lemma RuntimeFirst(u: User, s: Setup, v: View, inherited: Option<string>)
    requires s.bin != "" && ':' !in s.bin
    ensures RunsFirst(s, Start(u, s, Launched(u, s, v, inherited)))
  {
    var l := Launched(u, s, v, inherited);
    var env := Read(u, s, Zshenv, l);
    assert InShim(s, env);
    if s.login {
      var p := Read(u, s, Zprofile, env);
      StageEnds(u, s, Zprofile, env);
      StageEnds(u, s, Zshrc, p);
      StageEnds(u, s, Zlogin, Read(u, s, Zshrc, p));
    } else {
      StageEnds(u, s, Zshrc, env);
    }
  }
}
