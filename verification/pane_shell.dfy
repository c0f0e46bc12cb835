/** The pane launcher: the command line it ends with, for every shell family,
    and the PATH assertion every generated startup file ends with. */
module PaneShell {
  import opened Text
  import opened Quoting
  import FilePath

  // ----- The launcher's last line -----

  datatype Family = Bash | Zsh | Fish | Posix | Unknown

  function Classify(shell: string): Family {
    var name := FilePath.Base(shell);
    if name == "bash" then Bash
    else if name == "zsh" then Zsh
    else if name == "fish" then Fish
    else if name in ["sh", "dash", "ksh", "ksh93", "mksh", "oksh", "ash", "busybox"] then Posix
    else Unknown
  }

  /** The command fish runs after its own configuration. */
  function FishAssertion(bin: string): string {
    "if test (count $PATH) -eq 0 -o \"$PATH[1]\" != " + ShellQuote(bin)
    + "; set -gx PATH " + ShellQuote(bin) + " $PATH; end"
  }

  /** The line as the generator concatenates it. */
  function ExecLine(family: Family, shell: string, login: bool, rcfile: string, bin: string): string {
    match family
    case Bash => "exec " + ShellQuote(shell) + " --rcfile " + ShellQuote(rcfile) + " -i \"$@\""
    case Fish =>
      "exec " + ShellQuote(shell) + (if login then " -l" else "") + " -C " + ShellQuote(FishAssertion(bin)) + " \"$@\""
    case _ => "exec " + ShellQuote(shell) + (if login then " -l \"$@\"" else " \"$@\"")
  }

  /** The same line, argument by argument. */
  function ExecArgs(family: Family, shell: string, login: bool, rcfile: string, bin: string): seq<Arg> {
    match family
    case Bash => [Word("exec"), Quoted(shell), Word("--rcfile"), Quoted(rcfile), Word("-i")]
    case Fish =>
      if login then [Word("exec"), Quoted(shell), Word("-l"), Word("-C"), Quoted(FishAssertion(bin))]
      else [Word("exec"), Quoted(shell), Word("-C"), Quoted(FishAssertion(bin))]
    case _ => if login then [Word("exec"), Quoted(shell), Word("-l")] else [Word("exec"), Quoted(shell)]
  }

  lemma Written2(a: Arg, b: Arg)
    ensures Write([a, b]) == WriteArg(a) + " " + (WriteArg(b) + " " + "\"$@\"")
  {
    assert [a, b][1..] == [b] && [b][1..] == [];
    assert Write([b]) == WriteArg(b) + " " + Write([]);
  }

  lemma Written3(a: Arg, b: Arg, c: Arg)
    ensures Write([a, b, c]) == WriteArg(a) + " " + (WriteArg(b) + " " + (WriteArg(c) + " " + "\"$@\""))
  {
    assert [a, b, c][1..] == [b, c];
    Written2(b, c);
  }

  lemma Written45(a: Arg, b: Arg, c: Arg, d: Arg, e: Arg)
    ensures Write([a, b, c, d]) == WriteArg(a) + " " + Write([b, c, d])
    ensures Write([a, b, c, d, e]) == WriteArg(a) + " " + (WriteArg(b) + " " + Write([c, d, e]))
  {
    assert [a, b, c, d][1..] == [b, c, d];
    assert [a, b, c, d, e][1..] == [b, c, d, e] && [b, c, d, e][1..] == [c, d, e];
    assert Write([b, c, d, e]) == WriteArg(b) + " " + Write([c, d, e]);
  }

  lemma PlainText(q: string)
    ensures "exec" + " " + (q + " " + "\"$@\"") == "exec " + q + " \"$@\""
    ensures "exec" + " " + (q + " " + ("-l" + " " + "\"$@\"")) == "exec " + q + " -l \"$@\""
  {}

  lemma BashText(q: string, r: string)
    ensures "exec" + " " + (q + " " + ("--rcfile" + " " + (r + " " + ("-i" + " " + "\"$@\""))))
         == "exec " + q + " --rcfile " + r + " -i \"$@\""
  {}

  lemma FishText(q: string, r: string)
    ensures "exec" + " " + (q + " " + ("-C" + " " + (r + " " + "\"$@\""))) == "exec " + q + "" + " -C " + r + " \"$@\""
    ensures "exec" + " " + (q + " " + ("-l" + " " + ("-C" + " " + (r + " " + "\"$@\""))))
         == "exec " + q + " -l" + " -C " + r + " \"$@\""
  {}

  lemma BashWritten(shell: string, rcfile: string)
    ensures Write([Word("exec"), Quoted(shell), Word("--rcfile"), Quoted(rcfile), Word("-i")])
         == "exec " + ShellQuote(shell) + " --rcfile " + ShellQuote(rcfile) + " -i \"$@\""
  {
    Written45(Word("exec"), Quoted(shell), Word("--rcfile"), Quoted(rcfile), Word("-i"));
    Written3(Word("--rcfile"), Quoted(rcfile), Word("-i"));
    BashText(ShellQuote(shell), ShellQuote(rcfile));
  }

  lemma FishWritten(shell: string, command: string)
    ensures Write([Word("exec"), Quoted(shell), Word("-C"), Quoted(command)])
         == "exec " + ShellQuote(shell) + "" + " -C " + ShellQuote(command) + " \"$@\""
    ensures Write([Word("exec"), Quoted(shell), Word("-l"), Word("-C"), Quoted(command)])
         == "exec " + ShellQuote(shell) + " -l" + " -C " + ShellQuote(command) + " \"$@\""
  {
    Written45(Word("exec"), Quoted(shell), Word("-C"), Quoted(command), Word(""));
    Written45(Word("exec"), Quoted(shell), Word("-l"), Word("-C"), Quoted(command));
    Written3(Quoted(shell), Word("-C"), Quoted(command));
    Written3(Word("-l"), Word("-C"), Quoted(command));
    FishText(ShellQuote(shell), ShellQuote(command));
  }

  lemma PlainWritten(shell: string)
    ensures Write([Word("exec"), Quoted(shell)]) == "exec " + ShellQuote(shell) + " \"$@\""
    ensures Write([Word("exec"), Quoted(shell), Word("-l")]) == "exec " + ShellQuote(shell) + " -l \"$@\""
  {
    Written2(Word("exec"), Quoted(shell));
    Written3(Word("exec"), Quoted(shell), Word("-l"));
    PlainText(ShellQuote(shell));
  }

  lemma ExecLineWritten(family: Family, shell: string, login: bool, rcfile: string, bin: string)
    ensures ExecLine(family, shell, login, rcfile, bin) == Write(ExecArgs(family, shell, login, rcfile, bin))
  {
    match family
    case Bash => BashWritten(shell, rcfile);
    case Fish => FishWritten(shell, FishAssertion(bin));
    case _ => PlainWritten(shell);
  }

  predicate Flag(w: string) {
    w == "exec" || w == "--rcfile" || w == "-i" || w == "-l" || w == "-C"
  }

  lemma FlagsAreBare(w: string)
    requires Flag(w)
    ensures w != "" && Bare(w)
  {}

  predicate Flagged(args: seq<Arg>) {
    forall i | 0 <= i < |args| && args[i].Word? :: Flag(args[i].text)
  }

  /** What the launcher is meant to run. */
  function Intended(family: Family, shell: string, login: bool, rcfile: string, bin: string): seq<string> {
    match family
    case Bash => ["exec", shell, "--rcfile", rcfile, "-i"]
    case Fish => ["exec", shell] + (if login then ["-l"] else []) + ["-C", FishAssertion(bin)]
    case _ => ["exec", shell] + (if login then ["-l"] else [])
  }

  lemma RunsAs(args: seq<Arg>, given: seq<string>, want: seq<string>)
    requires Flagged(args) && |want| == |args|
    requires forall i | 0 <= i < |args| :: want[i] == args[i].text
    ensures Argv(Write(args), given) == Some(want + given)
  {
    forall i | 0 <= i < |args| && args[i].Word? ensures args[i].text != "" && Bare(args[i].text) {
      FlagsAreBare(args[i].text);
    }
    LineRoundTrip(args, given);
    TextsSplit(args);
    assert Texts(args) == want;
  }

  lemma ArgsMatch(family: Family, shell: string, login: bool, rcfile: string, bin: string)
    ensures var args, want := ExecArgs(family, shell, login, rcfile, bin), Intended(family, shell, login, rcfile, bin);
      Flagged(args) && |want| == |args| && forall i | 0 <= i < |args| :: want[i] == args[i].text
  {}

  /** For every shell path, its family and either login choice, a shell reads the
      generated line as exactly the intended arguments followed by the launcher's
      own. For fish the whole assertion, quotes and all, is one argument. */
  lemma ExecLineRuns(shell: string, login: bool, rcfile: string, bin: string, given: seq<string>)
    ensures var family := Classify(shell);
      Argv(ExecLine(family, shell, login, rcfile, bin), given) == Some(Intended(family, shell, login, rcfile, bin) + given)
  {
    FamilyLineRuns(Classify(shell), shell, login, rcfile, bin, given);
  }

  lemma FamilyLineRuns(family: Family, shell: string, login: bool, rcfile: string, bin: string, given: seq<string>)
    ensures Argv(ExecLine(family, shell, login, rcfile, bin), given)
         == Some(Intended(family, shell, login, rcfile, bin) + given)
  {
    ExecLineWritten(family, shell, login, rcfile, bin);
    ArgsMatch(family, shell, login, rcfile, bin);
    RunsAs(ExecArgs(family, shell, login, rcfile, bin), given, Intended(family, shell, login, rcfile, bin));
  }

  lemma {:induction false} TextsSplit(args: seq<Arg>)
    ensures Texts(args) == seq(|args|, i requires 0 <= i < |args| => args[i].text)
  {
    if args == [] {
    } else {
      TextsSplit(args[1..]);
    }
  }

  /** The state-owned herdr wrapper runs the pinned executable with its own arguments. */
  lemma WrapperRuns(herdr: string, given: seq<string>)
    ensures Argv("exec " + ShellQuote(herdr) + " \"$@\"", given) == Some(["exec", herdr] + given)
  {
    var args := [Word("exec"), Quoted(herdr)];
    PlainWritten(herdr);
    RunsAs(args, given, ["exec", herdr]);
  }

  // ----- The PATH assertion -----

  /** The sh form: a case pattern on ":$PATH:", then a prefix when it fails. */
  function AssertSh(bin: string, path: string): string {
    if ":" + bin + ":" <= ":" + path + ":" then path
    else if path == "" then bin
    else bin + ":" + path
  }

  /** The fish form, on fish's own list. */
  function AssertFish(bin: string, entries: seq<string>): seq<string> {
    if entries == [] || entries[0] != bin then [bin] + entries else entries
  }

  function Entries(path: string): seq<string> {
    if path == "" then [] else Split(path, ':')
  }

  lemma {:induction false} PrefixIsFirstEntry(bin: string, path: string)
    requires ':' !in bin
    ensures bin + ":" <= path + ":" <==> Split(path, ':')[0] == bin
  {
    var p, q := bin + ":", path + ":";
    if bin == "" {
      assert p <= q <==> q[0] == ':';
    } else {
      assert p[0] == bin[0] && bin[0] in bin;
      if path != "" && bin[0] == path[0] {
        PrefixIsFirstEntry(bin[1..], path[1..]);
        assert bin == [bin[0]] + bin[1..];
        PrefixCons(bin[0], bin[1..] + ":", path[1..] + ":");
        assert p == [bin[0]] + (bin[1..] + ":") && q == [bin[0]] + (path[1..] + ":");
      } else {
        assert p[0] != q[0];
      }
    }
  }

  lemma PrefixCons(c: char, a: string, b: string)
    ensures [c] + a <= [c] + b <==> a <= b
  {
    if [c] + a <= [c] + b {
      forall i | 0 <= i < |a| ensures a[i] == b[i] {
        assert a[i] == ([c] + a)[i + 1] == ([c] + b)[i + 1];
      }
    }
  }

  /** The pattern matches exactly when `bin` is the first entry. */
  lemma PatternIsFirstEntry(bin: string, path: string)
    requires bin != "" && ':' !in bin
    ensures ":" + bin + ":" <= ":" + path + ":" <==> Entries(path) != [] && Entries(path)[0] == bin
  {
    PrefixIsFirstEntry(bin, path);
    assert (":" + bin + ":")[1..] == bin + ":" && (":" + path + ":")[1..] == path + ":";
  }

  /** The assertion puts the runtime's bin first, keeps every old entry behind it,
      changes nothing when it is first already, and so is idempotent; the sh and
      fish forms agree entry by entry. */
  lemma AssertionWins(bin: string, path: string)
    requires bin != "" && ':' !in bin
    ensures var after := Entries(AssertSh(bin, path));
      && after == AssertFish(bin, Entries(path))
      && after != [] && after[0] == bin
      && (after == Entries(path) || after == [bin] + Entries(path))
    ensures AssertSh(bin, path) == path <==> Entries(path) != [] && Entries(path)[0] == bin
    ensures AssertSh(bin, AssertSh(bin, path)) == AssertSh(bin, path)
  {
    PatternIsFirstEntry(bin, path);
    SplitAtomic(bin, ':');
    SplitConcat(bin, path, ':');
    assert bin + ":" + path == bin + [':'] + path;
    PatternIsFirstEntry(bin, AssertSh(bin, path));
    if !(":" + bin + ":" <= ":" + path + ":") {
      assert |AssertSh(bin, path)| > |path|;
    }
  }
}
