/** The merge of Familiar's [terminal] settings into the user's Herdr
    configuration, under the client's own line scanner (not full TOML). */
module HerdrConfig {
  import opened Text
  import opened Words
  import opened Quoting
  import opened LineMerge

  /** The table the client writes into. */
  const TABLE := "terminal"

  // ----- The scanner -----

  /** The name in a [table] header line, after trimming. */
  function TableHeader(trimmed: string): Option<string> {
    if trimmed == "" || trimmed[0] != '[' || (|trimmed| > 1 && trimmed[1] == '[') then None
    else
      var end := IndexOf(trimmed, ']');
      if end == |trimmed| then None else Some(TrimSpace(trimmed[1..end]))
  }

  /** The key of an assignment line, or "" for anything else. */
  function Key(trimmed: string): string {
    if trimmed == "" || trimmed[0] == '#' then ""
    else
      var eq := IndexOf(trimmed, '=');
      if eq == |trimmed| then "" else TrimSpace(trimmed[..eq])
  }

  /** How the scanner takes a line, inside or outside the terminal table. */
  function KindOf(inTerminal: bool, line: string): Kind {
    var trimmed := TrimSpace(line);
    match TableHeader(trimmed)
    case Some(name) => Header(name == TABLE)
    case None =>
      var key := Key(trimmed);
      if inTerminal && (key == "default_shell" || key == "shell_mode") then Managed
      else if !inTerminal && (key == "terminal.default_shell" || key == "terminal.shell_mode") then Managed
      else Kept
  }

  function KeyOf(line: string): string {
    Key(TrimSpace(line))
  }

  const HERDR := Scanner(KindOf, KeyOf)

  /** What the client manages: a comment line, the launcher and the shell mode. */
  datatype Managing = Managing(note: string, paneShell: string, mode: string)

  function Familiar(paneShell: string): Managing {
    Managing("# Managed by familiar-fleet:" + " environment adapter around" + " the user's shell.", paneShell, "non_login")
  }

  function HeaderText(name: string): string {
    "[" + name + "]"
  }

  function Assigns(key: string, value: string): string {
    key + " = " + DoubleQuote(value)
  }

  function ManagedLines(m: Managing): seq<string> {
    [m.note, Assigns("default_shell", m.paneShell), Assigns("shell_mode", m.mode)]
  }

  // ----- The merge -----

  function TrimNewlines(s: string): (r: string)
    ensures r <= s && (r == "" || r[|r| - 1] != '\n')
  {
    if s != "" && s[|s| - 1] == '\n' then TrimNewlines(s[..|s| - 1]) else s
  }

  function LinesOf(config: string): seq<string> {
    if config == "" then [] else Split(TrimNewlines(config), '\n')
  }

  function MergedLines(lines: seq<string>, m: Managing): seq<string> {
    MergeLines(HERDR, lines, HeaderText(TABLE), ManagedLines(m))
  }

  /** The text of merged lines; None when the user's configuration holds a NUL. */
  function Merge(config: string, m: Managing): Option<string> {
    if '\0' in config then None
    else Some(Join(MergedLines(LinesOf(config), m), '\n') + "\n")
  }

  method MergeHerdrConfig(userConfig: string, paneShell: string) returns (merged: Option<string>)
    ensures merged == Merge(userConfig, Familiar(paneShell))
  {
    if '\0' in userConfig {
      return None;
    }
    var lines := if userConfig == "" then [] else Split(TrimNewlines(userConfig), '\n');
    var out := Run(HERDR, lines, HeaderText(TABLE), ManagedLines(Familiar(paneShell)));
    return Some(Join(out, '\n') + "\n");
  }

  // ----- How the scanner takes the inserted lines -----

  lemma TrimTrailingSpace(key: string)
    requires key != "" && !IsSpace(key[0]) && !IsSpace(key[|key| - 1])
    ensures TrimSpace(key + " ") == key
  {
    var s := key + " ";
    assert TrimLeft(s) == s;
    assert s[..|s| - 1] == key;
  }

  /** A trimmed line with a first '=' has the trimmed text before it as key. */
  lemma KeyAt(line: string, before: string, rest: string)
    requires line == before + ['='] + rest && '=' !in before && before != "" && before[0] != '#'
    ensures Key(line) == TrimSpace(before)
  {
    IndexOfPrefix(before, '=', rest);
    assert line[..|before|] == before;
  }

  lemma AssignmentLine(key: string, value: string)
    requires key != "" && '=' !in key && key[0] != '[' && key[0] != '#'
    requires !IsSpace(key[0]) && !IsSpace(key[|key| - 1])
    requires value != "" && !IsSpace(value[|value| - 1])
    ensures var trimmed := TrimSpace(key + " = " + value);
      TableHeader(trimmed).None? && Key(trimmed) == key
  {
    var line := key + " = " + value;
    assert line[0] == key[0] && line[|line| - 1] == value[|value| - 1];
    assert TrimSpace(line) == line by { TrimmedIsFixed(line); }
    assert Key(line) == TrimSpace(key + " ") by {
      assert line == (key + " ") + ['='] + (" " + value);
      KeyAt(line, key + " ", " " + value);
    }
    assert TrimSpace(key + " ") == key by { TrimTrailingSpace(key); }
  }

  /** A bracketed name is a header of that name. */
  lemma NameAt(line: string, name: string)
    requires line == "[" + name + "]" && name != "" && name[0] != '[' && ']' !in name
    ensures TableHeader(line) == Some(TrimSpace(name))
  {
    assert line == "[" + name + [']'] + "";
    IndexOfPrefix("[" + name, ']', "");
    assert line[1..|name| + 1] == name;
  }

  lemma HeaderIsTrimmed(name: string)
    ensures Trimmed(HeaderText(name))
  {
    var line := HeaderText(name);
    assert line[0] == '[' && line[|line| - 1] == ']';
  }

  lemma TrimmedStays(s: string)
    requires Trimmed(s)
    ensures TrimSpace(s) == s
  {
    TrimmedIsFixed(s);
  }

  lemma HeaderLine(name: string)
    requires Trimmed(name) && name[0] != '[' && ']' !in name
    ensures TableHeader(TrimSpace(HeaderText(name))) == Some(name)
  {
    HeaderIsTrimmed(name);
    TrimmedStays(HeaderText(name));
    NameAt(HeaderText(name), name);
    TrimmedStays(name);
  }

  lemma HeaderOpens(name: string)
    requires name == TABLE
    ensures Opens(HERDR, HeaderText(name))
  {
    assert Trimmed(name) && name[0] != '[' && ']' !in name;
    HeaderLine(name);
  }

  predicate OneLine(s: string) {
    forall i | 0 <= i < |s| :: s[i] != '\n' && s[i] != '\0'
  }

  /** A comment the scanner skips, and values that fit on one line. */
  predicate Proper(m: Managing) {
    && m.note != "" && m.note[0] == '#' && !IsSpace(m.note[|m.note| - 1])
    && OneLine(m.note) && OneLine(m.paneShell) && OneLine(m.mode)
  }

  lemma NoteIsKept(note: string, inTerminal: bool)
    requires note != "" && note[0] == '#' && !IsSpace(note[|note| - 1])
    ensures KindOf(inTerminal, note) == Kept && KeyOf(note) == ""
  {
    TrimmedIsFixed(note);
  }

  lemma AssignmentIsManaged(key: string, value: string)
    requires key == "default_shell" || key == "shell_mode"
    ensures KindOf(true, Assigns(key, value)) == Managed
  {
    AssignmentLine(key, DoubleQuote(value));
  }

  lemma BlockFits(m: Managing)
    requires Proper(m)
    ensures Block(HERDR, ManagedLines(m))
  {
    NoteIsKept(m.note, true);
    AssignmentIsManaged("default_shell", m.paneShell);
    AssignmentIsManaged("shell_mode", m.mode);
  }

  lemma BlankIsKept(line: string, inTerminal: bool)
    requires line == ""
    ensures KindOf(inTerminal, line) == Kept && KeyOf(line) == ""
  {
    assert TrimSpace(line) == line;
  }

  lemma BlankFits()
    ensures BlankMeansNothing(HERDR)
  {
    BlankIsKept("", true);
    BlankIsKept("", false);
  }

  /** The scanner takes the managed lines as meant, for every comment and value. */
  lemma ScannerFits(m: Managing)
    requires Proper(m)
    ensures Block(HERDR, ManagedLines(m)) && BlankMeansNothing(HERDR) && Opens(HERDR, HeaderText(TABLE))
    ensures HeaderText(TABLE) != m.note && m.note != ""
  {
    BlockFits(m);
    BlankFits();
    HeaderOpens(TABLE);
    assert HeaderText(TABLE)[0] == '[';
  }

  // ----- The merge of a configuration -----

  lemma TableText(name: string)
    requires name == "terminal"
    ensures HeaderText(name) == "[terminal]"
  {}

  /** Merging keeps every line of the user's verbatim and in order, puts the
      managed lines under every [terminal] header and manages nothing else; there
      is at least one such header. */
  lemma MergeMeans(config: string, m: Managing)
    requires Proper(m)
    ensures var lines, out := LinesOf(config), MergedLines(LinesOf(config), m);
      && Own(HERDR, false, out, m.note) == Own(HERDR, false, lines, m.note)
           + (if Headers(HERDR, false, lines) > 0 then []
              else (if Merged(HERDR, false, lines, ManagedLines(m)) == [] then [] else [""]) + ["[terminal]"])
      && Tidy(HERDR, false, out, ManagedLines(m))
      && Headers(HERDR, false, out) == (if Headers(HERDR, false, lines) > 0 then Headers(HERDR, false, lines) else 1)
  {
    ScannerFits(m);
    MergeKeepsAndTidies(HERDR, LinesOf(config), HeaderText(TABLE), ManagedLines(m));
    TableText(TABLE);
  }

  lemma NoteHead(a: string)
    requires a == "# Managed by familiar-fleet:"
    ensures OneLine(a) && a != "" && a[0] == '#'
  {}

  lemma NoteMiddle(b: string)
    requires b == " environment adapter around"
    ensures OneLine(b)
  {}

  lemma NoteTail(c: string)
    requires c == " the user's shell."
    ensures OneLine(c) && c != "" && c[|c| - 1] == '.'
  {}

  lemma NoteFits(a: string, b: string, c: string)
    requires a != "" && a[0] == '#' && c != "" && c[|c| - 1] == '.' && OneLine(a) && OneLine(b) && OneLine(c)
    ensures var note := a + b + c; note != "" && note[0] == '#' && !IsSpace(note[|note| - 1]) && OneLine(note)
  {}

  lemma FamiliarIsProper(paneShell: string)
    requires OneLine(paneShell)
    ensures Proper(Familiar(paneShell))
  {
    var a, b, c := "# Managed by familiar-fleet:", " environment adapter around", " the user's shell.";
    NoteHead(a);
    NoteMiddle(b);
    NoteTail(c);
    NoteFits(a, b, c);
  }

  // ----- The text and its lines -----

  lemma {:induction false} EscapeWithout(s: string, c: char)
    requires c !in s && c != '\\' && c != '"'
    ensures c !in Escape(s)
  {
    if s == "" {
    } else {
      EscapeWithout(s[1..], c);
    }
  }

  lemma AssignsWithout(key: string, value: string, c: char)
    requires c !in key && c !in value && (c == '\n' || c == '\0')
    ensures c !in Assigns(key, value)
  {
    EscapeWithout(value, c);
  }

  lemma ManagedWithout(m: Managing, c: char)
    requires Proper(m) && (c == '\n' || c == '\0')
    ensures Without(ManagedLines(m), c)
  {
    AssignsWithout("default_shell", m.paneShell, c);
    AssignsWithout("shell_mode", m.mode, c);
  }

  lemma LinesWithout(config: string, c: char)
    requires c == '\n' || c !in config
    ensures Without(LinesOf(config), c)
  {
    if config != "" {
      if c == '\n' {
        SplitWithout(TrimNewlines(config), c);
      } else {
        SplitAbsent(TrimNewlines(config), '\n', c);
      }
    }
  }

  lemma HeaderWithout(name: string, c: char)
    requires c !in name && c != '[' && c != ']'
    ensures c !in HeaderText(name)
  {}

  lemma MergedWithout(lines: seq<string>, m: Managing, c: char)
    requires Proper(m) && Without(lines, c) && (c == '\n' || c == '\0')
    ensures Without(MergedLines(lines, m), c)
  {
    ManagedWithout(m, c);
    HeaderWithout(TABLE, c);
    MergeLinesWithout(HERDR, lines, HeaderText(TABLE), ManagedLines(m), c);
  }

  lemma LastChar(lines: seq<string>)
    requires lines != [] && lines[|lines| - 1] != ""
    ensures var text, last := Join(lines, '\n'), lines[|lines| - 1];
      text != "" && text[|text| - 1] == last[|last| - 1]
  {
    if |lines| > 1 {
      var front, last := lines[..|lines| - 1], lines[|lines| - 1];
      assert lines == front + [last];
      JoinSnoc(front, last, '\n');
    }
  }

  /** Trimming newlines off the text drops its trailing blank lines. */
  lemma {:induction false} TrimDropsBlanks(lines: seq<string>)
    requires Without(lines, '\n') && StripBlank(lines) != []
    ensures TrimNewlines(Join(lines, '\n')) == Join(StripBlank(lines), '\n')
  {
    var last := lines[|lines| - 1];
    if last == "" {
      var front := lines[..|lines| - 1];
      assert lines == front + [""];
      JoinSnoc(front, "", '\n');
      TrimDropsBlanks(front);
      var text := Join(lines, '\n');
      assert text[..|text| - 1] == Join(front, '\n');
    } else {
      LastChar(lines);
    }
  }

  /** Written lines are read back, but for trailing blank ones. */
  lemma LinesRoundTrip(lines: seq<string>)
    requires Without(lines, '\n') && StripBlank(lines) != []
    ensures LinesOf(Join(lines, '\n') + "\n") == StripBlank(lines)
  {
    var text := Join(lines, '\n') + "\n";
    assert text[..|text| - 1] == Join(lines, '\n');
    TrimDropsBlanks(lines);
    SplitOfJoin(StripBlank(lines), '\n');
  }

  /** The written text reads back as tidy lines with the merged settings. */
  lemma MergedReadsBack(config: string, m: Managing)
    requires Proper(m) && '\0' !in config
    ensures var out, text := MergedLines(LinesOf(config), m), Merge(config, m).value;
      && LinesOf(text) == StripBlank(out)
      && Settings(HERDR, false, LinesOf(text)) == Settings(HERDR, false, out)
      && Tidy(HERDR, false, LinesOf(text), ManagedLines(m)) && Headers(HERDR, false, LinesOf(text)) > 0
  {
    var out := MergedLines(LinesOf(config), m);
    MergeMeans(config, m);
    ScannerFits(m);
    StripKeeps(HERDR, out, ManagedLines(m));
    LinesWithout(config, '\n');
    MergedWithout(LinesOf(config), m, '\n');
    LinesRoundTrip(out);
  }

  lemma MergedTextIsClean(config: string, m: Managing)
    requires Proper(m) && '\0' !in config
    ensures '\0' !in Merge(config, m).value
  {
    LinesWithout(config, '\0');
    MergedWithout(LinesOf(config), m, '\0');
    JoinWithout(MergedLines(LinesOf(config), m), '\n', '\0');
  }

  /** A second merge is accepted and assigns the same, in the same order and
      scopes, adding one comment line under each [terminal] header. */
  lemma MergeTwice(config: string, m: Managing)
    requires Proper(m) && '\0' !in config
    ensures var once := Merge(config, m).value;
      && Merge(once, m).Some?
      && Settings(HERDR, false, LinesOf(Merge(once, m).value)) == Settings(HERDR, false, LinesOf(once))
      && |MergedLines(LinesOf(once), m)| == |LinesOf(once)| + Headers(HERDR, false, LinesOf(once))
  {
    var once := Merge(config, m).value;
    MergedTextIsClean(config, m);
    MergedReadsBack(config, m);
    MergedReadsBack(once, m);
    ScannerFits(m);
    RemergeStable(HERDR, LinesOf(once), HeaderText(TABLE), ManagedLines(m));
  }

  lemma {:induction false} OnlyNewlinesGo(config: string)
    ensures forall i | |TrimNewlines(config)| <= i < |config| :: config[i] == '\n'
  {
    if config != "" && config[|config| - 1] == '\n' {
      OnlyNewlinesGo(config[..|config| - 1]);
    }
  }

  /** The lines of a configuration spell it out, but for newlines at its end; an empty
      one has none. */
  lemma LinesSpell(config: string)
    ensures config == "" ==> LinesOf(config) == []
    ensures config != "" ==> Join(LinesOf(config), '\n') <= config
    ensures config != "" ==> forall i | |Join(LinesOf(config), '\n')| <= i < |config| :: config[i] == '\n'
  {
    JoinOfSplit(TrimNewlines(config), '\n');
    OnlyNewlinesGo(config);
  }

  /** An empty configuration becomes the table alone. */
  lemma EmptyBecomesTable(config: string, m: Managing)
    requires config == ""
    ensures MergedLines(LinesOf(config), m) == ["[terminal]"] + ManagedLines(m)
  {
    TableText(TABLE);
  }

  // ----- What Herdr reads in the merged text -----

  lemma AssignsKey(key: string, value: string)
    requires key == "default_shell" || key == "shell_mode"
    ensures KeyOf(Assigns(key, value)) == key
  {
    AssignmentLine(key, DoubleQuote(value));
  }

  /** The keys that the scanner leaves to the client. */
  lemma ManagedKeys(inTerminal: bool, key: string)
    requires if inTerminal then key == "default_shell" || key == "shell_mode" else key == "terminal.default_shell" || key == "terminal.shell_mode"
    ensures ManagedKey(HERDR, inTerminal, key)
  {
    assert key != "";
  }

  lemma BlockReads(m: Managing, first: string, second: string)
    requires Proper(m) && first == "default_shell" && second == "shell_mode"
    ensures BlockSettings(HERDR, ManagedLines(m))
      == [Setting(true, first, first + " = " + DoubleQuote(m.paneShell)), Setting(true, second, second + " = " + DoubleQuote(m.mode))]
  {
    BlockFits(m);
    AssignsKey(first, m.paneShell);
    AssignsKey(second, m.mode);
    BlockAssigns(HERDR, ManagedLines(m), first, second);
  }

  /** One line of the merged text under each [terminal] header assigns default_shell. */
  lemma ShellIsSet(config: string, m: Managing, first: string, second: string)
    requires Proper(m) && '\0' !in config && first == "default_shell" && second == "shell_mode"
    ensures var lines := LinesOf(Merge(config, m).value);
      Of(Settings(HERDR, false, lines), true, first)
        == Repeat([Setting(true, first, first + " = " + DoubleQuote(m.paneShell))], Headers(HERDR, false, lines))
  {
    var a, b := Setting(true, first, first + " = " + DoubleQuote(m.paneShell)), Setting(true, second, second + " = " + DoubleQuote(m.mode));
    MergedReadsBack(config, m);
    BlockFits(m);
    ManagedKeys(true, first);
    BlockReads(m, first, second);
    TidyReads(HERDR, LinesOf(Merge(config, m).value), ManagedLines(m), a, b, true, first);
    KeysDiffer(first, second);
    assert Matching(a, true, first) + Matching(b, true, first) == [a];
  }

  /** And one assigns shell_mode. */
  lemma ModeIsSet(config: string, m: Managing, first: string, second: string)
    requires Proper(m) && '\0' !in config && first == "default_shell" && second == "shell_mode"
    ensures var lines := LinesOf(Merge(config, m).value);
      Of(Settings(HERDR, false, lines), true, second)
        == Repeat([Setting(true, second, second + " = " + DoubleQuote(m.mode))], Headers(HERDR, false, lines))
  {
    var a, b := Setting(true, first, first + " = " + DoubleQuote(m.paneShell)), Setting(true, second, second + " = " + DoubleQuote(m.mode));
    MergedReadsBack(config, m);
    BlockFits(m);
    ManagedKeys(true, second);
    BlockReads(m, first, second);
    TidyReads(HERDR, LinesOf(Merge(config, m).value), ManagedLines(m), a, b, true, second);
    KeysDiffer(first, second);
    assert Matching(a, true, second) + Matching(b, true, second) == [b];
  }

  lemma KeysDiffer(first: string, second: string)
    requires first == "default_shell" && second == "shell_mode"
    ensures first != second
  {
    assert first[0] != second[0];
  }

  /** Nothing assigns them in their dotted form outside the table. */
  lemma NothingDotted(config: string, m: Managing, key: string, first: string, second: string)
    requires Proper(m) && '\0' !in config && first == "default_shell" && second == "shell_mode"
    requires key == "terminal.default_shell" || key == "terminal.shell_mode"
    ensures Of(Settings(HERDR, false, LinesOf(Merge(config, m).value)), false, key) == []
  {
    var a, b := Setting(true, first, first + " = " + DoubleQuote(m.paneShell)), Setting(true, second, second + " = " + DoubleQuote(m.mode));
    var lines := LinesOf(Merge(config, m).value);
    MergedReadsBack(config, m);
    BlockFits(m);
    ManagedKeys(false, key);
    BlockReads(m, first, second);
    TidyReads(HERDR, lines, ManagedLines(m), a, b, false, key);
    NothingRepeated(Headers(HERDR, false, lines));
  }

  /** The text that an assignment line gives its key. */
  function ReadAssignment(line: string, key: string): Option<string> {
    if key + " = " <= line then TomlString(line[|key| + 3..]) else None
  }

  lemma AssignmentIsRead(key: string, value: string)
    requires forall c | c in value :: !TomlControl(c)
    ensures ReadAssignment(key + " = " + DoubleQuote(value), key) == Some(value)
  {
    var line := key + " = " + DoubleQuote(value);
    assert line[|key| + 3..] == DoubleQuote(value);
    TomlRoundTrip(value);
  }

  lemma {:induction false} RepeatedAre(x: Setting, n: nat)
    ensures |Repeat([x], n)| == n && forall i | 0 <= i < n :: Repeat([x], n)[i] == x
  {
    if n == 0 {
    } else {
      RepeatedAre(x, n - 1);
    }
  }

  lemma PlainIsOneLine(s: string)
    requires forall c | c in s :: !TomlControl(c)
    ensures OneLine(s)
  {
    forall i | 0 <= i < |s| ensures s[i] != '\n' && s[i] != '\0' {
      assert s[i] in s;
    }
  }

  /** The settings of one key number `n`, and each is read as `text`. */
  ghost predicate AllRead(settings: seq<Setting>, n: nat, key: string, text: string) {
    |settings| == n && forall i | 0 <= i < n :: ReadAssignment(settings[i].line, key) == Some(text)
  }

  lemma RepeatedAreRead(key: string, value: string, n: nat)
    requires forall c | c in value :: !TomlControl(c)
    ensures AllRead(Repeat([Setting(true, key, key + " = " + DoubleQuote(value))], n), n, key, value)
  {
    AssignmentIsRead(key, value);
    RepeatedAre(Setting(true, key, key + " = " + DoubleQuote(value)), n);
  }

  lemma NonLoginIsPlain(mode: string)
    requires mode == "non_login"
    ensures forall c | c in mode :: !TomlControl(c)
  {}

  /** What Herdr reads in the merged text: there is a [terminal] table; under each of
      its headers the launcher is the default shell and the mode is non_login, each
      said once; and neither is said anywhere else. */
  lemma MergedIsRead(config: string, paneShell: string, shell: string, mode: string)
    requires '\0' !in config && forall c | c in paneShell :: !TomlControl(c)
    requires shell == "default_shell" && mode == "shell_mode"
    ensures var lines := LinesOf(Merge(config, Familiar(paneShell)).value);
      var settings, n := Settings(HERDR, false, lines), Headers(HERDR, false, lines);
      && n > 0
      && AllRead(Of(settings, true, shell), n, shell, paneShell)
      && AllRead(Of(settings, true, mode), n, mode, "non_login")
      && Of(settings, false, "terminal.default_shell") == [] && Of(settings, false, "terminal.shell_mode") == []
  {
    var m := Familiar(paneShell);
    PlainIsOneLine(paneShell);
    FamiliarIsProper(paneShell);
    MergedReadsBack(config, m);
    ShellIsSet(config, m, shell, mode);
    ModeIsSet(config, m, shell, mode);
    NothingDotted(config, m, "terminal.default_shell", shell, mode);
    NothingDotted(config, m, "terminal.shell_mode", shell, mode);
    var n := Headers(HERDR, false, LinesOf(Merge(config, m).value));
    NonLoginIsPlain(m.mode);
    RepeatedAreRead(shell, paneShell, n);
    RepeatedAreRead(mode, m.mode, n);
  }

  // ----- How the scanner reads a line of the user's -----

  /** A bracketed name, however indented and whatever follows, is a header, and it is
      the terminal table's exactly when the trimmed name is "terminal". */
  lemma HeaderReads(inTerminal: bool, lead: string, name: string, tail: string)
    requires Blank(lead) && ']' !in name && (name == "" || name[0] != '[')
    ensures KindOf(inTerminal, lead + (HeaderText(name) + tail)) == Header(TrimSpace(name) == "terminal")
  {
    HeaderIsTrimmed(name);
    Trimming(lead, HeaderText(name), tail);
    NameAtFront(name, TrimRight(tail));
  }

  lemma NameAtFront(name: string, tail: string)
    requires ']' !in name && (name == "" || name[0] != '[')
    ensures TableHeader(HeaderText(name) + tail) == Some(TrimSpace(name))
  {
    var line := HeaderText(name) + tail;
    assert line == "[" + name + [']'] + tail;
    IndexOfPrefix("[" + name, ']', tail);
    assert line[1..|name| + 1] == name;
    assert name != "" ==> line[1] == name[0];
  }

  /** How a line without a header is taken, by its key. */
  lemma KindByKey(inTerminal: bool, line: string, trimmed: string, key: string)
    requires TrimSpace(line) == trimmed && TableHeader(trimmed).None? && Key(trimmed) == key
    ensures KeyOf(line) == key
    ensures KindOf(inTerminal, line) ==
      if (if inTerminal then key == "default_shell" || key == "shell_mode" else key == "terminal.default_shell" || key == "terminal.shell_mode")
      then Managed else Kept
  {}

  lemma KeyAtFront(key: string, gap: string, tail: string)
    requires Blank(gap) && Trimmed(key) && '=' !in key && key[0] != '[' && key[0] != '#'
    ensures var line := key + (gap + "=") + tail; TableHeader(line).None? && Key(line) == key
  {
    var line := key + (gap + "=") + tail;
    assert line[0] == key[0];
    assert line == (key + gap) + ['='] + tail;
    BlankHasNone(gap);
    KeyAt(line, key + gap, tail);
    GapTrimmed(key, gap);
  }

  /** An assignment, however indented and spaced, is the client's exactly in the
      terminal table for the two bare keys, and outside it for the two dotted ones. */
  lemma AssignmentReads(inTerminal: bool, lead: string, key: string, gap: string, tail: string)
    requires Blank(lead) && Blank(gap) && Trimmed(key) && '=' !in key && key[0] != '[' && key[0] != '#'
    ensures KeyOf(lead + (key + (gap + "=") + tail)) == key
    ensures KindOf(inTerminal, lead + (key + (gap + "=") + tail)) ==
      if (if inTerminal then key == "default_shell" || key == "shell_mode" else key == "terminal.default_shell" || key == "terminal.shell_mode")
      then Managed else Kept
  {
    var text := key + (gap + "=");
    assert text[0] == key[0] && text[|text| - 1] == '=';
    Trimming(lead, text, tail);
    KeyAtFront(key, gap, TrimRight(tail));
    KindByKey(inTerminal, lead + (text + tail), text + TrimRight(tail), key);
  }

  lemma BlankHasNone(gap: string)
    requires Blank(gap)
    ensures '=' !in gap
  {
    assert !IsSpace('=');
  }

  lemma GapTrimmed(key: string, gap: string)
    requires Trimmed(key) && Blank(gap)
    ensures TrimSpace(key + gap) == key
  {
    Trimming("", key, gap);
    assert "" + (key + gap) == key + gap;
    BlankVanishes(gap);
    assert key + "" == key;
  }

  lemma EmptyKeyIsKept(inTerminal: bool, line: string, trimmed: string)
    requires TrimSpace(line) == trimmed && TableHeader(trimmed).None? && Key(trimmed) == ""
    ensures KindOf(inTerminal, line) == Kept
  {
    KindByKey(inTerminal, line, trimmed, "");
  }

  lemma FrontStays(text: string, n: nat)
    requires n < |text| && !IsSpace(text[n])
    ensures n < |TrimRight(text)|
  {
    assert forall i | |TrimRight(text)| <= i < |text| :: IsSpace(text[i]);
  }

  /** A comment is never the client's. */
  lemma CommentReads(inTerminal: bool, lead: string, text: string)
    requires Blank(lead) && text != "" && text[0] == '#'
    ensures KindOf(inTerminal, lead + text) == Kept
  {
    LeadTrimmed(lead, text);
    FrontStays(text, 0);
    EmptyKeyIsKept(inTerminal, lead + text, TrimRight(text));
  }

  /** The header of an array of tables is no header to the scanner. */
  lemma ArrayReads(inTerminal: bool, lead: string, text: string)
    requires Blank(lead) && |text| > 1 && text[0] == '[' && text[1] == '[' && '=' !in text
    ensures KindOf(inTerminal, lead + text) == Kept
  {
    LeadTrimmed(lead, text);
    FrontStays(text, 1);
    PrefixLacks(TrimRight(text), text, '=');
    NoAssignment(TrimRight(text));
    EmptyKeyIsKept(inTerminal, lead + text, TrimRight(text));
  }

  lemma PrefixLacks(prefix: string, s: string, c: char)
    requires prefix <= s && c !in s
    ensures c !in prefix
  {
    assert forall i | 0 <= i < |prefix| :: prefix[i] == s[i];
  }

  lemma NoAssignment(trimmed: string)
    requires |trimmed| > 1 && trimmed[0] == '[' && trimmed[1] == '[' && '=' !in trimmed
    ensures TableHeader(trimmed).None? && Key(trimmed) == ""
  {}
}
