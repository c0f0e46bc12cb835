/** The PATH assertion as text: what sh and fish make of the generated statements. */
module PaneAssertions {
  import opened Text
  import opened Quoting
  import opened PaneShell
  import FilePath

  // ----- sh -----

  /** The statements of pathAssertionSh that decide PATH. */
  function ShLines(bin: string): seq<string> {
    ["case \":$PATH:\" in",
     "  " + ShellQuote(":" + bin + ":") + "*) ;;",
     "  *) PATH=" + ShellQuote(bin) + "${PATH:+:$PATH} ;;",
     "esac"]
  }

  /** What stands between a prefix and a suffix of a line. */
  function Between(line: string, prefix: string, suffix: string): Option<string> {
    if |line| >= |prefix| + |suffix| && line[..|prefix|] == prefix && line[|line| - |suffix|..] == suffix
    then Some(line[|prefix|..|line| - |suffix|])
    else None
  }

  lemma BetweenIs(prefix: string, text: string, suffix: string)
    ensures Between(prefix + text + suffix, prefix, suffix) == Some(text)
  {
    var line := prefix + text + suffix;
    assert line[..|prefix|] == prefix && line[|line| - |suffix|..] == suffix && line[|prefix|..|line| - |suffix|] == text;
  }

  /** The single word that a shell reads in a text. */
  function OneShWord(text: string): Option<string> {
    match Argv(text, [])
    case None => None
    case Some(args) => if |args| == 1 then Some(args[0]) else None
  }

  function WordBetween(line: string, prefix: string, suffix: string): Option<string> {
    match Between(line, prefix, suffix) case None => None case Some(text) => OneShWord(text)
  }

  lemma QuotedBetween(prefix: string, word: string, suffix: string)
    ensures WordBetween(prefix + ShellQuote(word) + suffix, prefix, suffix) == Some(word)
  {
    BetweenIs(prefix, ShellQuote(word), suffix);
    QuoteRoundTrip(word);
  }

  /** Running the case statement: its first pattern is a quoted word and then
      anything, its second sets PATH to a quoted word, with the old value after a
      colon unless that is empty. */
  function ShRun(lines: seq<string>, path: string): Option<string> {
    if |lines| != 4 || lines[0] != "case \":$PATH:\" in" || lines[3] != "esac" then None
    else
      var pattern, value := WordBetween(lines[1], "  ", "*) ;;"), WordBetween(lines[2], "  *) PATH=", "${PATH:+:$PATH} ;;");
      if pattern.None? || value.None? then None
      else if pattern.value <= ":" + path + ":" then Some(path)
      else Some(value.value + (if path == "" then "" else ":" + path))
  }

  lemma ShWords(bin: string, open1: string, close1: string, open2: string, close2: string)
    requires open1 == "  " && close1 == "*) ;;" && open2 == "  *) PATH=" && close2 == "${PATH:+:$PATH} ;;"
    ensures WordBetween(ShLines(bin)[1], open1, close1) == Some(":" + bin + ":")
    ensures WordBetween(ShLines(bin)[2], open2, close2) == Some(bin)
  {
    QuotedBetween(open1, ":" + bin + ":", close1);
    QuotedBetween(open2, bin, close2);
  }

  /** A shell running the generated statements does what the assertion means. */
  lemma ShRunsAssertion(bin: string, path: string)
    ensures ShRun(ShLines(bin), path) == Some(AssertSh(bin, path))
  {
    ShWords(bin, "  ", "*) ;;", "  *) PATH=", "${PATH:+:$PATH} ;;");
    assert bin + "" == bin && bin + (":" + path) == bin + ":" + path;
  }

  // ----- fish -----

  /** A quoted word at the front of a text, and what follows it. */
  datatype Front = NoWord | Front(word: string, rest: string)

  function FishFront(text: string): Front {
    if text == "" || text[0] != '\'' then NoWord else FishInside(text[1..])
  }

  /** After the opening quote. */
  function FishInside(text: string): Front {
    if text == "" then NoWord
    else if text[0] == '\'' then Front("", text[1..])
    else if text[0] == '\\' && |text| > 1 && (text[1] == '\\' || text[1] == '\'') then Consed(text[1], FishInside(text[2..]))
    else Consed(text[0], FishInside(text[1..]))
  }

  function Consed(c: char, f: Front): Front {
    match f case NoWord => NoWord case Front(word, rest) => Front([c] + word, rest)
  }

  lemma {:induction false} InsideReads(s: string, rest: string)
    requires '\'' !in s && NoBackslashTrap(s)
    ensures FishInside(s + "'" + rest) == Front(s, rest)
    decreases |s|
  {
    var text := s + "'" + rest;
    if s == "" {
      assert text[1..] == rest;
    } else {
      TrapCons(s);
      assert text[1..] == s[1..] + "'" + rest && s == [s[0]] + s[1..];
      assert |s| > 1 ==> text[1] == s[1];
      InsideReads(s[1..], rest);
    }
  }

  lemma FrontReads(s: string, rest: string)
    requires '\'' !in s && NoBackslashTrap(s)
    ensures FishFront(ShellQuote(s) + rest) == Front(s, rest)
  {
    QuoteFree(s);
    InsideReads(s, rest);
    assert (ShellQuote(s) + rest)[1..] == s + "'" + rest;
  }

  function After(text: string, prefix: string): Option<string> {
    if prefix <= text then Some(text[|prefix|..]) else None
  }

  lemma AfterIs(prefix: string, text: string)
    ensures After(prefix + text, prefix) == Some(text)
  {
    assert (prefix + text)[|prefix|..] == text;
  }

  const TEST := "if test (count $PATH) -eq 0 -o \"$PATH[1]\" != "
  const SET := "; set -gx PATH "
  const END := " $PATH; end"

  /** Running the statement: when PATH is empty or its first entry is not the first
      quoted word, PATH becomes the second quoted word and the old entries. */
  function FishRun(text: string, entries: seq<string>): Option<seq<string>> {
    match After(text, TEST)
    case None => None
    case Some(tested) =>
      match FishFront(tested)
      case NoWord => None
      case Front(first, more) =>
        match After(more, SET)
        case None => None
        case Some(setting) =>
          match FishFront(setting)
          case NoWord => None
          case Front(word, rest) =>
            if rest != END then None
            else Some(if entries == [] || entries[0] != first then [word] + entries else entries)
  }

  lemma FishParts(bin: string, test: string, set0: string, end: string)
    requires test == TEST && set0 == SET && end == END
    ensures FishAssertion(bin) == test + (ShellQuote(bin) + (set0 + (ShellQuote(bin) + end)))
  {}

  lemma FishReads(text: string, bin: string, entries: seq<string>)
    requires '\'' !in bin && NoBackslashTrap(bin)
    requires text == TEST + (ShellQuote(bin) + (SET + (ShellQuote(bin) + END)))
    ensures FishRun(text, entries) == Some(AssertFish(bin, entries))
  {
    AfterIs(TEST, ShellQuote(bin) + (SET + (ShellQuote(bin) + END)));
    FrontReads(bin, SET + (ShellQuote(bin) + END));
    AfterIs(SET, ShellQuote(bin) + END);
    FrontReads(bin, END);
  }

  /** fish running the generated statement does what the assertion means, for every
      path that fish reads back from the shell's quotes. */
  lemma FishRunsAssertion(bin: string, entries: seq<string>)
    requires '\'' !in bin && NoBackslashTrap(bin)
    ensures FishRun(FishAssertion(bin), entries) == Some(AssertFish(bin, entries))
  {
    FishParts(bin, TEST, SET, END);
    FishReads(FishAssertion(bin), bin, entries);
  }

  // ----- Which shell is which -----

  lemma {:induction false} BaseOf(dir: string, name: string)
    requires name != "" && '/' !in name
    ensures FilePath.Base(dir + "/" + name) == name
  {
    var p := dir + "/" + name;
    assert p[|p| - 1] == name[|name| - 1] && name[|name| - 1] in name;
    FilePath.LastSlash(p, dir, name);
    assert p[|dir + "/"|..] == name;
  }

  /** A shell's family goes by its file name, wherever it is installed. */
  lemma ClassifiedByName(dir: string, name: string)
    requires name != "" && '/' !in name
    ensures Classify(dir + "/" + name) ==
      if name == "bash" then Bash else if name == "zsh" then Zsh else if name == "fish" then Fish
      else if name == "sh" || name == "dash" || name == "ksh" || name == "ksh93" || name == "mksh" || name == "oksh" || name == "ash" || name == "busybox"
      then Posix else Unknown
  {
    BaseOf(dir, name);
  }
}
