/** Quoting for the three readers of generated text: a POSIX shell
    (POSIX.1-2017, XCU sections 2.2.1 to 2.2.3 and 2.3), TOML v1.0.0 basic
    strings, and sshd_config arguments; and fish, which reads the shell form. */
module Quoting {
  import opened Text

  // ----- The writers -----

  function QuoteBody(s: string): string {
    if s == "" then "" else (if s[0] == '\'' then "'\\''" else [s[0]]) + QuoteBody(s[1..])
  }

  function ShellQuote(s: string): string {
    "'" + QuoteBody(s) + "'"
  }

  function Escape(s: string): string {
    if s == "" then "" else (if s[0] == '\\' then "\\\\" else if s[0] == '"' then "\\\"" else [s[0]]) + Escape(s[1..])
  }

  /** tomlString and sshdQuote. */
  function DoubleQuote(s: string): string {
    "\"" + Escape(s) + "\""
  }

  // ----- A POSIX shell reading one simple command -----

  datatype Piece = Ch(c: char) | AllArgs

  datatype Mode = Plain | Backslash | Single | Double | DoubleBackslash | Dollar | Stuck

  /** Finished words, the word under way, and whether there is one. */
  datatype Scan = Scan(mode: Mode, words: seq<seq<Piece>>, word: seq<Piece>, open: bool)

  /** Characters with a meaning of their own outside quotes. */
  predicate Special(c: char) {
    || c == '|' || c == '&' || c == ';' || c == '<' || c == '>' || c == '(' || c == ')' || c == '$' || c == '`'
    || c == '*' || c == '?' || c == '[' || c == '#' || c == '~' || c == '=' || c == '%' || c == '!'
    || c == '{' || c == '}' || c == '\n' || c == '\r'
  }

  function Add(st: Scan, p: Piece, mode: Mode): Scan {
    st.(mode := mode, word := st.word + [p], open := true)
  }

  function EndWord(st: Scan): Scan {
    if st.open then st.(words := st.words + [st.word], word := [], open := false) else st
  }

  /** What one character does: it ends the word, or adds pieces to it and sets the mode. */
  datatype Effect = End | Go(mode: Mode, add: seq<Piece>)

  /** Expansions other than "$@" and unquoted special characters do not occur in
      the generated lines; on them the scan gets stuck. */
  function EffectOf(mode: Mode, c: char): Effect {
    match mode
    case Plain =>
      if c == ' ' || c == '\t' then End
      else if c == '\'' then Go(Single, [])
      else if c == '"' then Go(Double, [])
      else if c == '\\' then Go(Backslash, [])
      else Go(if Special(c) then Stuck else Plain, [Ch(c)])
    case Backslash => Go(Plain, if c == '\n' then [] else [Ch(c)])
    case Single => if c == '\'' then Go(Plain, []) else Go(Single, [Ch(c)])
    case Double =>
      if c == '"' then Go(Plain, [])
      else if c == '\\' then Go(DoubleBackslash, [])
      else if c == '$' then Go(Dollar, [])
      else Go(if c == '`' then Stuck else Double, [Ch(c)])
    case DoubleBackslash =>
      if c == '\n' then Go(Double, [])
      else Go(Double, (if c == '$' || c == '`' || c == '"' || c == '\\' then [] else [Ch('\\')]) + [Ch(c)])
    case Dollar => Go(if c == '@' then Double else Stuck, [AllArgs])
    case Stuck => Go(Stuck, [])
  }

  /** A word begins with its first piece or quote. */
  function Feed(st: Scan, c: char): Scan {
    match EffectOf(st.mode, c)
    case End => EndWord(st)
    case Go(mode, add) => st.(mode := mode, word := st.word + add, open := st.open || add != [] || mode.Single? || mode.Double?)
  }

  function Read(st: Scan, text: string): Scan
    decreases |text|
  {
    if text == "" then st else Read(Feed(st, text[0]), text[1..])
  }

  const START := Scan(Plain, [], [], false)

  function Words(text: string): Option<seq<seq<Piece>>> {
    var st := Read(START, text);
    if st.mode.Plain? then Some(EndWord(st).words) else None
  }

  function Chars(s: string): (r: seq<Piece>)
    ensures |r| == |s| && forall i | 0 <= i < |s| :: r[i] == Ch(s[i])
  {
    seq(|s|, i requires 0 <= i < |s| => Ch(s[i]))
  }

  /** The argument vector: "$@" alone in a word becomes the script's arguments. */
  function Expand(words: seq<seq<Piece>>, args: seq<string>): seq<string> {
    if words == [] then []
    else (if words[0] == [AllArgs] then args else [Spell(words[0])]) + Expand(words[1..], args)
  }

  function Spell(word: seq<Piece>): string {
    if word == [] then ""
    else (match word[0] case Ch(c) => [c] case AllArgs => "") + Spell(word[1..])
  }

  function Argv(line: string, args: seq<string>): Option<seq<string>> {
    match Words(line)
    case None => None
    case Some(ws) => Some(Expand(ws, args))
  }

  lemma {:induction false} ReadConcat(st: Scan, a: string, b: string)
    ensures Read(st, a + b) == Read(Read(st, a), b)
    decreases |a|
  {
    if a == "" {
      assert a + b == b;
    } else {
      assert (a + b)[1..] == a[1..] + b;
      ReadConcat(Feed(st, a[0]), a[1..], b);
    }
  }

  lemma CharsCons(s: string)
    requires s != ""
    ensures Chars(s) == [Ch(s[0])] + Chars(s[1..])
  {}

  lemma ReadOne(st: Scan, c: char)
    ensures Read(st, [c]) == Feed(st, c)
  {
    assert [c][1..] == "";
  }

  lemma ReadFour(st: Scan, a: char, b: char, c: char, d: char)
    ensures Read(st, [a, b, c, d]) == Feed(Feed(Feed(Feed(st, a), b), c), d)
  {
    ReadOne(st, a);
    ReadOne(Feed(st, a), b);
    ReadOne(Feed(Feed(st, a), b), c);
    ReadOne(Feed(Feed(Feed(st, a), b), c), d);
    ReadConcat(st, [a], [b]);
    ReadConcat(st, [a] + [b], [c]);
    ReadConcat(st, [a] + [b] + [c], [d]);
    assert [a, b, c, d] == [a] + [b] + [c] + [d];
  }

  /** One quoted character, escaped or not, adds that character. */
  lemma ReadQuotedChar(st: Scan, c: char)
    requires st.mode.Single? && st.open
    ensures Read(st, if c == '\'' then "'\\''" else [c]) == Add(st, Ch(c), Single)
  {
    if c == '\'' {
      ReadFour(st, '\'', '\\', '\'', '\'');
      assert "'\\''" == ['\'', '\\', '\'', '\''];
    } else {
      ReadOne(st, c);
    }
  }

  lemma QuotedStep(st: Scan, s: string)
    requires st.mode.Single? && st.open && s != ""
    ensures Read(st, QuoteBody(s)) == Read(Add(st, Ch(s[0]), Single), QuoteBody(s[1..]))
  {
    ReadConcat(st, if s[0] == '\'' then "'\\''" else [s[0]], QuoteBody(s[1..]));
    ReadQuotedChar(st, s[0]);
  }

  lemma WordGrows(word: seq<Piece>, s: string)
    requires s != ""
    ensures (word + [Ch(s[0])]) + Chars(s[1..]) == word + Chars(s)
  {
    CharsCons(s);
  }

  lemma {:induction false} ReadQuoteBody(st: Scan, s: string)
    requires st.mode.Single? && st.open
    ensures Read(st, QuoteBody(s)) == st.(word := st.word + Chars(s))
    decreases |s|
  {
    if s == "" {
      assert st.word + Chars(s) == st.word;
    } else {
      QuotedStep(st, s);
      ReadQuoteBody(Add(st, Ch(s[0]), Single), s[1..]);
      WordGrows(st.word, s);
    }
  }

  /** Quoted text adds itself, whole, to the word under way. */
  lemma ReadQuoted(st: Scan, s: string)
    requires st.mode.Plain?
    ensures Read(st, ShellQuote(s)) == st.(word := st.word + Chars(s), open := true)
  {
    var inside := st.(mode := Single, open := true);
    ReadConcat(st, "'" + QuoteBody(s), "'");
    ReadConcat(st, "'", QuoteBody(s));
    assert Read(st, "'") == inside by { assert "'"[1..] == ""; }
    ReadQuoteBody(inside, s);
    var body := inside.(word := st.word + Chars(s));
    assert Read(body, "'") == body.(mode := Plain) by { assert "'"[1..] == ""; }
  }

  /** A shell reads shellQuote(s) as the single word s, for every s. */
  lemma QuoteRoundTrip(s: string)
    ensures Words(ShellQuote(s)) == Some([Chars(s)])
    ensures Argv(ShellQuote(s), []) == Some([s])
  {
    ReadQuoted(START, s);
    assert START.word + Chars(s) == Chars(s);
    assert START.words + [Chars(s)] == [Chars(s)];
    OneWord(s);
  }

  lemma OneWord(s: string)
    ensures Expand([Chars(s)], []) == [s]
  {
    SpellChars(s);
    NotAllArgs(s);
    assert [Chars(s)][1..] == [];
  }

  lemma {:induction false} SpellChars(s: string)
    ensures Spell(Chars(s)) == s
  {
    if s == "" {
    } else {
      CharsCons(s);
      assert Chars(s)[1..] == Chars(s[1..]);
      SpellChars(s[1..]);
    }
  }

  lemma NotAllArgs(s: string)
    ensures Chars(s) != [AllArgs]
  {
    if |s| == 1 {
      assert Chars(s)[0] == Ch(s[0]);
    }
  }

  // ----- Generated command lines -----

  /** Characters a shell takes as themselves outside quotes. */
  predicate BareChar(c: char) {
    !Special(c) && c != ' ' && c != '\t' && c != '\'' && c != '"' && c != '\\'
  }

  predicate Bare(s: string) {
    forall i | 0 <= i < |s| :: BareChar(s[i])
  }

  /** One argument of a generated line: written bare, or quoted. */
  datatype Arg = Word(text: string) | Quoted(text: string)

  function Write(args: seq<Arg>): string {
    if args == [] then "\"$@\""
    else WriteArg(args[0]) + " " + Write(args[1..])
  }

  function Texts(args: seq<Arg>): seq<string> {
    if args == [] then [] else [args[0].text] + Texts(args[1..])
  }

  lemma FeedBare(st: Scan, c: char)
    requires st.mode.Plain? && BareChar(c)
    ensures Feed(st, c) == Add(st, Ch(c), Plain)
  {}

  lemma BareStep(st: Scan, s: string)
    requires st.mode.Plain? && Bare(s) && s != ""
    ensures Bare(s[1..]) && Read(st, s) == Read(Add(st, Ch(s[0]), Plain), s[1..])
  {
    FeedBare(st, s[0]);
    forall i | 0 <= i < |s| - 1 ensures BareChar(s[1..][i]) {
      assert s[1..][i] == s[i + 1];
    }
  }

  lemma {:induction false} ReadBare(st: Scan, s: string)
    requires st.mode.Plain? && Bare(s)
    ensures Read(st, s) == st.(word := st.word + Chars(s), open := st.open || s != "")
    decreases |s|
  {
    if s == "" {
      assert st.word + Chars(s) == st.word;
    } else {
      BareStep(st, s);
      ReadBare(Add(st, Ch(s[0]), Plain), s[1..]);
      WordGrows(st.word, s);
    }
  }

  /** The words of the arguments that are spelled out. */
  function Layout(args: seq<Arg>): seq<seq<Piece>> {
    if args == [] then [] else [Chars(args[0].text)] + Layout(args[1..])
  }

  lemma ReadAllArgs(st: Scan)
    requires st.mode.Plain? && !st.open && st.word == []
    ensures Read(st, "\"$@\"") == st.(word := [AllArgs], open := true)
  {
    ReadFour(st, '"', '$', '@', '"');
    assert "\"$@\"" == ['"', '$', '@', '"'];
    assert st.word + [AllArgs] == [AllArgs];
  }

  predicate WellWritten(args: seq<Arg>) {
    forall i | 0 <= i < |args| && args[i].Word? :: args[i].text != "" && Bare(args[i].text)
  }

  predicate Between(st: Scan) {
    st.mode.Plain? && !st.open && st.word == []
  }

  lemma LineStep(st: Scan, args: seq<Arg>)
    requires Between(st) && WellWritten(args) && args != []
    ensures Read(st, Write(args)) == Read(st.(words := st.words + [Chars(args[0].text)]), Write(args[1..]))
    ensures WellWritten(args[1..])
  {
    ReadArg(st, args[0], Write(args[1..]));
    forall i | 0 <= i < |args[1..]| && args[1..][i].Word? ensures args[1..][i].text != "" && Bare(args[1..][i].text) {
      assert args[1..][i] == args[i + 1];
    }
  }

  lemma LayoutStep(words: seq<seq<Piece>>, args: seq<Arg>)
    requires args != []
    ensures (words + [Chars(args[0].text)]) + Layout(args[1..]) == words + Layout(args)
  {}

  lemma {:induction false} ReadLine(st: Scan, args: seq<Arg>)
    requires Between(st) && WellWritten(args)
    ensures Read(st, Write(args)) == st.(words := st.words + Layout(args), word := [AllArgs], open := true)
    decreases |args|
  {
    if args == [] {
      ReadAllArgs(st);
      assert st.words + Layout(args) == st.words;
    } else {
      LineStep(st, args);
      ReadLine(st.(words := st.words + [Chars(args[0].text)]), args[1..]);
      LayoutStep(st.words, args);
    }
  }

  function WriteArg(a: Arg): string {
    match a case Word(w) => w case Quoted(q) => ShellQuote(q)
  }

  lemma ReadArg(st: Scan, a: Arg, rest: string)
    requires st.mode.Plain? && !st.open && st.word == []
    requires a.Word? ==> a.text != "" && Bare(a.text)
    ensures Read(st, WriteArg(a) + " " + rest) == Read(st.(words := st.words + [Chars(a.text)]), rest)
  {
    ReadConcat(st, WriteArg(a) + " ", rest);
    ReadConcat(st, WriteArg(a), " ");
    match a {
      case Word(w) => ReadBare(st, w);
      case Quoted(q) => ReadQuoted(st, q);
    }
    assert st.word + Chars(a.text) == Chars(a.text);
    ReadOne(st.(word := Chars(a.text), open := true), ' ');
  }

  lemma {:induction false} ExpandLayout(args: seq<Arg>, given: seq<string>)
    ensures Expand(Layout(args) + [[AllArgs]], given) == Texts(args) + given
    decreases |args|
  {
    var words := Layout(args) + [[AllArgs]];
    if args == [] {
      assert words == [[AllArgs]] && words[1..] == [];
    } else {
      assert words[0] == Chars(args[0].text) && words[1..] == Layout(args[1..]) + [[AllArgs]];
      SpellChars(args[0].text);
      NotAllArgs(args[0].text);
      ExpandLayout(args[1..], given);
    }
  }

  /** A generated line is read back as exactly its arguments, then the script's own. */
  lemma LineRoundTrip(args: seq<Arg>, given: seq<string>)
    requires WellWritten(args)
    ensures Argv(Write(args), given) == Some(Texts(args) + given)
  {
    ReadLine(START, args);
    ExpandLayout(args, given);
    assert START.words + Layout(args) == Layout(args);
  }

  // ----- fish reading a single-quoted word -----

  /** What fish makes of a word that is one quoted text: \\ and \' are escapes even
      between single quotes, so a final backslash swallows the closing quote. */
  function FishToken(text: string): Option<string> {
    if text == "" || text[0] != '\'' then None else FishRest(text[1..])
  }

  /** The rest of the word, after its opening quote. */
  function FishRest(text: string): (r: Option<string>)
    ensures r.Some? ==> |r.value| < |text|
  {
    if text == "" then None
    else if text[0] == '\'' then if |text| == 1 then Some("") else None
    else if text[0] == '\\' && |text| > 1 && (text[1] == '\\' || text[1] == '\'')
    then Prepend(text[1], FishRest(text[2..]))
    else Prepend(text[0], FishRest(text[1..]))
  }

  function Prepend(c: char, r: Option<string>): Option<string> {
    match r case None => None case Some(s) => Some([c] + s)
  }

  predicate NoBackslashTrap(s: string) {
    && (forall i | 0 <= i < |s| - 1 :: !(s[i] == '\\' && s[i + 1] == '\\'))
    && (s != "" ==> s[|s| - 1] != '\\')
  }

  lemma TrapCons(s: string)
    requires s != ""
    ensures NoBackslashTrap(s) <==>
      NoBackslashTrap(s[1..]) && !(s[0] == '\\' && (|s| == 1 || s[1] == '\\'))
  {
    var t := s[1..];
    assert forall i | 0 <= i < |t| :: t[i] == s[i + 1];
    if NoBackslashTrap(t) && !(s[0] == '\\' && (|s| == 1 || s[1] == '\\')) {
      forall i | 0 <= i < |s| - 1 ensures !(s[i] == '\\' && s[i + 1] == '\\') {
        assert i > 0 ==> s[i] == t[i - 1] && s[i + 1] == t[i];
      }
    }
  }

  lemma {:induction false} FishRestOf(s: string)
    requires '\'' !in s
    ensures FishRest(s + "'") == Some(s) <==> NoBackslashTrap(s)
    decreases |s|
  {
    var text := s + "'";
    if s == "" {
    } else {
      TrapCons(s);
      assert text[1..] == s[1..] + "'" && s == [s[0]] + s[1..];
      if s[0] == '\\' && |s| > 1 && s[1] == '\\' {
        assert text[2..] == s[2..] + "'";
      } else if s == "\\" {
        assert text[2..] == "";
      } else {
        FishRestOf(s[1..]);
      }
    }
  }

  lemma {:induction false} QuoteFree(s: string)
    requires '\'' !in s
    ensures QuoteBody(s) == s
  {
    if s == "" {
    } else {
      QuoteFree(s[1..]);
    }
  }

  /** fish reads a path without single quotes, written in the shell's quotes, as that
      path exactly when the path has no doubled and no final backslash. */
  lemma FishReadsPathIff(s: string)
    requires '\'' !in s
    ensures FishToken(ShellQuote(s)) == Some(s) <==> NoBackslashTrap(s)
  {
    QuoteFree(s);
    assert ShellQuote(s)[1..] == s + "'";
    FishRestOf(s);
  }

  // ----- TOML and sshd reading a double-quoted string -----

  predicate TomlControl(c: char) {
    c <= '\U{8}' || '\U{A}' <= c <= '\U{1F}' || c == '\U{7F}'
  }

  /** The rest of a basic string, up to a closing quote at the very end. */
  function TomlRest(text: string): Option<string> {
    if text == "" || TomlControl(text[0]) then None
    else if text[0] == '"' then if |text| == 1 then Some("") else None
    else if text[0] != '\\' then Prepend(text[0], TomlRest(text[1..]))
    else if |text| == 1 then None
    else match text[1]
      case '"' => Prepend('"', TomlRest(text[2..]))
      case '\\' => Prepend('\\', TomlRest(text[2..]))
      case 'b' => Prepend('\U{8}', TomlRest(text[2..]))
      case 't' => Prepend('\t', TomlRest(text[2..]))
      case 'n' => Prepend('\n', TomlRest(text[2..]))
      case 'f' => Prepend('\U{C}', TomlRest(text[2..]))
      case 'r' => Prepend('\r', TomlRest(text[2..]))
      case _ => None
  }

  function TomlString(text: string): Option<string> {
    if text != "" && text[0] == '"' then TomlRest(text[1..]) else None
  }

  /** sshd takes \" , \' and \\ as escapes; other backslashes are themselves. A
      line ends at a newline. */
  function SshdRest(text: string): Option<string> {
    if text == "" || text[0] == '\n' then None
    else if text[0] == '"' then if |text| == 1 then Some("") else None
    else if text[0] == '\\' && |text| > 1 && (text[1] == '"' || text[1] == '\'' || text[1] == '\\')
    then Prepend(text[1], SshdRest(text[2..]))
    else Prepend(text[0], SshdRest(text[1..]))
  }

  function SshdArgument(text: string): Option<string> {
    if text != "" && text[0] == '"' then SshdRest(text[1..]) else None
  }

  lemma EscapeStep(s: string, tail: string)
    requires s != ""
    ensures s[0] == '\\' || s[0] == '"' ==> (Escape(s) + tail)[..2] == ['\\', s[0]] && (Escape(s) + tail)[2..] == Escape(s[1..]) + tail
    ensures s[0] != '\\' && s[0] != '"' ==> (Escape(s) + tail)[0] == s[0] && (Escape(s) + tail)[1..] == Escape(s[1..]) + tail
  {}

  lemma {:induction false} TomlRestOfEscape(s: string)
    ensures TomlRest(Escape(s) + "\"") == if forall c | c in s :: !TomlControl(c) then Some(s) else None
  {
    if s == "" {
    } else {
      EscapeStep(s, "\"");
      TomlRestOfEscape(s[1..]);
      assert s == [s[0]] + s[1..];
    }
  }

  lemma {:induction false} SshdRestOfEscape(s: string)
    ensures SshdRest(Escape(s) + "\"") == if '\n' in s then None else Some(s)
  {
    if s == "" {
    } else {
      EscapeStep(s, "\"");
      SshdRestOfEscape(s[1..]);
      assert s == [s[0]] + s[1..];
    }
  }

  /** TOML reads tomlString(s) back as s exactly when s has no control character
      besides tab; otherwise it is not a TOML string at all. */
  lemma TomlRoundTrip(s: string)
    ensures TomlString(DoubleQuote(s)) == if forall c | c in s :: !TomlControl(c) then Some(s) else None
  {
    TomlRestOfEscape(s);
    assert DoubleQuote(s)[1..] == Escape(s) + "\"";
  }

  /** sshd reads sshdQuote(s) back as s exactly when s has no newline. */
  lemma SshdRoundTrip(s: string)
    ensures SshdArgument(DoubleQuote(s)) == if '\n' in s then None else Some(s)
  {
    SshdRestOfEscape(s);
    assert DoubleQuote(s)[1..] == Escape(s) + "\"";
  }
}
