/** Rewriting a line-based configuration under any scanner that tells headers,
    managed lines and other lines apart: the managed block goes under every header
    of the owned table, managed lines elsewhere go away. */
module LineMerge {
  import opened Text

  datatype Kind = Header(owned: bool) | Managed | Kept

  /** `kind` classifies a line inside or outside the owned table; `key` names what
      a line assigns, "" when it assigns nothing. */
  datatype Scanner = Scanner(kind: (bool, string) -> Kind, key: string -> string)

  /** The block written under a header, and how the scanner takes it. */
  predicate Block(s: Scanner, block: seq<string>) {
    && |block| == 3
    && s.kind(true, block[0]) == Kept && s.key(block[0]) == ""
    && s.kind(true, block[1]) == Managed && s.kind(true, block[2]) == Managed
  }

  /** The table scope after a line. */
  function After(s: Scanner, owned: bool, line: string): bool {
    match s.kind(owned, line) case Header(t) => t case _ => owned
  }

  function Scope(s: Scanner, owned: bool, lines: seq<string>): bool
    decreases |lines|
  {
    if lines == [] then owned else Scope(s, After(s, owned, lines[0]), lines[1..])
  }

  function Rewrite(s: Scanner, owned: bool, line: string, block: seq<string>): seq<string> {
    match s.kind(owned, line)
    case Header(t) => [line] + if t then block else []
    case Managed => []
    case Kept => [line]
  }

  function Merged(s: Scanner, owned: bool, lines: seq<string>, block: seq<string>): seq<string>
    decreases |lines|
  {
    if lines == [] then []
    else Rewrite(s, owned, lines[0], block) + Merged(s, After(s, owned, lines[0]), lines[1..], block)
  }

  /** How many headers of the owned table the scanner meets. */
  function Headers(s: Scanner, owned: bool, lines: seq<string>): nat
    decreases |lines|
  {
    if lines == [] then 0
    else (if s.kind(owned, lines[0]) == Header(true) then 1 else 0) + Headers(s, After(s, owned, lines[0]), lines[1..])
  }

  function Closing(body: seq<string>, header: string): seq<string> {
    (if body == [] then [] else [""]) + [header]
  }

  /** The whole rewrite; a table is added when there is none. */
  function MergeLines(s: Scanner, lines: seq<string>, header: string, block: seq<string>): seq<string> {
    var body := Merged(s, false, lines, block);
    if Headers(s, false, lines) > 0 then body else body + Closing(body, header) + block
  }

  lemma {:induction false} ScopeSnoc(s: Scanner, owned: bool, lines: seq<string>, line: string)
    ensures var at := Scope(s, owned, lines);
      && Scope(s, owned, lines + [line]) == After(s, at, line)
      && Headers(s, owned, lines + [line]) == Headers(s, owned, lines) + (if s.kind(at, line) == Header(true) then 1 else 0)
    decreases |lines|
  {
    if lines == [] {
      assert ([] + [line])[1..] == [];
    } else {
      assert (lines + [line])[1..] == lines[1..] + [line];
      ScopeSnoc(s, After(s, owned, lines[0]), lines[1..], line);
    }
  }

  lemma {:induction false} MergedSnoc(s: Scanner, owned: bool, lines: seq<string>, line: string, block: seq<string>)
    ensures Merged(s, owned, lines + [line], block)
         == Merged(s, owned, lines, block) + Rewrite(s, Scope(s, owned, lines), line, block)
    decreases |lines|
  {
    if lines == [] {
      assert ([] + [line])[1..] == [];
    } else {
      assert (lines + [line])[1..] == lines[1..] + [line];
      MergedSnoc(s, After(s, owned, lines[0]), lines[1..], line, block);
    }
  }

  /** The client's loop: one pass, two flags. */
  method Run(s: Scanner, lines: seq<string>, header: string, block: seq<string>) returns (out: seq<string>)
    ensures out == MergeLines(s, lines, header, block)
  {
    out := [];
    var owned, found := false, false;
    for k := 0 to |lines|
      invariant out == Merged(s, false, lines[..k], block)
      invariant owned == Scope(s, false, lines[..k])
      invariant found == (Headers(s, false, lines[..k]) > 0)
    {
      assert lines[..k + 1] == lines[..k] + [lines[k]];
      MergedSnoc(s, false, lines[..k], lines[k], block);
      ScopeSnoc(s, false, lines[..k], lines[k]);
      match s.kind(owned, lines[k]) {
        case Header(t) =>
          owned := t;
          out := out + [lines[k]];
          if owned {
            found := true;
            out := out + block;
          }
        case Managed =>
        case Kept =>
          out := out + [lines[k]];
      }
    }
    assert lines[..|lines|] == lines;
    if !found {
      out := out + Closing(out, header) + block;
    }
  }

  // ----- What survives, and what is managed afterwards -----

  /** The user's own lines: all but managed ones and copies of the block's comment. */
  function Own(s: Scanner, owned: bool, lines: seq<string>, comment: string): seq<string>
    decreases |lines|
  {
    if lines == [] then []
    else
      (if s.kind(owned, lines[0]).Managed? || lines[0] == comment then [] else [lines[0]])
      + Own(s, After(s, owned, lines[0]), lines[1..], comment)
  }

  /** Every header of the owned table is followed by the block, and nothing else
      is managed anywhere. */
  predicate Tidy(s: Scanner, owned: bool, lines: seq<string>, block: seq<string>)
    decreases |lines|
  {
    if lines == [] then true
    else match s.kind(owned, lines[0])
      case Header(true) => |lines| >= 4 && |block| == 3 && lines[1..4] == block && Tidy(s, true, lines[4..], block)
      case Header(false) => Tidy(s, false, lines[1..], block)
      case Managed => false
      case Kept => Tidy(s, owned, lines[1..], block)
  }

  /** The assignments the scanner sees, with their table scope and text. */
  datatype Setting = Setting(owned: bool, key: string, line: string)

  function Settings(s: Scanner, owned: bool, lines: seq<string>): seq<Setting>
    decreases |lines|
  {
    if lines == [] then []
    else
      (if s.kind(owned, lines[0]).Header? || s.key(lines[0]) == "" then []
       else [Setting(owned, s.key(lines[0]), lines[0])])
      + Settings(s, After(s, owned, lines[0]), lines[1..])
  }

  /** A block is scanned line by line, inside the table. */
  lemma BlockSteps(s: Scanner, block: seq<string>, rest: seq<string>)
    requires Block(s, block)
    ensures var all := block + rest;
      && all[0] == block[0] && all[1..] == block[1..] + rest
      && all[1..][0] == block[1] && all[1..][1..] == block[2..] + rest
      && all[1..][1..][0] == block[2] && all[1..][1..][1..] == rest
  {}

  lemma SkipBlock(s: Scanner, block: seq<string>, rest: seq<string>)
    requires Block(s, block)
    ensures Own(s, true, block + rest, block[0]) == Own(s, true, rest, block[0])
    ensures Merged(s, true, block + rest, block) == [block[0]] + Merged(s, true, rest, block)
    ensures Headers(s, true, block + rest) == Headers(s, true, rest)
    ensures Scope(s, true, block + rest) == Scope(s, true, rest)
    ensures Settings(s, true, [block[0]] + rest) == Settings(s, true, rest)
  {
    var all := block + rest;
    var two, one := all[1..], all[1..][1..];
    BlockSteps(s, block, rest);
    assert Own(s, true, one, block[0]) == Own(s, true, rest, block[0]);
    assert Own(s, true, two, block[0]) == Own(s, true, one, block[0]);
    assert Merged(s, true, one, block) == Merged(s, true, rest, block);
    assert Merged(s, true, two, block) == Merged(s, true, one, block);
    assert Headers(s, true, one) == Headers(s, true, rest);
    assert Headers(s, true, two) == Headers(s, true, one);
    assert Scope(s, true, one) == Scope(s, true, rest);
    assert Scope(s, true, two) == Scope(s, true, one);
    assert ([block[0]] + rest)[1..] == rest;
  }

  lemma {:induction false} OwnConcat(s: Scanner, owned: bool, a: seq<string>, b: seq<string>, comment: string)
    ensures Own(s, owned, a + b, comment) == Own(s, owned, a, comment) + Own(s, Scope(s, owned, a), b, comment)
    decreases |a|
  {
    if a == [] {
      assert a + b == b;
    } else {
      assert (a + b)[1..] == a[1..] + b;
      OwnConcat(s, After(s, owned, a[0]), a[1..], b, comment);
    }
  }

  /** Scanning a header and its block leaves the table open. */
  lemma TableScope(s: Scanner, owned: bool, header: string, block: seq<string>, rest: seq<string>)
    requires Block(s, block) && s.kind(owned, header) == Header(true)
    ensures Scope(s, owned, [header] + block + rest) == Scope(s, true, rest)
    ensures Headers(s, owned, [header] + block + rest) == 1 + Headers(s, true, rest)
  {
    assert ([header] + block + rest)[1..] == block + rest;
    SkipBlock(s, block, rest);
  }

  lemma {:induction false} MergedScope(s: Scanner, owned: bool, lines: seq<string>, block: seq<string>)
    requires Block(s, block)
    ensures Scope(s, owned, Merged(s, owned, lines, block)) == Scope(s, owned, lines)
    ensures Headers(s, owned, Merged(s, owned, lines, block)) == Headers(s, owned, lines)
    decreases |lines|
  {
    if lines == [] {
    } else {
      var rest := Merged(s, After(s, owned, lines[0]), lines[1..], block);
      MergedScope(s, After(s, owned, lines[0]), lines[1..], block);
      match s.kind(owned, lines[0])
      case Header(true) =>
        TableScope(s, owned, lines[0], block, rest);
      case Header(false) => assert ([lines[0]] + [] + rest)[1..] == rest;
      case Managed => assert [] + rest == rest;
      case Kept => assert ([lines[0]] + rest)[1..] == rest;
    }
  }

  lemma OwnHead(s: Scanner, owned: bool, line: string, rest: seq<string>, comment: string)
    ensures Own(s, owned, [line] + rest, comment)
         == (if s.kind(owned, line).Managed? || line == comment then [] else [line])
            + Own(s, After(s, owned, line), rest, comment)
  {
    assert ([line] + rest)[1..] == rest;
  }

  lemma OwnRewritten(s: Scanner, owned: bool, line: string, block: seq<string>, rest: seq<string>)
    requires Block(s, block)
    ensures Own(s, owned, Rewrite(s, owned, line, block) + rest, block[0])
         == (if s.kind(owned, line).Managed? || line == block[0] then [] else [line])
            + Own(s, After(s, owned, line), rest, block[0])
  {
    match s.kind(owned, line)
    case Header(true) =>
      assert Rewrite(s, owned, line, block) + rest == [line] + (block + rest);
      OwnHead(s, owned, line, block + rest, block[0]);
      SkipBlock(s, block, rest);
    case Managed => assert [] + rest == rest;
    case _ =>
      assert Rewrite(s, owned, line, block) == [line];
      OwnHead(s, owned, line, rest, block[0]);
  }

  /** The user's lines survive the pass, verbatim and in order. */
  lemma {:induction false} OwnLinesSurvive(s: Scanner, owned: bool, lines: seq<string>, block: seq<string>)
    requires Block(s, block)
    ensures Own(s, owned, Merged(s, owned, lines, block), block[0]) == Own(s, owned, lines, block[0])
    decreases |lines|
  {
    if lines == [] {
    } else {
      var next := After(s, owned, lines[0]);
      OwnLinesSurvive(s, next, lines[1..], block);
      OwnRewritten(s, owned, lines[0], block, Merged(s, next, lines[1..], block));
    }
  }

  lemma {:induction false} MergedIsTidy(s: Scanner, owned: bool, lines: seq<string>, block: seq<string>)
    requires Block(s, block)
    ensures Tidy(s, owned, Merged(s, owned, lines, block), block)
    decreases |lines|
  {
    if lines == [] {
    } else {
      var rest := Merged(s, After(s, owned, lines[0]), lines[1..], block);
      MergedIsTidy(s, After(s, owned, lines[0]), lines[1..], block);
      match s.kind(owned, lines[0])
      case Header(true) =>
        TidyFold(s, owned, lines[0], block, rest);
      case Header(false) => assert ([lines[0]] + [] + rest)[1..] == rest;
      case Managed => assert [] + rest == rest;
      case Kept => assert ([lines[0]] + rest)[1..] == rest;
    }
  }

  lemma TidyFold(s: Scanner, owned: bool, header: string, block: seq<string>, rest: seq<string>)
    requires Block(s, block) && s.kind(owned, header) == Header(true) && Tidy(s, true, rest, block)
    ensures Tidy(s, owned, [header] + block + rest, block)
  {
    var all := [header] + block + rest;
    assert all[1..4] == block && all[4..] == rest;
  }

  lemma {:induction false} TidyConcat(s: Scanner, owned: bool, a: seq<string>, b: seq<string>, block: seq<string>)
    requires Block(s, block) && Tidy(s, owned, a, block) && Tidy(s, Scope(s, owned, a), b, block)
    ensures Tidy(s, owned, a + b, block)
    decreases |a|
  {
    if a == [] {
      assert a + b == b;
    } else if s.kind(owned, a[0]) == Header(true) {
      assert a == [a[0]] + block + a[4..];
      assert Scope(s, owned, a) == Scope(s, true, a[4..]) by { TableScope(s, owned, a[0], block, a[4..]); }
      TidyConcat(s, true, a[4..], b, block);
      assert a + b == [a[0]] + block + (a[4..] + b);
      TidyFold(s, owned, a[0], block, a[4..] + b);
    } else {
      assert (a + b)[1..] == a[1..] + b;
      TidyConcat(s, After(s, owned, a[0]), a[1..], b, block);
    }
  }

  /** On tidy lines the pass only repeats the comment under each header: the
      assignments are the same, and there is one more line per header. */
  lemma {:induction false} TidyIsStable(s: Scanner, owned: bool, lines: seq<string>, block: seq<string>)
    requires Block(s, block) && Tidy(s, owned, lines, block)
    ensures Settings(s, owned, Merged(s, owned, lines, block)) == Settings(s, owned, lines)
    ensures |Merged(s, owned, lines, block)| == |lines| + Headers(s, owned, lines)
    decreases |lines|
  {
    if lines == [] {
    } else if s.kind(owned, lines[0]) == Header(true) {
      TidyHeader(s, owned, lines, block);
    } else {
      var rest := Merged(s, After(s, owned, lines[0]), lines[1..], block);
      TidyIsStable(s, After(s, owned, lines[0]), lines[1..], block);
      assert Rewrite(s, owned, lines[0], block) == [lines[0]];
      assert ([lines[0]] + rest)[1..] == rest;
    }
  }

  lemma TidyHeader(s: Scanner, owned: bool, lines: seq<string>, block: seq<string>)
    requires Block(s, block) && Tidy(s, owned, lines, block) && lines != [] && s.kind(owned, lines[0]) == Header(true)
    ensures Settings(s, owned, Merged(s, owned, lines, block)) == Settings(s, owned, lines)
    ensures |Merged(s, owned, lines, block)| == |lines| + Headers(s, owned, lines)
    decreases |lines|, 0
  {
    var rest := lines[4..];
    var done := Merged(s, true, rest, block);
    TidyIsStable(s, true, rest, block);
    assert lines == [lines[0]] + block + rest;
    TableScope(s, owned, lines[0], block, rest);
    RewriteBlock(s, owned, lines[0], block, rest);
    SettingsOfTable(s, owned, lines[0], block, [block[0]] + done);
    SettingsOfTable(s, owned, lines[0], block, rest);
    SkipBlock(s, block, done);
  }

  /** Rewriting a table that already has its block writes the comment once more. */
  lemma RewriteBlock(s: Scanner, owned: bool, header: string, block: seq<string>, rest: seq<string>)
    requires Block(s, block) && s.kind(owned, header) == Header(true)
    ensures Merged(s, owned, [header] + block + rest, block) == [header] + block + ([block[0]] + Merged(s, true, rest, block))
  {
    assert ([header] + block + rest)[1..] == block + rest;
    SkipBlock(s, block, rest);
  }

  lemma SettingsOfTable(s: Scanner, owned: bool, header: string, block: seq<string>, rest: seq<string>)
    requires Block(s, block) && s.kind(owned, header) == Header(true)
    ensures Settings(s, owned, [header] + block + rest) == BlockSettings(s, block) + Settings(s, true, rest)
  {
    var all := [header] + block + rest;
    assert all[1..] == block + rest;
    assert Settings(s, owned, all) == [] + Settings(s, true, all[1..]);
    SettingsPastBlock(s, block, rest);
  }

  /** What the block itself assigns. */
  function BlockSettings(s: Scanner, block: seq<string>): seq<Setting> {
    Settings(s, true, block)
  }

  lemma SettingsPastBlock(s: Scanner, block: seq<string>, rest: seq<string>)
    requires Block(s, block)
    ensures Settings(s, true, block + rest) == BlockSettings(s, block) + Settings(s, true, rest)
  {
    var all := block + rest;
    var two, one := all[1..], all[1..][1..];
    BlockSteps(s, block, rest);
    BlockSteps(s, block, []);
    assert block + [] == block;
    var third := block[1..][1..];
    assert Settings(s, true, third) + Settings(s, true, rest) == Settings(s, true, one);
    assert Settings(s, true, block[1..]) + Settings(s, true, rest) == Settings(s, true, two);
  }

  // ----- Trailing blank lines -----

  /** A blank line means nothing to the scanner. */
  predicate BlankMeansNothing(s: Scanner) {
    s.kind(true, "") == Kept && s.kind(false, "") == Kept && s.key("") == ""
  }

  function StripBlank(lines: seq<string>): (r: seq<string>)
    ensures r <= lines && (r == [] || r[|r| - 1] != "")
  {
    if lines != [] && lines[|lines| - 1] == "" then StripBlank(lines[..|lines| - 1]) else lines
  }

  lemma {:induction false} BlankTail(s: Scanner, owned: bool, lines: seq<string>, block: seq<string>)
    requires BlankMeansNothing(s) && Block(s, block)
    ensures Settings(s, owned, lines + [""]) == Settings(s, owned, lines)
    ensures Tidy(s, owned, lines + [""], block) ==> Tidy(s, owned, lines, block)
    decreases |lines|
  {
    var longer := lines + [""];
    if lines == [] {
      assert longer == [""] && [""][1..] == [];
    } else {
      assert longer[1..] == lines[1..] + [""];
      BlankTail(s, After(s, owned, lines[0]), lines[1..], block);
      if s.kind(owned, lines[0]) == Header(true) && Tidy(s, owned, longer, block) {
        assert longer[1..4][2] == longer[3] == block[2];
        assert longer[4..] == lines[4..] + [""];
        assert longer[1..4] == lines[1..4];
        BlankTail(s, true, lines[4..], block);
      }
    }
  }

  /** Dropping trailing blank lines changes no assignment, header or order. */
  lemma {:induction false} StripKeeps(s: Scanner, lines: seq<string>, block: seq<string>)
    requires BlankMeansNothing(s) && Block(s, block)
    ensures Settings(s, false, StripBlank(lines)) == Settings(s, false, lines)
    ensures Headers(s, false, StripBlank(lines)) == Headers(s, false, lines)
    ensures Tidy(s, false, lines, block) ==> Tidy(s, false, StripBlank(lines), block)
  {
    if lines != [] && lines[|lines| - 1] == "" {
      var shorter := lines[..|lines| - 1];
      assert lines == shorter + [""];
      BlankTail(s, false, shorter, block);
      ScopeSnoc(s, false, shorter, "");
      StripKeeps(s, shorter, block);
    }
  }

  // ----- The whole merge -----

  /** The text of the added table header must be taken as one. */
  predicate Opens(s: Scanner, header: string) {
    s.kind(true, header) == Header(true) && s.kind(false, header) == Header(true)
  }

  lemma ClosingFacts(s: Scanner, owned: bool, body: seq<string>, header: string, block: seq<string>)
    requires Block(s, block) && BlankMeansNothing(s) && Opens(s, header) && header != block[0] && block[0] != ""
    ensures var tail := Closing(body, header) + block;
      && Tidy(s, owned, tail, block) && Headers(s, owned, tail) == 1
      && Own(s, owned, tail, block[0]) == Closing(body, header)
  {
    var table := [header] + block;
    assert table[1..] == block && table[1..4] == block && table[4..] == [];
    assert block + [] == block;
    SkipBlock(s, block, []);
    OwnHead(s, owned, header, block, block[0]);
    if body == [] {
      assert Closing(body, header) + block == table;
    } else {
      assert Closing(body, header) + block == [""] + table;
      assert ([""] + table)[1..] == table;
      OwnHead(s, owned, "", table, block[0]);
    }
  }

  lemma {:induction false} HeadersConcat(s: Scanner, owned: bool, a: seq<string>, b: seq<string>)
    ensures Headers(s, owned, a + b) == Headers(s, owned, a) + Headers(s, Scope(s, owned, a), b)
    decreases |a|
  {
    if a == [] {
      assert a + b == b;
    } else {
      assert (a + b)[1..] == a[1..] + b;
      HeadersConcat(s, After(s, owned, a[0]), a[1..], b);
    }
  }

  /** After a merge the user's lines are all there, verbatim and in order, every
      owned header carries exactly the block, nothing else is managed, and there
      is at least one such header. */
  lemma MergeKeepsAndTidies(s: Scanner, lines: seq<string>, header: string, block: seq<string>)
    requires Block(s, block) && BlankMeansNothing(s) && Opens(s, header) && header != block[0] && block[0] != ""
    ensures var out := MergeLines(s, lines, header, block);
      && Own(s, false, out, block[0]) == Own(s, false, lines, block[0])
           + (if Headers(s, false, lines) > 0 then [] else Closing(Merged(s, false, lines, block), header))
      && Tidy(s, false, out, block)
      && Headers(s, false, out) == (if Headers(s, false, lines) > 0 then Headers(s, false, lines) else 1)
  {
    var body := Merged(s, false, lines, block);
    OwnLinesSurvive(s, false, lines, block);
    MergedIsTidy(s, false, lines, block);
    MergedScope(s, false, lines, block);
    if Headers(s, false, lines) == 0 {
      AddedTable(s, body, header, block);
    }
  }

  lemma AddedTable(s: Scanner, body: seq<string>, header: string, block: seq<string>)
    requires Block(s, block) && BlankMeansNothing(s) && Opens(s, header) && header != block[0] && block[0] != ""
    requires Tidy(s, false, body, block) && Headers(s, false, body) == 0
    ensures var out := body + Closing(body, header) + block;
      && Own(s, false, out, block[0]) == Own(s, false, body, block[0]) + Closing(body, header)
      && Tidy(s, false, out, block) && Headers(s, false, out) == 1
  {
    var tail := Closing(body, header) + block;
    ClosingFacts(s, Scope(s, false, body), body, header, block);
    assert body + Closing(body, header) + block == body + tail;
    TidyConcat(s, false, body, tail, block);
    HeadersConcat(s, false, body, tail);
    OwnConcat(s, false, body, tail, block[0]);
  }

  /** Merging tidy lines again assigns the same and adds one line per header. */
  lemma RemergeStable(s: Scanner, lines: seq<string>, header: string, block: seq<string>)
    requires Block(s, block) && Tidy(s, false, lines, block) && Headers(s, false, lines) > 0
    ensures var again := MergeLines(s, lines, header, block);
      && Settings(s, false, again) == Settings(s, false, lines)
      && |again| == |lines| + Headers(s, false, lines)
  {
    TidyIsStable(s, false, lines, block);
  }

  lemma {:induction false} MergedWithout(s: Scanner, owned: bool, lines: seq<string>, block: seq<string>, c: char)
    requires Without(lines, c) && Without(block, c)
    ensures Without(Merged(s, owned, lines, block), c)
    decreases |lines|
  {
    if lines == [] {
    } else {
      MergedWithout(s, After(s, owned, lines[0]), lines[1..], block, c);
    }
  }

  /** The written lines are free of any character the given ones are free of. */
  lemma MergeLinesWithout(s: Scanner, lines: seq<string>, header: string, block: seq<string>, c: char)
    requires Without(lines, c) && Without(block, c) && c !in header
    ensures Without(MergeLines(s, lines, header, block), c)
  {
    MergedWithout(s, false, lines, block, c);
  }

  // ----- What a tidy configuration assigns to a managed key -----

  /** The settings of one key in one scope. */
  function Of(settings: seq<Setting>, owned: bool, key: string): seq<Setting> {
    if settings == [] then [] else Matching(settings[0], owned, key) + Of(settings[1..], owned, key)
  }

  function Repeat(settings: seq<Setting>, n: nat): seq<Setting> {
    if n == 0 then [] else settings + Repeat(settings, n - 1)
  }

  function Matching(x: Setting, owned: bool, key: string): seq<Setting> {
    if x.owned == owned && x.key == key then [x] else []
  }

  lemma OfStep(x: Setting, rest: seq<Setting>, owned: bool, key: string)
    ensures Of([x] + rest, owned, key) == Matching(x, owned, key) + Of(rest, owned, key)
  {
    assert ([x] + rest)[1..] == rest;
  }

  lemma {:induction false} OfConcat(a: seq<Setting>, b: seq<Setting>, owned: bool, key: string)
    ensures Of(a + b, owned, key) == Of(a, owned, key) + Of(b, owned, key)
    decreases |a|
  {
    if a == [] {
      assert a + b == b;
    } else {
      OfConcat(a[1..], b, owned, key);
      assert a == [a[0]] + a[1..] && a + b == [a[0]] + (a[1..] + b);
      OfStep(a[0], a[1..] + b, owned, key);
      OfStep(a[0], a[1..], owned, key);
    }
  }

  lemma OfPair(a: Setting, b: Setting, owned: bool, key: string)
    ensures Of([a, b], owned, key) == Matching(a, owned, key) + Matching(b, owned, key)
  {
    OfStep(b, [], owned, key);
    OfStep(a, [b], owned, key);
    assert [a] + [b] == [a, b] && [b] + [] == [b];
  }

  /** The key belongs to the client in that scope. */
  ghost predicate ManagedKey(s: Scanner, owned: bool, key: string) {
    key != "" && forall l :: s.key(l) == key && !s.kind(owned, l).Header? ==> s.kind(owned, l).Managed?
  }

  /** The step past a line that is neither managed nor a header of the owned table. */
  lemma OtherLine(s: Scanner, at: bool, lines: seq<string>, owned: bool, key: string)
    requires lines != [] && ManagedKey(s, owned, key) && !s.kind(at, lines[0]).Managed?
    ensures Of(Settings(s, at, lines), owned, key) == Of(Settings(s, After(s, at, lines[0]), lines[1..]), owned, key)
  {
    var head := if s.kind(at, lines[0]).Header? || s.key(lines[0]) == "" then [] else [Setting(at, s.key(lines[0]), lines[0])];
    var rest := Settings(s, After(s, at, lines[0]), lines[1..]);
    assert Settings(s, at, lines) == head + rest;
    OfConcat(head, rest, owned, key);
    if head != [] {
      assert head[1..] == [];
    }
  }

  lemma OwnedTable(s: Scanner, at: bool, lines: seq<string>, block: seq<string>, owned: bool, key: string)
    requires Block(s, block) && |lines| >= 4 && s.kind(at, lines[0]) == Header(true) && lines[1..4] == block
    ensures Of(Settings(s, at, lines), owned, key) == Of(BlockSettings(s, block), owned, key) + Of(Settings(s, true, lines[4..]), owned, key)
    ensures Headers(s, at, lines) == 1 + Headers(s, true, lines[4..])
  {
    assert lines == [lines[0]] + block + lines[4..];
    SettingsOfTable(s, at, lines[0], block, lines[4..]);
    TableScope(s, at, lines[0], block, lines[4..]);
    OfConcat(BlockSettings(s, block), Settings(s, true, lines[4..]), owned, key);
  }

  /** In tidy lines a key of the client's is assigned as the block assigns it, once
      for each header, and nowhere else. */
  lemma {:induction false} TidyAssigns(s: Scanner, at: bool, lines: seq<string>, block: seq<string>, owned: bool, key: string)
    requires Block(s, block) && Tidy(s, at, lines, block) && ManagedKey(s, owned, key)
    ensures Of(Settings(s, at, lines), owned, key) == Repeat(Of(BlockSettings(s, block), owned, key), Headers(s, at, lines))
    decreases |lines|
  {
    if lines == [] {
    } else if s.kind(at, lines[0]) == Header(true) {
      OwnedTable(s, at, lines, block, owned, key);
      TidyAssigns(s, true, lines[4..], block, owned, key);
    } else {
      OtherLine(s, at, lines, owned, key);
      TidyAssigns(s, After(s, at, lines[0]), lines[1..], block, owned, key);
    }
  }

  /** So with a block of two assignments. */
  lemma TidyReads(s: Scanner, lines: seq<string>, block: seq<string>, a: Setting, b: Setting, owned: bool, key: string)
    requires Block(s, block) && Tidy(s, false, lines, block) && ManagedKey(s, owned, key) && BlockSettings(s, block) == [a, b]
    ensures Of(Settings(s, false, lines), owned, key)
      == Repeat(Matching(a, owned, key) + Matching(b, owned, key), Headers(s, false, lines))
  {
    TidyAssigns(s, false, lines, block, owned, key);
    OfPair(a, b, owned, key);
  }

  lemma {:induction false} NothingRepeated(n: nat)
    ensures Repeat([], n) == []
  {
    if n == 0 {
    } else {
      NothingRepeated(n - 1);
    }
  }

  /** The block's own assignments, when its lines have these keys. */
  lemma BlockAssigns(s: Scanner, block: seq<string>, first: string, second: string)
    requires Block(s, block) && s.key(block[1]) == first != "" && s.key(block[2]) == second != ""
    ensures BlockSettings(s, block) == [Setting(true, first, block[1]), Setting(true, second, block[2])]
  {
    BlockSteps(s, block, []);
    assert block + [] == block;
    var two, one := block[1..], block[1..][1..];
    assert one[1..] == [] && Settings(s, true, one) == [Setting(true, second, block[2])];
    assert Settings(s, true, two) == [Setting(true, first, block[1])] + Settings(s, true, one);
  }
}
