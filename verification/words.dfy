/** Splitting a text into fields at white space. */
module Words {
  import opened Text

  function WordEnd(s: string): (n: nat)
    ensures n <= |s| && (s != "" && !IsSpace(s[0]) ==> n > 0)
    ensures forall i | 0 <= i < n :: !IsSpace(s[i])
    ensures n < |s| ==> IsSpace(s[n])
  {
    if s == "" || IsSpace(s[0]) then 0 else 1 + WordEnd(s[1..])
  }

  /** strings.Fields: the maximal runs of characters that are not white space. */
  function Fields(s: string): seq<string>
    decreases |s|
  {
    var t := TrimLeft(s);
    if t == "" then [] else [t[..WordEnd(t)]] + Fields(t[WordEnd(t)..])
  }

  ghost predicate Solid(s: string) {
    s != "" && forall i | 0 <= i < |s| :: !IsSpace(s[i])
  }

  lemma WordEndAt(a: string, rest: string)
    requires Solid(a) && (rest == "" || IsSpace(rest[0]))
    ensures WordEnd(a + rest) == |a|
  {
    var s := a + rest;
    var n := WordEnd(s);
    assert forall i | 0 <= i < |a| :: s[i] == a[i];
    if rest != "" {
      assert s[|a|] == rest[0];
    }
  }

  lemma FieldsStep(a: string, rest: string)
    requires Solid(a) && (rest == "" || IsSpace(rest[0]))
    ensures Fields(a + rest) == [a] + Fields(rest)
  {
    var s := a + rest;
    assert !IsSpace(s[0]) && TrimLeft(s) == s;
    WordEndAt(a, rest);
    assert s[..|a|] == a && s[|a|..] == rest;
  }

  /** White space between fields, or around them. */
  ghost predicate Blank(s: string) {
    forall i | 0 <= i < |s| :: IsSpace(s[i])
  }

  lemma {:induction false} BlankIsSkipped(blank: string, rest: string)
    requires Blank(blank)
    ensures TrimLeft(blank + rest) == TrimLeft(rest)
    decreases |blank|
  {
    if blank == "" {
      assert blank + rest == rest;
    } else {
      assert (blank + rest)[1..] == blank[1..] + rest;
      BlankIsSkipped(blank[1..], rest);
    }
  }

  predicate Trimmed(s: string) {
    s != "" && !IsSpace(s[0]) && !IsSpace(s[|s| - 1])
  }

  lemma LeadTrimmed(lead: string, text: string)
    requires Blank(lead) && (text == "" || !IsSpace(text[0]))
    ensures TrimLeft(lead + text) == text
  {
    BlankIsSkipped(lead, text);
  }

  lemma {:induction false} TailTrimmed(text: string, tail: string)
    requires text != "" && !IsSpace(text[|text| - 1])
    ensures TrimRight(text + tail) == text + TrimRight(tail)
    decreases |tail|
  {
    if tail == "" {
      assert text + tail == text;
    } else {
      var shorter := tail[..|tail| - 1];
      assert (text + tail)[..|text + tail| - 1] == text + shorter;
      if IsSpace(tail[|tail| - 1]) { TailTrimmed(text, shorter); }
    }
  }

  lemma {:induction false} BlankVanishes(gap: string)
    requires Blank(gap)
    ensures TrimRight(gap) == ""
  {
    if gap == "" {
    } else {
      BlankVanishes(gap[..|gap| - 1]);
    }
  }

  /** Trimming takes away what is around a trimmed text, and no more. */
  lemma Trimming(lead: string, text: string, tail: string)
    requires Blank(lead) && Trimmed(text)
    ensures TrimSpace(lead + (text + tail)) == text + TrimRight(tail)
  {
    assert (text + tail)[0] == text[0];
    LeadTrimmed(lead, text + tail);
    TailTrimmed(text, tail);
  }

  lemma FieldsSkip(blank: string, rest: string)
    requires Blank(blank)
    ensures Fields(blank + rest) == Fields(rest)
  {
    BlankIsSkipped(blank, rest);
  }

  lemma FieldsOfOneMore(word: string, gap: string, rest: string)
    requires Solid(word) && Blank(gap) && (gap != "" || rest == "")
    ensures Fields(word + (gap + rest)) == [word] + Fields(rest)
  {
    if gap == "" {
      assert gap + rest == "";
    } else {
      assert (gap + rest)[0] == gap[0];
    }
    FieldsStep(word, gap + rest);
    FieldsSkip(gap, rest);
  }

  /** Words with white space after each: a text laid out by hand. */
  function Laid(words: seq<string>, gaps: seq<string>): string
    requires |words| == |gaps|
  {
    if words == [] then "" else words[0] + (gaps[0] + Laid(words[1..], gaps[1..]))
  }

  /** Words and the white space after each; only the last may have none. */
  ghost predicate WellLaid(words: seq<string>, gaps: seq<string>) {
    && |words| == |gaps|
    && forall i | 0 <= i < |words| :: Solid(words[i]) && Blank(gaps[i]) && (gaps[i] != "" || i == |words| - 1)
  }

  lemma WellLaidTail(words: seq<string>, gaps: seq<string>)
    requires WellLaid(words, gaps) && words != []
    ensures WellLaid(words[1..], gaps[1..])
  {
    var w, g := words[1..], gaps[1..];
    forall i | 0 <= i < |w| ensures Solid(w[i]) && Blank(g[i]) && (g[i] != "" || i == |w| - 1) {
      assert w[i] == words[i + 1] && g[i] == gaps[i + 1];
    }
  }

  lemma HeadIsField(words: seq<string>, gaps: seq<string>)
    requires WellLaid(words, gaps) && words != []
    ensures Fields(Laid(words, gaps)) == [words[0]] + Fields(Laid(words[1..], gaps[1..]))
  {
    var rest := Laid(words[1..], gaps[1..]);
    assert |words| == 1 ==> rest == "";
    FieldsOfOneMore(words[0], gaps[0], rest);
  }

  /** Fields are the words, however they are laid out. */
  lemma {:induction false} FieldsOfLaid(words: seq<string>, gaps: seq<string>)
    requires WellLaid(words, gaps)
    ensures Fields(Laid(words, gaps)) == words
    decreases |words|
  {
    if words == [] {
    } else {
      WellLaidTail(words, gaps);
      HeadIsField(words, gaps);
      FieldsOfLaid(words[1..], gaps[1..]);
      assert words == [words[0]] + words[1..];
    }
  }

  lemma LaidTwo(a: string, b: string, gap: string)
    requires Solid(a) && Solid(b) && gap == [' ']
    ensures WellLaid([a, b], [gap, []]) && Laid([a, b], [gap, []]) == a + gap + b
  {
    assert [a, b][1..] == [b] && [gap, []][1..] == [[]] && [b][1..] == [];
    assert Laid([b], [[]]) == b + ([] + []);
  }

  lemma TwoFields(a: string, b: string)
    requires Solid(a) && Solid(b)
    ensures Fields(a + [' '] + b) == [a, b]
  {
    LaidTwo(a, b, [' ']);
    FieldsOfLaid([a, b], [[' '], []]);
  }
}
