/** The environment of the Herdr server: the parent's, with a few variables set by
    the client. An environment is a list of strings, mostly KEY=value. */
module ServerEnv {
  import opened Text

  datatype Entry = Entry(key: string, value: string)

  function TextOf(e: Entry): string {
    e.key + "=" + e.value
  }

  /** Position of the '=' that ends a key; 0 when the string has no key. */
  function KeyEnd(kv: string): (i: nat)
    ensures i < |kv| || kv == ""
  {
    var i := IndexOf(kv, '=');
    if i < |kv| then i else 0
  }

  function KeyOf(kv: string): string {
    if KeyEnd(kv) > 0 then kv[..KeyEnd(kv)] else kv
  }

  /** What a list means to the client: the last value of each key. */
  function EnvMap(environ: seq<string>): map<string, string> {
    if environ == [] then map[]
    else
      var m, kv := EnvMap(environ[..|environ| - 1]), environ[|environ| - 1];
      if KeyEnd(kv) > 0 then m[kv[..KeyEnd(kv)] := kv[KeyEnd(kv) + 1..]] else m
  }

  method EnvironMap(environ: seq<string>) returns (m: map<string, string>)
    ensures m == EnvMap(environ)
  {
    m := map[];
    for k := 0 to |environ|
      invariant m == EnvMap(environ[..k])
    {
      var kv := environ[k];
      assert environ[..k + 1][..k] == environ[..k];
      if KeyEnd(kv) > 0 {
        m := m[kv[..KeyEnd(kv)] := kv[KeyEnd(kv) + 1..]];
      }
    }
    assert environ[..|environ|] == environ;
  }

  predicate Assigns(kv: string, key: string) {
    key != "" && '=' !in key && key + "=" <= kv
  }

  lemma AssignsIff(kv: string, key: string)
    ensures Assigns(kv, key) <==> KeyEnd(kv) > 0 && kv[..KeyEnd(kv)] == key
  {
    if Assigns(kv, key) {
      assert kv == key + ['='] + kv[|key| + 1..];
      IndexOfPrefix(key, '=', kv[|key| + 1..]);
    }
  }

  ghost predicate LastAssigns(environ: seq<string>, key: string, i: nat) {
    i < |environ| && Assigns(environ[i], key) && forall j | i < j < |environ| :: !Assigns(environ[j], key)
  }

  lemma LastInFront(front: seq<string>, kv: string, key: string, i: nat)
    requires !Assigns(kv, key)
    ensures LastAssigns(front + [kv], key, i) <==> LastAssigns(front, key, i)
  {
    var environ := front + [kv];
    assert forall j | 0 <= j < |front| :: environ[j] == front[j];
    assert environ[|front|] == kv;
  }

  lemma LastIsTheLast(front: seq<string>, kv: string, key: string, i: nat)
    requires Assigns(kv, key)
    ensures LastAssigns(front + [kv], key, i) <==> i == |front|
  {
    var environ := front + [kv];
    assert environ[|front|] == kv;
  }

  /** The map holds the keys that some string assigns, each with the value that the
      last of those strings gives it. */
  lemma {:induction false} EnvMapIsLast(environ: seq<string>, key: string)
    ensures key in EnvMap(environ) <==> exists i: nat :: LastAssigns(environ, key, i)
    ensures forall i: nat | LastAssigns(environ, key, i) :: EnvMap(environ)[key] == environ[i][|key| + 1..]
  {
    if environ == [] {
    } else {
      var front, kv := environ[..|environ| - 1], environ[|environ| - 1];
      assert environ == front + [kv];
      EnvMapIsLast(front, key);
      AssignsIff(kv, key);
      if Assigns(kv, key) {
        LastIsTheLast(front, kv, key, |front|);
        forall i: nat ensures LastAssigns(environ, key, i) <==> i == |front| { LastIsTheLast(front, kv, key, i); }
      } else {
        forall i: nat ensures LastAssigns(environ, key, i) <==> LastAssigns(front, key, i) { LastInFront(front, kv, key, i); }
      }
    }
  }

  // ----- The rewrite -----

  predicate Sets(entries: seq<Entry>, key: string) {
    exists i :: 0 <= i < |entries| && entries[i].key == key
  }

  function Others(environ: seq<string>, entries: seq<Entry>): seq<string> {
    if environ == [] then []
    else
      var rest, kv := Others(environ[..|environ| - 1], entries), environ[|environ| - 1];
      if Sets(entries, KeyOf(kv)) then rest else rest + [kv]
  }

  function Texts(entries: seq<Entry>): seq<string> {
    if entries == [] then [] else Texts(entries[..|entries| - 1]) + [TextOf(entries[|entries| - 1])]
  }

  function Prefixed(path: string): string {
    if path == "" then "" else ":" + path
  }

  /** Where the runtime, the Herdr configuration, the Pi profile and Tiamat are. */
  datatype Places = Places(bin: string, config: string, profile: string, url: string, tokenFile: string)

  function Lookup(m: map<string, string>, key: string): string {
    if key in m then m[key] else ""
  }

  const PATH := "PATH"

  function Managed(p: Places, path: string): seq<Entry> {
    [Entry(PATH, p.bin + Prefixed(path)), Entry("HERDR_CONFIG_PATH", p.config), Entry("PI_CODING_AGENT_DIR", p.profile),
     Entry("FAMILIAR_RUNTIME_BIN", p.bin), Entry("FAMILIAR_TIAMAT_URL", p.url), Entry("FAMILIAR_TIAMAT_TOKEN_FILE", p.tokenFile)]
  }

  function Rewritten(environ: seq<string>, entries: seq<Entry>): seq<string> {
    Others(environ, entries) + Texts(entries)
  }

  method RewriteWith(environ: seq<string>, entries: seq<Entry>) returns (serverEnv: seq<string>)
    ensures serverEnv == Rewritten(environ, entries)
  {
    serverEnv := [];
    for k := 0 to |environ|
      invariant serverEnv == Others(environ[..k], entries)
    {
      var kv := environ[k];
      assert environ[..k + 1][..k] == environ[..k];
      if !Sets(entries, KeyOf(kv)) {
        serverEnv := serverEnv + [kv];
      }
    }
    assert environ[..|environ|] == environ;
    for k := 0 to |entries|
      invariant serverEnv == Others(environ, entries) + Texts(entries[..k])
    {
      assert entries[..k + 1][..k] == entries[..k];
      serverEnv := serverEnv + [TextOf(entries[k])];
    }
    assert entries[..|entries|] == entries;
  }

  /** The client's rewrite: drop what it sets, then append its own. */
  method Rewrite(environ: seq<string>, p: Places) returns (serverEnv: seq<string>)
    ensures serverEnv == Rewritten(environ, Managed(p, Lookup(EnvMap(environ), PATH)))
  {
    var env := EnvironMap(environ);
    serverEnv := RewriteWith(environ, Managed(p, Lookup(env, PATH)));
  }

  // ----- What the rewritten list means -----

  /** Keys a list can carry, each set once. */
  ghost predicate Proper(entries: seq<Entry>) {
    && (forall i | 0 <= i < |entries| :: entries[i].key != "" && '=' !in entries[i].key)
    && (forall i, j | 0 <= i < j < |entries| :: entries[i].key != entries[j].key)
  }

  function Values(entries: seq<Entry>): map<string, string> {
    if entries == [] then map[] else Values(entries[..|entries| - 1])[entries[|entries| - 1].key := entries[|entries| - 1].value]
  }

  lemma EntryReads(e: Entry)
    requires e.key != "" && '=' !in e.key
    ensures KeyEnd(TextOf(e)) == |e.key| && TextOf(e)[..|e.key|] == e.key && TextOf(e)[|e.key| + 1..] == e.value
  {
    assert TextOf(e) == e.key + ['='] + e.value;
    IndexOfPrefix(e.key, '=', e.value);
  }

  lemma {:induction false} ValuesKeys(entries: seq<Entry>, key: string)
    ensures key in Values(entries) <==> Sets(entries, key)
  {
    if entries == [] {
    } else {
      var front, last := entries[..|entries| - 1], entries[|entries| - 1];
      ValuesKeys(front, key);
      if Sets(front, key) {
        var i :| 0 <= i < |front| && front[i].key == key;
        assert entries[i].key == key;
      }
      if Sets(entries, key) && last.key != key {
        var i :| 0 <= i < |entries| && entries[i].key == key;
        assert front[i].key == key;
      }
      assert last.key == key ==> entries[|entries| - 1].key == key;
    }
  }

  /** Dropping the managed entries drops exactly the managed keys. */
  lemma {:induction false} OthersMean(environ: seq<string>, entries: seq<Entry>, key: string)
    ensures key in EnvMap(Others(environ, entries)) <==> key in EnvMap(environ) && !Sets(entries, key)
    ensures key in EnvMap(Others(environ, entries)) ==> EnvMap(Others(environ, entries))[key] == EnvMap(environ)[key]
  {
    if environ == [] {
    } else {
      var front, kv := environ[..|environ| - 1], environ[|environ| - 1];
      OthersMean(front, entries, key);
      EnvMapSnoc(Others(front, entries), kv);
    }
  }

  lemma EnvMapSnoc(environ: seq<string>, kv: string)
    ensures EnvMap(environ + [kv]) == (if KeyEnd(kv) > 0 then EnvMap(environ)[kv[..KeyEnd(kv)] := kv[KeyEnd(kv) + 1..]] else EnvMap(environ))
  {
    assert (environ + [kv])[..|environ|] == environ;
  }

  lemma EntryAppends(environ: seq<string>, e: Entry, key: string)
    requires e.key != "" && '=' !in e.key
    ensures EnvMap(environ + [TextOf(e)]) == EnvMap(environ)[e.key := e.value]
    ensures Of(environ + [TextOf(e)], key) == Of(environ, key) + (if e.key == key then [TextOf(e)] else [])
  {
    EntryReads(e);
    EnvMapSnoc(environ, TextOf(e));
    OfSnoc(environ, TextOf(e), key);
  }

  lemma TextsSnoc(environ: seq<string>, entries: seq<Entry>)
    requires entries != []
    ensures environ + Texts(entries) == (environ + Texts(entries[..|entries| - 1])) + [TextOf(entries[|entries| - 1])]
  {
    ConcatSnoc(environ, Texts(entries[..|entries| - 1]), TextOf(entries[|entries| - 1]));
  }

  lemma ConcatSnoc(a: seq<string>, b: seq<string>, last: string)
    ensures a + (b + [last]) == (a + b) + [last]
  {}

  lemma OverrideLast(m: map<string, string>, n: map<string, string>, key: string, value: string)
    ensures m + n[key := value] == (m + n)[key := value]
  {}

  lemma ValuesLast(entries: seq<Entry>)
    requires entries != []
    ensures Values(entries) == Values(entries[..|entries| - 1])[entries[|entries| - 1].key := entries[|entries| - 1].value]
  {}

  lemma ProperFront(entries: seq<Entry>)
    requires Proper(entries) && entries != []
    ensures Proper(entries[..|entries| - 1])
    ensures !Sets(entries[..|entries| - 1], entries[|entries| - 1].key)
  {}

  lemma {:induction false} AppendedMean(environ: seq<string>, entries: seq<Entry>)
    requires Proper(entries)
    ensures EnvMap(environ + Texts(entries)) == EnvMap(environ) + Values(entries)
  {
    if entries == [] {
      assert environ + Texts(entries) == environ;
    } else {
      var front, last := entries[..|entries| - 1], entries[|entries| - 1];
      ProperFront(entries);
      AppendedMean(environ, front);
      TextsSnoc(environ, entries);
      EntryAppends(environ + Texts(front), last, last.key);
      ValuesLast(entries);
      OverrideLast(EnvMap(environ), Values(front), last.key, last.value);
    }
  }

  /** The rewritten list means the parent's map overridden at the managed keys. */
  lemma RewrittenMeans(environ: seq<string>, entries: seq<Entry>)
    requires Proper(entries)
    ensures EnvMap(Rewritten(environ, entries)) == EnvMap(environ) + Values(entries)
  {
    AppendedMean(Others(environ, entries), entries);
    forall key ensures key in EnvMap(Others(environ, entries)) + Values(entries) <==> key in EnvMap(environ) + Values(entries)
      ensures key in EnvMap(environ) + Values(entries) ==>
        (EnvMap(Others(environ, entries)) + Values(entries))[key] == (EnvMap(environ) + Values(entries))[key]
    {
      OthersMean(environ, entries, key);
      ValuesKeys(entries, key);
    }
    assert EnvMap(Others(environ, entries)) + Values(entries) == EnvMap(environ) + Values(entries);
  }

  // ----- Each key's strings -----

  /** The strings of one key, in order. */
  function Of(environ: seq<string>, key: string): seq<string> {
    if environ == [] then []
    else Of(environ[..|environ| - 1], key) + (if KeyOf(environ[|environ| - 1]) == key then [environ[|environ| - 1]] else [])
  }

  lemma OfSnoc(environ: seq<string>, kv: string, key: string)
    ensures Of(environ + [kv], key) == Of(environ, key) + (if KeyOf(kv) == key then [kv] else [])
  {
    assert (environ + [kv])[..|environ|] == environ;
  }

  lemma {:induction false} OthersOf(environ: seq<string>, entries: seq<Entry>, key: string)
    ensures Of(Others(environ, entries), key) == if Sets(entries, key) then [] else Of(environ, key)
  {
    if environ == [] {
    } else {
      var front, kv := environ[..|environ| - 1], environ[|environ| - 1];
      OthersOf(front, entries, key);
      OfSnoc(Others(front, entries), kv, key);
    }
  }

  lemma SetsSnoc(entries: seq<Entry>, key: string)
    requires entries != []
    ensures Sets(entries, key) <==> Sets(entries[..|entries| - 1], key) || entries[|entries| - 1].key == key
  {
    var front := entries[..|entries| - 1];
    if Sets(front, key) {
      var i :| 0 <= i < |front| && front[i].key == key;
      assert entries[i].key == key;
    }
    if Sets(entries, key) {
      var i :| 0 <= i < |entries| && entries[i].key == key;
      assert i < |front| ==> front[i].key == key;
    }
  }

  lemma {:induction false} AppendedOf(environ: seq<string>, entries: seq<Entry>, key: string)
    requires Proper(entries)
    ensures Sets(entries, key) ==> key in Values(entries)
    ensures Of(environ + Texts(entries), key)
         == Of(environ, key) + (if Sets(entries, key) then [key + "=" + Values(entries)[key]] else [])
  {
    ValuesKeys(entries, key);
    if entries == [] {
      assert environ + Texts(entries) == environ;
    } else {
      var front, last := entries[..|entries| - 1], entries[|entries| - 1];
      ProperFront(entries);
      AppendedOf(environ, front, key);
      SetsSnoc(entries, key);
      TextsSnoc(environ, entries);
      EntryAppends(environ + Texts(front), last, key);
    }
  }

  /** Each managed key appears exactly once, with its value; every other key keeps
      all its strings, verbatim and in order. */
  lemma EachKeyOnce(environ: seq<string>, entries: seq<Entry>, key: string)
    requires Proper(entries)
    ensures !Sets(entries, key) ==> Of(Rewritten(environ, entries), key) == Of(environ, key)
    ensures Sets(entries, key) ==> key in Values(entries) && Of(Rewritten(environ, entries), key) == [key + "=" + Values(entries)[key]]
  {
    OthersOf(environ, entries, key);
    AppendedOf(Others(environ, entries), entries, key);
  }

  // ----- The client's own entries -----

  lemma NoEquals(key: string)
    requires key == "PATH" || key == "HERDR_CONFIG_PATH" || key == "PI_CODING_AGENT_DIR" || key == "FAMILIAR_RUNTIME_BIN" || key == "FAMILIAR_TIAMAT_URL"
    ensures '=' !in key
  {}

  lemma LongKeyParts(a: string, b: string)
    requires a == "FAMILIAR_TIAMAT" && b == "_TOKEN_FILE"
    ensures '=' !in a + b && |a + b| == 26
  {}

  lemma ManagedIsProper(p: Places, path: string)
    ensures Proper(Managed(p, path))
  {
    NoEquals("PATH");
    NoEquals("HERDR_CONFIG_PATH");
    NoEquals("PI_CODING_AGENT_DIR");
    NoEquals("FAMILIAR_RUNTIME_BIN");
    NoEquals("FAMILIAR_TIAMAT_URL");
    LongKeyParts("FAMILIAR_TIAMAT", "_TOKEN_FILE");
  }

  lemma {:induction false} ValuesAt(entries: seq<Entry>, i: nat)
    requires Proper(entries) && i < |entries|
    ensures entries[i].key in Values(entries) && Values(entries)[entries[i].key] == entries[i].value
  {
    ValuesLast(entries);
    if i < |entries| - 1 {
      ProperFront(entries);
      ValuesAt(entries[..|entries| - 1], i);
    }
  }

  /** The server sees each managed variable with the client's value, under any way
      of reading duplicates, and every other variable as the parent had it. */
  lemma ServerSees(environ: seq<string>, p: Places, i: nat)
    requires i < 6
    ensures var entries := Managed(p, Lookup(EnvMap(environ), PATH));
      && EnvMap(Rewritten(environ, entries)) == EnvMap(environ) + Values(entries)
      && Of(Rewritten(environ, entries), entries[i].key) == [TextOf(entries[i])]
  {
    var entries := Managed(p, Lookup(EnvMap(environ), PATH));
    assert |entries| == 6;
    ManagedIsProper(p, Lookup(EnvMap(environ), PATH));
    RewrittenMeans(environ, entries);
    OneString(environ, entries, i);
  }

  lemma OneString(environ: seq<string>, entries: seq<Entry>, i: nat)
    requires Proper(entries) && i < |entries|
    ensures Of(Rewritten(environ, entries), entries[i].key) == [TextOf(entries[i])]
  {
    EachKeyOnce(environ, entries, entries[i].key);
    ValuesAt(entries, i);
  }

  /** The server's PATH is the runtime bin, then the parent's entries. */
  lemma PathLeads(p: Places, path: string)
    requires ':' !in p.bin
    ensures Split(p.bin + Prefixed(path), ':') == [p.bin] + (if path == "" then [] else Split(path, ':'))
  {
    SplitAtomic(p.bin, ':');
    if path == "" {
      assert p.bin + "" == p.bin;
    } else {
      SplitConcat(p.bin, path, ':');
      assert p.bin + Prefixed(path) == p.bin + [':'] + path;
    }
  }

  // ----- In plain terms -----

  /** A string of a key: the key alone, or the key with a value. */
  predicate Concerns(kv: string, key: string) {
    kv == key || key + "=" <= kv
  }

  lemma KeyOfIff(kv: string, key: string)
    requires key != "" && '=' !in key
    ensures KeyOf(kv) == key <==> Concerns(kv, key)
  {
    AssignsIff(kv, key);
  }

  /** Of the parent's strings exactly those are kept that concern no managed key. */
  lemma {:induction false} OthersIff(environ: seq<string>, entries: seq<Entry>, kv: string)
    requires Proper(entries)
    ensures kv in Others(environ, entries) <==>
      kv in environ && forall i | 0 <= i < |entries| :: !Concerns(kv, entries[i].key)
  {
    if environ == [] {
    } else {
      var front, last := environ[..|environ| - 1], environ[|environ| - 1];
      OthersIff(front, entries, kv);
      SetsIff(last, entries);
      assert environ == front + [last];
    }
  }

  lemma SetsIff(kv: string, entries: seq<Entry>)
    requires Proper(entries)
    ensures Sets(entries, KeyOf(kv)) <==> exists i :: 0 <= i < |entries| && Concerns(kv, entries[i].key)
  {
    forall i | 0 <= i < |entries| ensures KeyOf(kv) == entries[i].key <==> Concerns(kv, entries[i].key) {
      KeyOfIff(kv, entries[i].key);
    }
  }

  /** One managed variable, as the server sees it. */
  lemma ManagedValue(environ: seq<string>, p: Places, i: nat, key: string, value: string)
    requires i < 6 && Managed(p, Lookup(EnvMap(environ), PATH))[i] == Entry(key, value)
    ensures var m := EnvMap(Rewritten(environ, Managed(p, Lookup(EnvMap(environ), PATH)))); key in m && m[key] == value
  {
    var entries := Managed(p, Lookup(EnvMap(environ), PATH));
    ManagedIsProper(p, Lookup(EnvMap(environ), PATH));
    RewrittenMeans(environ, entries);
    ValuesAt(entries, i);
  }

  lemma OldPath(environ: seq<string>, key: string)
    requires key == "PATH"
    ensures Lookup(EnvMap(environ), PATH) == if key in EnvMap(environ) then EnvMap(environ)[key] else ""
  {}

  /** What the client gives each of its variables but PATH. */
  predicate Given(p: Places, key: string, value: string) {
    || (key == "HERDR_CONFIG_PATH" && value == p.config)
    || (key == "PI_CODING_AGENT_DIR" && value == p.profile)
    || (key == "FAMILIAR_RUNTIME_BIN" && value == p.bin)
    || (key == "FAMILIAR_TIAMAT_URL" && value == p.url)
    || (key == "FAMILIAR_TIAMAT_TOKEN_FILE" && value == p.tokenFile)
  }

  lemma GivenIsManaged(p: Places, path: string, key: string, value: string) returns (i: nat)
    requires Given(p, key, value)
    ensures i < 6 && Managed(p, path)[i] == Entry(key, value)
  {
    i := if key == "HERDR_CONFIG_PATH" then 1 else if key == "PI_CODING_AGENT_DIR" then 2
         else if key == "FAMILIAR_RUNTIME_BIN" then 3 else if key == "FAMILIAR_TIAMAT_URL" then 4 else 5;
  }

  /** The server sees each of those five variables with its own value. */
  lemma ServerVariable(environ: seq<string>, p: Places, key: string, value: string)
    requires Given(p, key, value)
    ensures var m := EnvMap(Rewritten(environ, Managed(p, Lookup(EnvMap(environ), PATH)))); key in m && m[key] == value
  {
    var i := GivenIsManaged(p, Lookup(EnvMap(environ), PATH), key, value);
    ManagedValue(environ, p, i, key, value);
  }

  /** PATH is the runtime's bin, and the parent's entries behind it. */
  lemma ServerPath(environ: seq<string>, p: Places, path: string)
    requires ':' !in p.bin && path == "PATH"
    ensures var old', m := EnvMap(environ), EnvMap(Rewritten(environ, Managed(p, Lookup(EnvMap(environ), PATH))));
      && path in m
      && Split(m[path], ':') == [p.bin] + (if path in old' && old'[path] != "" then Split(old'[path], ':') else [])
  {
    var old' := Lookup(EnvMap(environ), PATH);
    OldPath(environ, path);
    ManagedValue(environ, p, 0, path, p.bin + Prefixed(old'));
    PathLeads(p, old');
  }
}
