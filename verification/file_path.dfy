/** Slash-separated paths, after Go's path/filepath on Unix: Clean, Dir and
    Base are lexical, so they are modelled in full. */
module FilePath {
  import opened Text

  predicate IsAbs(p: string) {
    p != "" && p[0] == '/'
  }

  /** One step of Clean: what a component does to the components kept so far. */
  function Keep(rooted: bool, kept: seq<string>, c: string): seq<string> {
    if c == "" || c == "." then kept
    else if c != ".." then kept + [c]
    else if kept != [] && kept[|kept| - 1] != ".." then kept[..|kept| - 1]
    else if rooted then kept
    else kept + [c]
  }

  function Reduce(rooted: bool, parts: seq<string>): seq<string> {
    if parts == [] then []
    else Keep(rooted, Reduce(rooted, parts[..|parts| - 1]), parts[|parts| - 1])
  }

  function Clean(p: string): string {
    var kept := Reduce(IsAbs(p), Split(p, '/'));
    if IsAbs(p) then "/" + Join(kept, '/')
    else if kept == [] then "."
    else Join(kept, '/')
  }

  function UpToLastSlash(p: string): (r: string)
    ensures r <= p
    ensures r == "" || r[|r| - 1] == '/'
    ensures '/' !in p[|r|..]
  {
    if p == "" || p[|p| - 1] == '/' then p else UpToLastSlash(p[..|p| - 1])
  }

  function Dir(p: string): string {
    Clean(UpToLastSlash(p))
  }

  function TrimSlashes(p: string): string {
    if p != "" && p[|p| - 1] == '/' then TrimSlashes(p[..|p| - 1]) else p
  }

  function Base(p: string): string {
    if p == "" then "."
    else
      var q := TrimSlashes(p);
      if q == "" then "/" else q[|UpToLastSlash(q)|..]
  }

  // ----- Clean is a normal form -----

  /** Kept components: ordinary names, preceded by ".." only in a relative path. */
  ghost predicate Normal(rooted: bool, kept: seq<string>) {
    && (forall i | 0 <= i < |kept| :: kept[i] != "" && kept[i] != "." && '/' !in kept[i])
    && (forall i | 0 <= i < |kept| :: kept[i] == ".." ==> !rooted && (i == 0 || kept[i - 1] == ".."))
  }

  lemma {:induction false} ReduceIsNormal(rooted: bool, parts: seq<string>)
    requires Without(parts, '/')
    ensures Normal(rooted, Reduce(rooted, parts))
  {
    if parts == [] {
    } else {
      ReduceIsNormal(rooted, parts[..|parts| - 1]);
    }
  }

  lemma {:induction false} ReduceNormal(rooted: bool, kept: seq<string>)
    requires Normal(rooted, kept)
    ensures Reduce(rooted, kept) == kept
  {
    if kept == [] {
    } else {
      ReduceNormal(rooted, kept[..|kept| - 1]);
      assert kept == kept[..|kept| - 1] + [kept[|kept| - 1]];
    }
  }

  lemma {:induction false} ReduceSkipsEmptyFirst(rooted: bool, parts: seq<string>)
    ensures Reduce(rooted, [""] + parts) == Reduce(rooted, parts)
  {
    var all := [""] + parts;
    if parts == [] {
      assert all[..0] == [];
    } else {
      assert all[..|all| - 1] == [""] + parts[..|parts| - 1];
      ReduceSkipsEmptyFirst(rooted, parts[..|parts| - 1]);
    }
  }

  lemma SplitRooted(rest: string)
    ensures Split("/" + rest, '/') == [""] + Split(rest, '/')
  {
    assert ("/" + rest)[1..] == rest;
  }

  lemma NormalJoinStartsNamed(kept: seq<string>, rooted: bool)
    requires kept != [] && Normal(rooted, kept)
    ensures Join(kept, '/') != "" && Join(kept, '/')[0] == kept[0][0] != '/'
  {
    assert kept[0][0] in kept[0];
  }

  lemma SplitNormal(kept: seq<string>, rooted: bool)
    requires kept != [] && Normal(rooted, kept)
    ensures Split(Join(kept, '/'), '/') == kept
  {
    assert Without(kept, '/');
    SplitOfJoin(kept, '/');
  }

  /** Cleaning the text of normal components gives back that text. */
  lemma CleanRooted(kept: seq<string>)
    requires Normal(true, kept)
    ensures Clean("/" + Join(kept, '/')) == "/" + Join(kept, '/')
  {
    var text := Join(kept, '/');
    var parts := Split(text, '/');
    SplitRooted(text);
    ReduceSkipsEmptyFirst(true, parts);
    assert Reduce(true, parts) == kept by {
      if kept == [] {
        assert parts == [""] && [""][..0] == [];
        assert Reduce(true, [""]) == Keep(true, Reduce(true, []), "");
      } else {
        SplitNormal(kept, true);
        ReduceNormal(true, kept);
      }
    }
  }

  lemma CleanRelative(kept: seq<string>)
    requires Normal(false, kept) && kept != []
    ensures Clean(Join(kept, '/')) == Join(kept, '/')
  {
    SplitNormal(kept, false);
    ReduceNormal(false, kept);
    NormalJoinStartsNamed(kept, false);
  }

  /** Clean is idempotent and keeps a path absolute or relative. */
  lemma CleanIdempotent(p: string)
    ensures Clean(Clean(p)) == Clean(p)
    ensures IsAbs(Clean(p)) == IsAbs(p)
  {
    var rooted := IsAbs(p);
    var kept := Reduce(rooted, Split(p, '/'));
    SplitWithout(p, '/');
    ReduceIsNormal(rooted, Split(p, '/'));
    if rooted {
      CleanRooted(kept);
    } else if kept == [] {
      SplitAtomic(".", '/');
      assert Reduce(false, ["."]) == Keep(false, Reduce(false, ["."][..0]), ".") == [];
    } else {
      CleanRelative(kept);
      NormalJoinStartsNamed(kept, rooted);
    }
  }

  // ----- Nix store outputs -----

  const STORE := "/nix/store"

  /** True for an immutable Nix store output, whatever its spelling. */
  predicate IsStorePath(target: string) {
    Dir(Clean(target)) == STORE
  }

  lemma JoinSlash(parts: seq<string>, last: string)
    requires parts != []
    ensures Join(parts + [last], '/') == Join(parts, '/') + "/" + last
  {
    JoinSnoc(parts, last, '/');
  }

  lemma LastSlash(p: string, head: string, last: string)
    requires p == head + "/" + last && '/' !in last
    ensures UpToLastSlash(p) == head + "/"
  {
    if last == "" {
    } else {
      assert p[..|p| - 1] == head + "/" + last[..|last| - 1];
      LastSlash(p[..|p| - 1], head, last[..|last| - 1]);
      assert p[|p| - 1] == last[|last| - 1];
    }
  }

  /** Dir of a clean rooted path drops the last component. */
  lemma DirOfRooted(kept: seq<string>, last: string)
    requires Normal(true, kept + [last])
    ensures Dir("/" + Join(kept + [last], '/')) == "/" + Join(kept, '/')
    ensures Base("/" + Join(kept + [last], '/')) == last
  {
    var all := kept + [last];
    assert all[|kept|] == last;
    assert Normal(true, kept) by {
      assert forall i | 0 <= i < |kept| :: kept[i] == all[i];
    }
    var p := "/" + Join(all, '/');
    CleanRooted(kept);
    if kept == [] {
      assert p == "" + "/" + last;
      LastSlash(p, "", last);
      assert "" + "/" == "/" + Join(kept, '/');
    } else {
      JoinSlash(kept, last);
      var head := "/" + Join(kept, '/');
      assert p == head + "/" + last;
      LastSlash(p, head, last);
      CleanTrailingSlash(Join(kept, '/'));
    }
    assert p[|p| - 1] == last[|last| - 1] && last[|last| - 1] in last;
  }

  lemma CleanTrailingSlash(text: string)
    ensures Clean("/" + text + "/") == Clean("/" + text)
  {
    var a := Split("/" + text, '/');
    SplitConcat("/" + text, "", '/');
    assert "/" + text + "/" == "/" + text + ['/'] + "";
    assert Split("/" + text + "/", '/') == a + [""];
    assert (a + [""])[..|a + [""]| - 1] == a;
  }

  lemma StoreParent(front: seq<string>)
    requires Normal(true, front) && "/" + Join(front, '/') == STORE
    ensures front == ["nix", "store"]
  {
    assert Join(front, '/') == ("/" + Join(front, '/'))[1..] == "nix/store";
    assert Join(["nix", "store"], '/') == "nix/store";
    SplitOfJoin(["nix", "store"], '/');
    if front != [] {
      SplitOfJoin(front, '/');
    }
  }

  /** A clean rooted path below the store is the store and its last component. */
  lemma StoreShape(front: seq<string>, last: string)
    requires Normal(true, front + [last]) && Dir("/" + Join(front + [last], '/')) == STORE
    ensures "/" + Join(front + [last], '/') == STORE + "/" + last
    ensures Base("/" + Join(front + [last], '/')) == last
  {
    DirOfRooted(front, last);
    assert Normal(true, front) by {
      assert forall i | 0 <= i < |front| :: front[i] == (front + [last])[i];
    }
    StoreParent(front);
    JoinSlash(front, last);
  }

  /** The kept components of a rooted path, which spell its clean form. */
  lemma CleanParts(target: string) returns (kept: seq<string>)
    requires IsAbs(target)
    ensures Normal(true, kept) && Clean(target) == "/" + Join(kept, '/')
  {
    kept := Reduce(true, Split(target, '/'));
    SplitWithout(target, '/');
    ReduceIsNormal(true, Split(target, '/'));
  }

  lemma StoreIsAbs(target: string)
    requires IsStorePath(target)
    ensures IsAbs(target)
  {
    CleanIdempotent(target);
    if !IsAbs(target) {
      RelativeDir(Clean(target));
    }
  }

  lemma RootIsNotInStore()
    ensures Dir("/") != STORE
  {
    CleanRooted([]);
  }

  /** A store output is spelled by its base name once cleaned, so two store
      outputs with the same base name are the same output. */
  lemma StorePathShape(target: string)
    requires IsStorePath(target)
    ensures IsAbs(target)
    ensures Clean(target) == STORE + "/" + Base(Clean(target))
    ensures IsStorePath(Clean(target))
  {
    StoreIsAbs(target);
    CleanIdempotent(target);
    var kept := CleanParts(target);
    if kept == [] {
      RootIsNotInStore();
      assert false;
    } else {
      assert kept == kept[..|kept| - 1] + [kept[|kept| - 1]];
      StoreShape(kept[..|kept| - 1], kept[|kept| - 1]);
    }
  }

  lemma RelativeDir(p: string)
    requires !IsAbs(p)
    ensures !IsAbs(Dir(p))
  {
    var head := UpToLastSlash(p);
    assert !IsAbs(head);
    CleanIdempotent(head);
  }

  /** A file or directory name other than the two special ones. */
  predicate Name(c: string) {
    c != "" && c != "." && c != ".." && '/' !in c
  }

  /** The store outputs are exactly the names directly below /nix/store, however spelled. */
  lemma StorePathIff(target: string)
    ensures IsStorePath(target) <==> exists name :: Name(name) && Clean(target) == "/nix/store" + "/" + name
  {
    if IsStorePath(target) {
      StorePathShape(target);
      StoreBaseIsName(target);
    }
    if name :| Name(name) && Clean(target) == "/nix/store" + "/" + name {
      BelowStore(name);
    }
  }

  lemma StoreParts(parts: seq<string>)
    requires parts == ["nix", "store"]
    ensures "/" + Join(parts, '/') == STORE && Normal(true, parts)
  {
    assert Join(parts, '/') == "nix/store";
  }

  lemma BelowParts(parts: seq<string>, name: string, text: string)
    requires parts != [] && Normal(true, parts) && Name(name) && text == "/" + Join(parts, '/')
    ensures Dir(text + "/" + name) == text
  {
    assert Normal(true, parts + [name]);
    DirOfRooted(parts, name);
    JoinSlash(parts, name);
    assert text + "/" + name == "/" + Join(parts + [name], '/');
  }

  lemma BelowStore(name: string)
    requires Name(name)
    ensures Dir(STORE + "/" + name) == STORE
  {
    StoreParts(["nix", "store"]);
    BelowParts(["nix", "store"], name, STORE);
  }

  lemma StoreBaseIsName(target: string)
    requires IsStorePath(target)
    ensures Name(Base(Clean(target)))
  {
    StoreIsAbs(target);
    var kept := CleanParts(target);
    if kept == [] {
      RootIsNotInStore();
      assert false;
    } else {
      var last := kept[|kept| - 1];
      assert kept == kept[..|kept| - 1] + [last];
      DirOfRooted(kept[..|kept| - 1], last);
    }
  }

  // ----- What Clean does to a path -----

  lemma Appended(p: string, c: string)
    requires p != "" && '/' !in c
    ensures Split(p + "/" + c, '/') == Split(p, '/') + [c]
    ensures IsAbs(p + "/" + c) == IsAbs(p)
  {
    SplitConcat(p, c, '/');
    SplitAtomic(c, '/');
    assert p + "/" + c == p + ['/'] + c;
  }

  lemma ReduceSnoc(rooted: bool, parts: seq<string>, c: string)
    ensures Reduce(rooted, parts + [c]) == Keep(rooted, Reduce(rooted, parts), c)
  {
    assert (parts + [c])[..|parts|] == parts;
  }

  /** Empty and "." components mean nothing. */
  lemma CleanDropsDot(p: string, c: string)
    requires p != "" && (c == "" || c == ".")
    ensures Clean(p + "/" + c) == Clean(p)
  {
    Appended(p, c);
    ReduceSnoc(IsAbs(p), Split(p, '/'), c);
  }

  /** ".." undoes the name before it. */
  lemma CleanUndoesName(p: string, c: string)
    requires p != "" && Name(c)
    ensures Clean(p + "/" + c + "/" + "..") == Clean(p)
  {
    var kept := Reduce(IsAbs(p), Split(p, '/'));
    Appended(p, c);
    Appended(p + "/" + c, "..");
    ReduceSnoc(IsAbs(p), Split(p, '/'), c);
    ReduceSnoc(IsAbs(p), Split(p, '/') + [c], "..");
    assert (kept + [c])[..|kept|] == kept;
  }
}
