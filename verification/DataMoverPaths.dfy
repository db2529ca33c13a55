/** Where paths lead, and when a path trimmed by the current path leads back to the same place. */
module DataMoverPaths {
  import opened GoPath
  import opened GoPathRelative
  import opened DataMover

  // ----- Places -----

  /** The place of a path in shortest form. */
  function PlaceOf(cwd: Place, p: Path): Place {
    Reduce(true, if p.rooted then [] else cwd, p.parts)
  }

  // Reducing a relative path first makes no difference to where it leads.
  lemma {:induction false} PushThrough(base: Place, done: seq<string>, part: string)
    requires Normal(false, done) && '/' !in part
    ensures Reduce(true, base, Push(false, done, part)) == Push(true, Reduce(true, base, done), part)
  {
    hide Reduce;
    if part == ".." && done != [] && done[|done| - 1] != ".." {
      var n := |done| - 1;
      ReduceConcat(true, base, done[..n], [done[n]]);
      assert done == done[..n] + [done[n]];
      ReduceOne(true, Reduce(true, base, done[..n]), done[n]);
    } else if part != "" && part != "." {
      ReduceConcat(true, base, done, [part]);
      ReduceOne(true, Reduce(true, base, done), part);
    }
  }

  lemma ReduceOne(rooted: bool, done: seq<string>, part: string)
    ensures Reduce(rooted, done, [part]) == Push(rooted, done, part)
  {
    assert Reduce(rooted, Push(rooted, done, part), []) == Push(rooted, done, part);
  }

  lemma {:induction false} ReduceThrough(base: Place, done: seq<string>, parts: seq<string>)
    requires Normal(false, done) && SlashFree(parts)
    ensures Reduce(true, base, Reduce(false, done, parts)) == Reduce(true, Reduce(true, base, done), parts)
    decreases |parts|
  {
    hide Push;
    if parts != [] {
      PushNormal(false, done, parts[0]);
      PushThrough(base, done, parts[0]);
      ReduceThrough(base, Push(false, done, parts[0]), parts[1..]);
    }
  }

  /** Where a path leads depends on its shortest form only. */
  lemma {:induction false} LocateIs(cwd: Place, path: string)
    ensures Locate(cwd, path) == PlaceOf(cwd, Parse(path))
  {
    ParseIsNormal(path);
    SplitIsSlashFree(path);
    hide Split, Normal, SlashFree;
    if Rooted(path) {
      assert [] + Parse(path).parts == Parse(path).parts;
      ReduceKeeps(true, [], Parse(path).parts);
    } else {
      NoneNormal();
      ReduceThrough(cwd, [], Split(path));
    }
  }

  lemma NoneNormal()
    ensures Normal(false, [])
  {}

  lemma {:induction false} LocateRender(cwd: Place, p: Path)
    requires Normal(p.rooted, p.parts)
    ensures Locate(cwd, Render(p)) == PlaceOf(cwd, p)
  {
    hide Locate, Parse, Render, PlaceOf;
    LocateIs(cwd, Render(p));
    ParseRender(p);
  }

  /** One name more on the path is one name more on the place. */
  lemma {:induction false} PlaceAppend(cwd: Place, p: Path, name: string)
    requires Plain(name)
    ensures PlaceOf(cwd, Path(p.rooted, p.parts + [name])) == PlaceOf(cwd, p) + [name]
  {
    hide Reduce, Plain;
    var base := if p.rooted then [] else cwd;
    ReduceConcat(true, base, p.parts, [name]);
    ReducePlain(true, Reduce(true, base, p.parts), name);
  }

  lemma NormalAppend(p: Path, names: seq<string>)
    requires Normal(p.rooted, p.parts) && AllPlain(names)
    ensures Normal(p.rooted, p.parts + names)
  {}

  // ----- Joining -----

  lemma {:induction false} JoinIsClean(a: string, b: string)
    requires a != "" || b != ""
    ensures Join(a, b) == Render(Parse(Join(a, b))) && Normal(Parse(Join(a, b)).rooted, Parse(Join(a, b)).parts)
  {
    var s := if a == "" then b else if b == "" then a else a + "/" + b;
    assert Join(a, b) == Clean(s);
    hide Parse, Join;
    ParseClean(s);
    ParseIsNormal(Join(a, b));
    ParseRooted(Join(a, b));
  }

  lemma {:induction false} ParseJoined(a: string, b: string)
    requires a != "" && b != ""
    ensures Parse(Join(a, b)) == Path(Rooted(a), Reduce(Rooted(a), Parse(a).parts, Split(b)))
  {
    hide Split, Reduce;
    ParseSlash(a, b);
    ParseClean(a + "/" + b);
  }

  // What a path in shortest form, not empty, splits into.
  lemma {:induction false} ReduceRendered(rooted: bool, done: seq<string>, p: Path)
    requires Normal(p.rooted, p.parts) && p.parts != []
    ensures Reduce(rooted, done, Split(Render(p))) == Reduce(rooted, done, p.parts)
    ensures Render(p) != "" && Rooted(Render(p)) == p.rooted
  {
    hide Split, Reduce, Slashed;
    SplitSlashed(p.parts);
    SlashedHead(p.parts);
    if p.rooted {
      assert Render(p) == "" + "/" + Slashed(p.parts);
      SplitSlash("", Slashed(p.parts));
      SplitWhole("");
      ReduceConcat(rooted, done, [""], p.parts);
      ReduceEmpty(rooted, done);
    }
  }

  // ----- The current path with its slash -----

  function WithSlash(current: string): string {
    TrimSuffix(current, "/") + "/"
  }

  /** A current path as callers give it: empty or in shortest form; and with a slash, as it is passed down. */
  ghost predicate Neat(current: string) {
    current == "" || current == Clean(current) || (Clean(current) != "/" && current == Clean(current) + "/")
  }

  lemma {:induction false} SlashedEnd(parts: seq<string>)
    requires SlashFree(parts) && parts != [] && parts[|parts| - 1] != ""
    ensures Slashed(parts) != "" && Slashed(parts)[|Slashed(parts)| - 1] != '/'
  {
    if |parts| > 1 { SlashedEnd(parts[1..]); }
  }

  lemma {:induction false} CleanEnd(p: Path)
    requires Normal(p.rooted, p.parts)
    ensures var s := Render(p); s != "" && (s[|s| - 1] == '/' <==> s == "/")
  {
    if p.parts != [] {
      SlashedEnd(p.parts);
      hide Slashed;
    }
  }

  /** The shortest form with one slash at the end, `/` for the empty path. */
  lemma {:induction false} WithSlashIs(current: string)
    requires Neat(current)
    ensures WithSlash(current) == if current == "" || Clean(current) == "/" then "/" else Clean(current) + "/"
  {
    if current != "" {
      ParseIsNormal(current);
      CleanEnd(Parse(current));
      hide Parse, Render;
      var s := Clean(current);
      if current == s + "/" { assert current[..|current| - 1] == s; }
    }
  }

  lemma {:induction false} ParseWithSlash(current: string)
    requires Neat(current)
    ensures Parse(WithSlash(current)) == if current == "" then Path(true, []) else Parse(current)
    ensures Neat(WithSlash(current)) && WithSlash(WithSlash(current)) == WithSlash(current) != ""
  {
    WithSlashIs(current);
    ParseRoots();
    SlashedNone();
    RenderRoot();
    assert "/" + "" == "/" && Parse("/") == Path(true, []);
    hide Parse, Render, Split, Slashed;
    assert Clean("/") == "/";
    var s := WithSlash(current);
    assert s[..|s| - 1] + "/" == s;
    if current != "" && Clean(current) != "/" {
      ParseClean(current);
      CleanNotEmpty(current);
      ParseTrailing(Clean(current));
    } else if current != "" {
      ParseClean(current);
    }
  }

  lemma {:induction false} CleanNotEmpty(s: string)
    ensures Clean(s) != ""
  {
    ParseIsNormal(s);
    CleanEnd(Parse(s));
  }

  // ----- Entries of a directory -----

  /** The directory at `f` is at or below the current path, or absolute if there is none. */
  ghost predicate Anchored(current: string, f: Path) {
    if current == "" then f.rooted else f.rooted == Rooted(current) && Parse(current).parts <= f.parts
  }

  // The path of something below a directory starts with the path of the directory.
  lemma {:induction false} RenderBelow(rooted: bool, c: seq<string>, rest: seq<string>)
    requires c != [] && rest != []
    ensures Render(Path(rooted, c + rest)) == Render(Path(rooted, c)) + "/" + Slashed(rest)
  {
    hide Slashed;
    SlashedConcat(c, rest);
    if rooted { assert "/" + (Slashed(c) + "/" + Slashed(rest)) == "/" + Slashed(c) + "/" + Slashed(rest); }
  }

  // A path in shortest form does not start with a dot alone.
  lemma {:induction false} NoDot(parts: seq<string>)
    requires Normal(false, parts) && parts != []
    ensures !("./" <= Slashed(parts))
  {
    hide Split, Slashed;
    var s := Slashed(parts);
    assert parts[0] != ".";
    if "./" <= s {
      SplitSlashed(parts);
      assert s == "." + "/" + s[2..];
      SplitSlash(".", s[2..]);
      SplitWhole(".");
    }
  }

  // Trimming a path below an anchored directory leaves the part below the current path.
  lemma {:induction false} TrimAnchored(current: string, p: Path)
    requires Neat(current) && Normal(p.rooted, p.parts) && Anchored(current, p)
    requires current != "" ==> |Parse(current).parts| < |p.parts|
    requires p.parts != []
    ensures var c := if current == "" then [] else Parse(current).parts;
            TrimPrefix(Render(p), WithSlash(current)) == Slashed(p.parts[|c|..])
  {
    var c := if current == "" then [] else Parse(current).parts;
    var rest := p.parts[|c|..];
    assert p.parts == c + rest;
    hide Parse, Slashed, Neat, Normal, WithSlash, TrimPrefix, Render;
    if c != [] { TrimBelowCurrent(current, p.rooted, rest); } else { TrimNone(current, p); }
  }

  lemma {:induction false} TrimBelowCurrent(current: string, rooted: bool, rest: seq<string>)
    requires Neat(current) && current != "" && Parse(current).parts != [] && rooted == Rooted(current) && rest != []
    ensures TrimPrefix(Render(Path(rooted, Parse(current).parts + rest)), WithSlash(current)) == Slashed(rest)
  {
    hide Parse, Slashed, Neat, WithSlash, TrimPrefix, Render;
    ParseRooted(current);
    WithSlashIs(current);
    CleanIsRoot(current);
    RenderBelow(rooted, Parse(current).parts, rest);
    Cut(Clean(current) + "/", Slashed(rest));
  }

  lemma {:induction false} TrimNone(current: string, p: Path)
    requires Neat(current) && Normal(p.rooted, p.parts) && Anchored(current, p) && p.parts != []
    requires current == "" || Parse(current).parts == []
    ensures TrimPrefix(Render(p), WithSlash(current)) == Slashed(p.parts)
  {
    WithSlashIs(current);
    if current != "" { CleanOfNone(current); }
    hide Parse, Slashed, Split, Neat, WithSlash, Normal;
    if p.rooted { Cut("/", Slashed(p.parts)); } else { NoDot(p.parts); }
  }

  lemma Cut(a: string, b: string)
    ensures TrimPrefix(a + b, a) == b
  {
    assert (a + b)[..|a|] == a;
  }

  lemma {:induction false} CleanOfNone(s: string)
    requires Parse(s).parts == []
    ensures Clean(s) == if Rooted(s) then "/" else "."
  {
    SlashedNone();
    RenderRoot();
  }

  lemma {:induction false} CleanIsRoot(s: string)
    ensures Clean(s) == "/" ==> Parse(s) == Path(true, [])
  {
    if Clean(s) == "/" {
      ParseClean(s);
      ParseRoots();
      SlashedNone();
      assert "/" + "" == "/";
    }
  }

  // A path of names is no URL, and relative.
  lemma {:induction false} NoScheme(parts: seq<string>)
    requires SlashFree(parts) && parts != [] && forall i :: 0 <= i < |parts| ==> parts[i] != ""
    ensures TrimPrefix(Slashed(parts), "file://") == Slashed(parts) != "" && !Rooted(Slashed(parts))
  {
    hide Split, Slashed;
    SlashedHead(parts);
    var s := Slashed(parts);
    if "file://" <= s {
      SplitSlashed(parts);
      SplitScheme(s);
    }
  }

  lemma {:induction false} SplitScheme(s: string)
    requires "file://" <= s
    ensures |Split(s)| > 1 && Split(s)[1] == ""
  {
    hide Split;
    var rest := s[7..];
    assert s == "file:" + "/" + ("" + "/" + rest);
    SplitSlash("file:", "" + "/" + rest);
    SplitSlash("", rest);
    SplitWhole("file:");
    SplitWhole("");
  }

  /** Below an anchored directory a path survives being trimmed and joined again. */
  lemma {:induction false} AnchoredEntry(current: string, p: Path)
    requires Neat(current) && Normal(p.rooted, p.parts) && Anchored(current, p) && p.parts != []
    requires current != "" ==> |Parse(current).parts| < |p.parts|
    ensures var relative := TrimPrefix(Render(p), WithSlash(current));
            && Join(WithSlash(current), relative) == Render(p)
            && TrimPrefix(relative, "file://") == relative != "" && !Rooted(relative)
  {
    var s := WithSlash(current);
    var c := if current == "" then [] else Parse(current).parts;
    var rest := p.parts[|c|..];
    TrimAnchored(current, p);
    ParseWithSlash(current);
    ParseRooted(s);
    ParseRooted(current);
    assert p.parts == c + rest;
    hide Parse, Slashed, Split, Reduce, Render, Join, WithSlash, Neat;
    assert SlashFree(rest) && forall i :: 0 <= i < |rest| ==> rest[i] != "";
    NoScheme(rest);
    SplitSlashed(rest);
    ParseJoined(s, Slashed(rest));
    ReduceKeeps(p.rooted, c, rest);
    JoinIsClean(s, Slashed(rest));
  }

  // ----- Entries of any directory -----

  /** Where a joined path leads: on from where the first leads. */
  lemma {:induction false} LocateJoined(cwd: Place, a: string, b: string)
    requires a != "" && b != ""
    ensures Locate(cwd, Join(a, b)) == Reduce(true, Locate(cwd, a), Split(b))
  {
    var s := a + "/" + b;
    assert Locate(cwd, Join(a, b)) == Locate(cwd, s) by {
      LocateIs(cwd, Join(a, b));
      LocateIs(cwd, s);
      ParseClean(s);
    }
    hide Split, Reduce, Join;
    SplitSlash(a, b);
    ReduceConcat(true, if Rooted(a) then [] else cwd, Split(a), Split(b));
  }

  // Elsewhere nothing is trimmed.
  lemma {:induction false} NothingTrimmed(current: string, p: Path, name: string)
    requires Neat(current) && Normal(p.rooted, p.parts) && Plain(name) && !Anchored(current, p)
    requires current != "" ==> p.rooted == Rooted(current)
    ensures var e := Render(Path(p.rooted, p.parts + [name])); TrimPrefix(e, WithSlash(current)) == e
  {
    WithSlashIs(current);
    NormalAppend(p, [name]);
    var q := Path(p.rooted, p.parts + [name]);
    var e, s := Render(q), WithSlash(current);
    if current == "" {
      ReduceRendered(true, [], q);
    } else if s <= e {
      ParseIsNormal(current);
      CleanIsRoot(current);
      PrefixParts(p.rooted, Parse(current).parts, q.parts);
    }
  }

  // Parts whose path starts with another path and a slash start with its parts.
  lemma {:induction false} PrefixParts(rooted: bool, c: seq<string>, q: seq<string>)
    requires Normal(rooted, c) && Normal(rooted, q) && c != [] && q != []
    requires Render(Path(rooted, c)) + "/" <= Render(Path(rooted, q))
    ensures |c| < |q| && c <= q
  {
    hide Slashed;
    if rooted { DropRoot(Slashed(c) + "/", Slashed(q)); }
    assert rooted ==> "/" + Slashed(c) + "/" == "/" + (Slashed(c) + "/");
    SlashedPrefix(c, q);
  }

  lemma DropRoot(a: string, b: string)
    ensures "/" + a <= "/" + b ==> a <= b
  {
    assert ("/" + a)[1..] == a && ("/" + b)[1..] == b;
  }

  lemma {:induction false} SlashedPrefix(c: seq<string>, q: seq<string>)
    requires SlashFree(c) && SlashFree(q) && c != [] && q != [] && Slashed(c) + "/" <= Slashed(q)
    ensures |c| < |q| && c <= q
  {
    hide Split, Slashed;
    var t := Slashed(q)[|Slashed(c)| + 1..];
    assert Slashed(q) == Slashed(c) + "/" + t;
    SplitSlashed(c);
    SplitSlashed(q);
    SplitSlash(Slashed(c), t);
  }

  /**
    * The path of an entry, what is left of it below the current path, and where that leads as a
    * directory or as a file.
    */
  function EntryAt(current: string, path: string, name: string): string {
    Join(Join(current, path), name)
  }

  function RelativeAt(current: string, path: string, name: string): string {
    TrimPrefix(EntryAt(current, path, name), WithSlash(current))
  }

  lemma {:induction false} EntryIsBelow(cwd: Place, current: string, path: string, name: string)
    requires (current != "" || path != "") && Plain(name)
    ensures var f := Parse(Join(current, path));
            && Normal(f.rooted, f.parts) && Join(current, path) == Render(f)
            && EntryAt(current, path, name) == Render(Path(f.rooted, f.parts + [name]))
            && Locate(cwd, EntryAt(current, path, name)) == Locate(cwd, Join(current, path)) + [name]
  {
    hide Locate, Join, Parse, Render, PlaceOf, Plain;
    JoinIsClean(current, path);
    var f := Parse(Join(current, path));
    ParseRooted(Join(current, path));
    ParseJoin(Join(current, path), name);
    LocateIs(cwd, Join(current, path));
    LocateIs(cwd, EntryAt(current, path, name));
    PlaceAppend(cwd, f, name);
  }

  // An entry below the current path leads to its own place.
  lemma {:induction false} AnchoredResolves(cwd: Place, current: string, path: string, name: string)
    requires Neat(current) && (current != "" || path != "") && Plain(name)
    requires Anchored(current, Parse(Join(current, path)))
    ensures var relative := RelativeAt(current, path, name);
            && Join(WithSlash(current), relative) == EntryAt(current, path, name)
            && TrimPrefix(relative, "file://") == relative != "" && !Rooted(relative)
  {
    EntryIsBelow(cwd, current, path, name);
    hide Join, Parse, Render, Neat, WithSlash, TrimPrefix, Locate;
    var f := Parse(Join(current, path));
    NormalAppend(f, [name]);
    AnchoredEntry(current, Path(f.rooted, f.parts + [name]));
  }

  // Elsewhere it is joined to the current path once more.
  lemma {:induction false} OtherResolves(cwd: Place, current: string, path: string, name: string)
    requires Neat(current) && (current != "" || path != "") && Plain(name)
    requires !Anchored(current, Parse(Join(current, path)))
    ensures var f := Parse(Join(current, path));
            && RelativeAt(current, path, name) == EntryAt(current, path, name) != ""
            && Rooted(EntryAt(current, path, name)) == f.rooted
            && Locate(cwd, Join(WithSlash(current), RelativeAt(current, path, name)))
               == Reduce(true, Locate(cwd, WithSlash(current)), f.parts) + [name]
  {
    EntryIsBelow(cwd, current, path, name);
    ParseWithSlash(current);
    if current != "" { JoinRooted(current, path); }
    var f, s := Parse(Join(current, path)), WithSlash(current);
    var q := Path(f.rooted, f.parts + [name]);
    NormalAppend(f, [name]);
    hide Join, Parse, Render, Neat, WithSlash, TrimPrefix, Locate, Split, Reduce, Normal;
    NothingTrimmed(current, f, name);
    var base := Locate(cwd, s);
    ReduceRendered(true, base, q);
    LocateJoined(cwd, s, Render(q));
    ReduceConcat(true, base, f.parts, [name]);
    ReducePlain(true, Reduce(true, base, f.parts), name);
  }

  lemma {:induction false} JoinRooted(a: string, b: string)
    requires a != ""
    ensures Parse(Join(a, b)).rooted == Rooted(a)
  {
    hide Split, Reduce;
    if b == "" {
      ParseClean(a);
    } else {
      ParseJoined(a, b);
    }
  }

  /**
    * An entry that is a directory is looked for at its own place exactly if its directory is at or below
    * the current path, or leads to the same place when joined to the current path once more.
    */
  lemma {:induction false} EntryResolvesIff(cwd: Place, current: string, path: string, name: string)
    requires Neat(current) && (current != "" || path != "") && Plain(name)
    ensures var f := Parse(Join(current, path));
            Locate(cwd, Join(WithSlash(current), RelativeAt(current, path, name)))
            == Locate(cwd, EntryAt(current, path, name))
            <==> (Anchored(current, f)
                  || Reduce(true, Locate(cwd, WithSlash(current)), f.parts) == Locate(cwd, Join(current, path)))
  {
    EntryIsBelow(cwd, current, path, name);
    hide Join, Parse, Neat, WithSlash, Locate, Reduce, EntryAt, RelativeAt, Anchored, Plain, Render;
    var f := Parse(Join(current, path));
    if Anchored(current, f) {
      AnchoredResolves(cwd, current, path, name);
    } else {
      OtherResolves(cwd, current, path, name);
      SameEnd(Reduce(true, Locate(cwd, WithSlash(current)), f.parts), Locate(cwd, Join(current, path)), name);
    }
  }

  lemma SameEnd(a: seq<string>, b: seq<string>, x: string)
    ensures a + [x] == b + [x] <==> a == b
  {
    assert (a + [x])[..|a|] == a && (b + [x])[..|b|] == b;
  }

  lemma NoMore(a: seq<string>, b: seq<string>)
    ensures a + b == b <==> a == []
  {
    if a == [] { assert a + b == b; }
  }

  /** An entry that is a file is also found if its path is absolute, which is then not joined. */
  lemma {:induction false} FileResolvesIff(cwd: Place, current: string, path: string, name: string)
    requires Neat(current) && (current != "" || path != "") && Plain(name)
    ensures var f := Parse(Join(current, path));
            Locate(cwd, FullPath(WithSlash(current), RelativeAt(current, path, name)))
            == Locate(cwd, EntryAt(current, path, name))
            <==> (Anchored(current, f) || f.rooted
                  || Reduce(true, Locate(cwd, WithSlash(current)), f.parts) == Locate(cwd, Join(current, path)))
  {
    EntryResolvesIff(cwd, current, path, name);
    hide Join, Parse, Neat, WithSlash, Locate, Reduce, EntryAt, RelativeAt, Anchored, Plain;
    if Anchored(current, Parse(Join(current, path))) {
      AnchoredResolves(cwd, current, path, name);
    } else {
      OtherResolves(cwd, current, path, name);
    }
  }

  // ----- Directories by plain paths -----

  /** A path of plain names, absolute or relative. */
  ghost predicate PlainPath(path: string) {
    path != "" && path == Clean(path) && Parse(path).parts != [] && AllPlain(Parse(path).parts)
  }

  /** The place a directory's path names. */
  function OwnPlace(cwd: Place, current: string, path: string): Place {
    if Rooted(path) || current == "" then Locate(cwd, path) else Reduce(true, Locate(cwd, current), Split(path))
  }

  /** The directory is looked for at the place its path names, and so is every directory in it. */
  ghost predicate Works(cwd: Place, current: string, path: string) {
    && Locate(cwd, Join(current, path)) == OwnPlace(cwd, current, path)
    && forall name :: Plain(name) ==>
         Locate(cwd, Join(WithSlash(current), RelativeAt(current, path, name)))
         == Locate(cwd, EntryAt(current, path, name))
  }

  lemma {:induction false} PlainJoined(cwd: Place, current: string, path: string)
    requires Neat(current) && PlainPath(path)
    ensures var f := Parse(Join(current, path));
            f == if current == "" then Parse(path) else Path(Rooted(current), Parse(current).parts + Parse(path).parts)
    ensures Locate(cwd, path) == (if Rooted(path) then [] else cwd) + Parse(path).parts
    ensures forall base: Place :: Reduce(true, base, Split(path)) == base + Parse(path).parts
    ensures Locate(cwd, Join(current, path))
            == if current == "" then Locate(cwd, path) else Locate(cwd, current) + Parse(path).parts
  {
    var p := Parse(path);
    ParseRooted(path);
    ParseIsNormal(path);
    ParseClean(path);
    if current != "" {
      ParseIsNormal(current);
      NormalAppend(Parse(current), p.parts);
      ParseRooted(current);
    }
    hide Split, Reduce, Parse, Neat, Locate, Normal;
    forall base: Place ensures Reduce(true, base, Split(path)) == base + p.parts {
      ReduceRendered(true, base, p);
      ReducePlains(true, base, p.parts);
    }
    LocatePlain(cwd, path);
    if current != "" {
      ParseJoined(current, path);
      ReduceRendered(Rooted(current), Parse(current).parts, p);
      ReduceKeeps(Rooted(current), Parse(current).parts, p.parts);
      LocateJoined(cwd, current, path);
    }
  }

  lemma {:induction false} LocatePlain(cwd: Place, path: string)
    requires PlainPath(path)
    ensures Locate(cwd, path) == (if Rooted(path) then [] else cwd) + Parse(path).parts
  {
    LocateIs(cwd, path);
    ParseRooted(path);
    hide Parse, Locate, Reduce;
    ReducePlains(true, if Rooted(path) then [] else cwd, Parse(path).parts);
  }

  lemma {:induction false} ReducePlains(rooted: bool, done: seq<string>, names: seq<string>)
    requires AllPlain(names)
    ensures Reduce(rooted, done, names) == done + names
    decreases |names|
  {
    if names != [] {
      assert Plain(names[0]);
      ReducePlains(rooted, done + [names[0]], names[1..]);
      assert done + [names[0]] + names[1..] == done + names;
    }
  }

  /**
    * A directory given by a plain path is found, and so is all that is in it, exactly if an absolute path
    * meets no current path or one that leads to the root, and a relative path meets some current path, or
    * none where the working directory is the root.
    */
  lemma {:induction false} WorksIff(cwd: Place, current: string, path: string)
    requires Neat(current) && PlainPath(path)
    ensures Works(cwd, current, path) <==>
            if Rooted(path) then current == "" || Locate(cwd, current) == [] else current != "" || cwd == []
  {
    hide Join, Parse, Neat, WithSlash, Locate, Reduce, EntryAt, RelativeAt, Anchored, Plain, Split;
    PlainJoined(cwd, current, path);
    PlainAnchored(cwd, current, path);
    var f := Parse(Join(current, path));
    var p := Parse(path).parts;
    forall name | Plain(name) { EntryResolvesIff(cwd, current, path, name); }
    PlainExists();
    if current == "" {
      LocateRoot(cwd);
      ReducePlains(true, [], p);
      NoMore(cwd, p);
      assert [] + p == p;
    } else {
      NoMore(Locate(cwd, current), p);
      assert [] + p == p;
    }
  }

  lemma {:induction false} PlainAnchored(cwd: Place, current: string, path: string)
    requires Neat(current) && PlainPath(path)
    ensures Anchored(current, Parse(Join(current, path))) <==> current != "" || Rooted(path)
  {
    PlainJoined(cwd, current, path);
    ParseRooted(path);
    hide Join, Parse, Neat, Locate, Reduce, Split;
  }

  lemma PlainExists()
    ensures Plain("d")
  {}

  lemma {:induction false} LocateRoot(cwd: Place)
    ensures WithSlash("") == "/" && Locate(cwd, "/") == []
  {
    ParseRoots();
    SlashedNone();
    assert "/" + "" == "/";
    hide Parse, Locate;
    LocateIs(cwd, "/");
  }

  // ----- Down a directory -----

  /** The directory at `path` and all below it are looked for at their own places, level by level. */
  ghost predicate Reaches(cwd: Place, current: string, path: string) {
    && Neat(current) && (current != "" || path != "")
    && (Anchored(current, Parse(Join(current, path))) || (current == "" && cwd == []))
  }

  lemma {:induction false} ReachesNext(cwd: Place, current: string, path: string, name: string)
    requires Reaches(cwd, current, path) && Plain(name)
    ensures var s, relative := WithSlash(current), RelativeAt(current, path, name);
            && Locate(cwd, Join(s, relative)) == Locate(cwd, EntryAt(current, path, name))
               == Locate(cwd, Join(current, path)) + [name]
            && Reaches(cwd, s, relative) && WithSlash(s) == s
            && TrimPrefix(relative, "file://") == relative != "" && !Rooted(relative)
            && Base(EntryAt(current, path, name)) == name
            && (Anchored(current, Parse(Join(current, path))) ==>
                  Join(s, relative) == EntryAt(current, path, name) && Anchored(s, Parse(Join(s, relative))))
  {
    var f, s := Parse(Join(current, path)), WithSlash(current);
    EntryIsBelow(cwd, current, path, name);
    BaseOfRender(f.rooted, f.parts, name);
    ParseWithSlash(current);
    if Anchored(current, f) {
      AnchoredResolves(cwd, current, path, name);
      AnchoredGrows(current, f, name);
    } else {
      RootResolves(path, name);
    }
  }

  lemma {:induction false} AnchoredGrows(current: string, f: Path, name: string)
    requires Neat(current) && Normal(f.rooted, f.parts) && Anchored(current, f) && Plain(name)
    ensures Anchored(WithSlash(current), Parse(Render(Path(f.rooted, f.parts + [name]))))
  {
    ParseWithSlash(current);
    ParseRooted(WithSlash(current));
    ParseRooted(current);
    NormalAppend(f, [name]);
    hide Parse, Render, WithSlash, Neat;
    ParseRender(Path(f.rooted, f.parts + [name]));
  }

  lemma {:induction false} RootResolves(path: string, name: string)
    requires path != "" && Plain(name) && !Anchored("", Parse(Join("", path)))
    ensures var s, relative := WithSlash(""), RelativeAt("", path, name);
            && Locate([], Join(s, relative)) == Locate([], EntryAt("", path, name))
            && Anchored(s, Parse(Join(s, relative)))
            && TrimPrefix(relative, "file://") == relative != "" && !Rooted(relative)
  {
    EntryIsBelow([], "", path, name);
    OtherResolves([], "", path, name);
    LocateRoot([]);
    ParseWithSlash("");
    var f := Parse(Join("", path));
    var q := Path(f.rooted, f.parts + [name]);
    NormalAppend(f, [name]);
    LocateIs([], Join("", path));
    var relative := RelativeAt("", path, name);
    JoinRooted("/", relative);
    NoScheme(q.parts);
  }
}
