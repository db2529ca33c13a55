/** Names that are not plain: exactly which of them may cost an existing file. */
module DataMoverNames {
  import opened Wrappers
  import opened GoPath
  import opened GoPathRelative
  import opened DataMover
  import opened DataMoverPaths
  import opened DataMoverDownload

  /** A name as a relative path in shortest form. */
  function PartsOf(name: string): seq<string> {
    Reduce(false, [], Split(name))
  }

  /** The name leads up, and then down again to something. */
  predicate Climbs(name: string) {
    var parts := PartsOf(name);
    parts != [] && parts[0] == ".." && parts[|parts| - 1] != ".."
  }

  // ----- Where names lead -----

  lemma {:induction false} PartsNormal(name: string)
    ensures Normal(false, PartsOf(name))
  {
    hide Split, Reduce;
    SplitIsSlashFree(name);
    NoneNormal();
    ReduceNormal(false, [], Split(name));
  }

  lemma {:induction false} LocateName(cwd: Place, dir: string, name: string)
    requires dir != "" && name != ""
    ensures Locate(cwd, Join(dir, name)) == Reduce(true, Locate(cwd, dir), PartsOf(name))
  {
    hide Split, Reduce, Join, Locate;
    LocateJoined(cwd, dir, name);
    SplitIsSlashFree(name);
    NoneNormal();
    ReduceThrough(Locate(cwd, dir), [], Split(name));
    ReduceNone(Locate(cwd, dir));
  }

  lemma ReduceNone(done: seq<string>)
    ensures Reduce(true, done, []) == done
  {}

  lemma {:induction false} LocateIn(cwd: Place, dir: string, name: string)
    requires Plain(name)
    ensures Locate(cwd, Join(dir, name)) == Locate(cwd, dir) + [name] && Join(dir, name) != ""
  {
    hide Join, Locate, Parse, PlaceOf, Plain, Render;
    ParseJoin(dir, name);
    LocateIs(cwd, dir);
    LocateIs(cwd, Join(dir, name));
    ParseRooted(dir);
    PlaceAppend(cwd, Parse(dir), name);
    ParseIsNormal(Join(dir, name));
    ParseRooted(Join(dir, name));
    CleanEnd(Parse(Join(dir, name)));
  }

  ghost predicate NoUps(p: Place) {
    forall i :: 0 <= i < |p| ==> p[i] != ".."
  }

  lemma {:induction false} ReduceNoUps(done: seq<string>, parts: seq<string>)
    requires NoUps(done)
    ensures NoUps(Reduce(true, done, parts))
    decreases |parts|
  {
    if parts != [] { ReduceNoUps(Push(true, done, parts[0]), parts[1..]); }
  }

  // Going up only takes names away.
  lemma {:induction false} UpOnly(done: seq<string>, parts: seq<string>)
    requires (forall i :: 0 <= i < |parts| ==> parts[i] == "..") && NoUps(done)
    ensures Reduce(true, done, parts) == if |parts| <= |done| then done[..|done| - |parts|] else []
    decreases |parts|
  {
    if parts != [] {
      var up := Push(true, done, parts[0]);
      assert up == if done == [] then [] else done[..|done| - 1];
      UpOnly(up, parts[1..]);
    }
  }

  // ----- Names that keep every file -----

  lemma {:induction false} PrefixIsDir(w: World, p: Place, n: nat)
    requires Tidy(w) && p in w.dirs && n <= |p|
    ensures p[..n] in w.dirs
    decreases |p|
  {
    if n == |p| {
      assert p[..n] == p;
    } else {
      var up := p[..|p| - 1];
      assert up[..n] == p[..n];
      PrefixIsDir(w, up, n);
    }
  }

  // Nothing lies below a place that is not there.
  lemma {:induction false} NothingBelow(w: World, p: Place, more: seq<string>)
    requires Tidy(w) && !Exists(w, p)
    ensures p + more !in w.files
    decreases |more|
  {
    var q := p + more;
    if more == [] {
      assert q == p;
    } else {
      var up := q[..|q| - 1];
      assert up[..|p|] == p;
      if q in w.files { PrefixIsDir(w, up, |p|); }
    }
  }

  // In the fresh directory the name leads to a free place, or to a directory.
  lemma {:induction false} FreshIsFree(w: World, place: Place, temp: string, name: string)
    requires Tidy(w) && place in w.dirs && Plain(temp) && !Exists(w, place + [temp]) && !Climbs(name)
    requires NoUps(place)
    ensures var p := Reduce(true, place + [temp], PartsOf(name)); p !in w.files
  {
    PartsNormal(name);
    var parts, dir := PartsOf(name), place + [temp];
    if parts == [] || parts[0] != ".." {
      assert AllPlain(parts);
      hide Reduce, Normal, Tidy, Climbs, PartsOf;
      ReducePlains(true, dir, parts);
      NothingBelow(w, dir, parts);
    } else {
      assert forall i :: 0 <= i < |parts| ==> parts[i] == "..";
      assert forall i :: 0 <= i < |dir| ==> dir[i] != "..";
      hide Reduce, Normal, Climbs, PartsOf, Plain;
      UpOnly(dir, parts);
      var p := Reduce(true, dir, parts);
      var n := if |parts| <= |dir| then |dir| - |parts| else 0;
      assert p == place[..n];
      PrefixIsDir(w, place, n);
    }
  }

  // The place chosen for a download is free, or a directory.
  lemma {:induction false} TargetIsFree(env: Env, w: World, name: string, path: string)
    requires TempNamesFree(env) && Tidy(w) && NoUps(env.cwd) && name != "" && !Climbs(name)
    ensures var r := Target(env, w, name, path);
            && Tidy(r.world) && Kept(w, r.world) && r.world.files == w.files
            && (r.Done? ==> Locate(env.cwd, r.value) !in w.files)
  {
    hide Locate, Join, Climbs, PartsOf, Reduce, Plain, Kept;
    KeptSelf(w);
    if Exists(w, Locate(env.cwd, Join(path, name))) {
      var dir := if path == "" then env.tempRoot else path;
      var place := Locate(env.cwd, dir);
      var temp := env.tempName(w, place);
      TickKeeps(w);
      if place in w.dirs && temp.Some? {
        TempDirAdds(w, place, temp.value);
        LocateNoUps(env.cwd, dir);
        LocateIn(env.cwd, dir, temp.value);
        LocateName(env.cwd, Join(dir, temp.value), name);
        FreshIsFree(w, place, temp.value, name);
        hide Tidy, NoUps;
      }
    }
  }

  lemma {:induction false} LocateNoUps(cwd: Place, path: string)
    requires NoUps(cwd)
    ensures NoUps(Locate(cwd, path))
  {
    hide Split, Reduce;
    ReduceNoUps(if Rooted(path) then [] else cwd, Split(path));
  }

  /** A name that does not climb costs no file, whatever the disk, the path and the answers. */
  lemma {:induction false} OtherNamesKeep(env: Env, w: World, f: FileData, path: string, base: string)
    requires TempNamesFree(env) && Tidy(w) && NoUps(env.cwd) && !Climbs(DownloadName(f))
    ensures var w' := DownloadFile(env, w, f, path, base).world; Tidy(w') && Kept(w, w')
  {
    KeptSelf(w);
    NameNotEmpty(f);
    hide Locate, Join, Relative, Tidy, DownloadName, Target, FetchTo, MakeDirs, FileAbove, Climbs, NoUps, Kept,
         TempNamesFree;
    TargetIsFree(env, w, DownloadName(f), path);
    match Target(env, w, DownloadName(f), path)
    case Failed(_) =>
    case Done(target, w1, _) =>
      var dir, p := Locate(env.cwd, path), Locate(env.cwd, target);
      if Exists(w1, dir) {
        FetchKeeps(env, w1, p, f.location);
        KeptTwice(w, w1, FetchTo(env, w1, p, f.location).1);
      } else if !FileAbove(w1, dir) {
        var w2 := MakeDirs(w1, dir);
        MakeDirsKeeps(w1, dir);
        FetchKeeps(env, w2, p, f.location);
        KeptTwice(w, w1, w2);
        KeptTwice(w, w2, FetchTo(env, w2, p, f.location).1);
      }
  }

  lemma NameNotEmpty(f: FileData)
    ensures DownloadName(f) != ""
  {
    hide Base;
  }

  // ----- A name that climbs -----

  // A disk on which such a name is taken, and leads from the fresh directory to another file.
  function Ups(n: nat): seq<string> {
    seq(n, _ => "..")
  }

  function Deep(x: string, n: nat): Place {
    seq(n, _ => x)
  }

  lemma {:induction false} ClimbingParts(name: string) returns (k: nat, rest: seq<string>)
    requires Climbs(name)
    ensures k > 0 && rest != [] && PartsOf(name) == Ups(k) + rest && AllPlain(rest) && name != ""
  {
    PartsNormal(name);
    var parts := PartsOf(name);
    EmptyName();
    hide PartsOf;
    k := 1;
    while k < |parts| && parts[k] == ".."
      invariant 0 < k <= |parts| && forall i :: 0 <= i < k ==> parts[i] == ".."
    {
      k := k + 1;
    }
    rest := parts[k..];
    assert parts == Ups(k) + rest;
    assert AllPlain(rest);
  }

  lemma EmptyName()
    ensures PartsOf("") == []
  {
    SplitWhole("");
    ReduceEmpty(false, []);
  }

  lemma {:induction false} UpAndDown(done: Place, k: nat, rest: seq<string>)
    requires NoUps(done) && k <= |done| && AllPlain(rest)
    ensures Reduce(true, done, Ups(k) + rest) == done[..|done| - k] + rest
  {
    hide Reduce;
    ReduceConcat(true, done, Ups(k), rest);
    UpOnly(done, Ups(k));
    ReducePlains(true, done[..|done| - k], rest);
  }

  /** Two files: where the name leads from the download path, and where it leads from a directory in it. */
  function TakenWorld(x: string, k: nat, rest: seq<string>): World
    requires rest != []
  {
    World(map[rest := "", [x] + rest := "old"],
          (set i | 0 <= i <= k :: Deep(x, i)) + (set i | 0 <= i < |rest| :: rest[..i])
          + (set i | 0 <= i < |rest| :: [x] + rest[..i]),
          map["u" := "new"], 0)
  }

  lemma TakenTidy(x: string, k: nat, rest: seq<string>)
    requires rest != [] && k > 0 && rest[0] != x
    ensures Tidy(TakenWorld(x, k, rest))
  {
    var w := TakenWorld(x, k, rest);
    assert Deep(x, 0) == [];
    TakenFiles(x, k, rest);
    forall p | p in w.dirs && p != [] ensures p[..|p| - 1] in w.dirs { TakenParent(x, k, rest, p); }
  }

  lemma TakenFiles(x: string, k: nat, rest: seq<string>)
    requires rest != [] && k > 0 && rest[0] != x
    ensures var w := TakenWorld(x, k, rest);
            && rest !in w.dirs && rest[..|rest| - 1] in w.dirs
            && [x] + rest !in w.dirs && ([x] + rest)[..|rest|] in w.dirs
  {
    var w := TakenWorld(x, k, rest);
    assert ([x] + rest)[..|rest|] == [x] + rest[..|rest| - 1];
    forall i | 0 <= i <= k ensures Deep(x, i) != rest && Deep(x, i) != [x] + rest {
      if i > 0 { assert Deep(x, i)[0] == x; }
      if i > 1 { assert Deep(x, i)[1] == x && ([x] + rest)[1] == rest[0]; }
    }
    forall i | 0 <= i < |rest| ensures rest[..i] != rest && rest[..i] != [x] + rest
                                       && [x] + rest[..i] != rest && [x] + rest[..i] != [x] + rest {
      assert |rest[..i]| < |rest|;
      assert ([x] + rest[..i])[0] != rest[0];
    }
  }

  lemma TakenParent(x: string, k: nat, rest: seq<string>, p: Place)
    requires rest != [] && p in TakenWorld(x, k, rest).dirs && p != []
    ensures p[..|p| - 1] in TakenWorld(x, k, rest).dirs
  {
    if i :| 0 <= i <= k && p == Deep(x, i) {
      assert p[..|p| - 1] == Deep(x, i - 1);
    } else if i :| 0 <= i < |rest| && p == rest[..i] {
      assert p[..|p| - 1] == rest[..i - 1];
    } else {
      var i :| 0 <= i < |rest| && p == [x] + rest[..i];
      if i == 0 { assert p[..|p| - 1] == Deep(x, 0); } else { assert p[..|p| - 1] == [x] + rest[..i - 1]; }
    }
  }

  function TakenEnv(temp: string): Env {
    Env([], "", Host("http", "h", []),
        (w: World, c: Content) => None,
        (w: World, url: string) => Whole,
        (w: World, p: Place) => if Exists(w, p + [temp]) then None else Some(temp),
        (files: map<Place, Content>, dirs: set<Place>, p: Place) => [],
        (url: string) => None)
  }

  lemma TakenFree(x: string, temp: string, k: nat, rest: seq<string>)
    requires rest != [] && k > 0 && rest[0] != x && temp != x && temp != rest[0]
    ensures !Exists(TakenWorld(x, k, rest), Deep(x, k) + [temp])
  {
    var p, w := Deep(x, k) + [temp], TakenWorld(x, k, rest);
    assert p[0] == x && p[|p| - 1] == temp;
    assert k > 1 ==> p[1] == x;
    assert p != rest && p != [x] + rest;
    forall i | 0 <= i <= k ensures p != Deep(x, i) { assert |Deep(x, i)| == i; }
    forall i | 0 <= i < |rest| ensures p != rest[..i] && p != [x] + rest[..i] {
      if i > 0 { assert rest[..i][0] == rest[0] && ([x] + rest[..i])[1] == rest[0]; }
    }
  }

  lemma {:induction false} TakenPlaces(env: Env, x: string, temp: string, k: nat, rest: seq<string>, name: string)
    requires Plain(x) && Plain(temp) && k > 0 && rest != [] && AllPlain(rest) && PartsOf(name) == Ups(k) + rest
    requires name != ""
    ensures var path := Render(Path(true, Deep(x, k)));
            && path != "" && Locate(env.cwd, path) == Deep(x, k)
            && Locate(env.cwd, Join(path, name)) == rest
            && Locate(env.cwd, Join(Join(path, temp), name)) == [x] + rest
  {
    hide Locate, Join, Reduce, PartsOf, Render, Normal, Plain, AllPlain, Deep, Ups, NoUps, PlaceOf;
    var p, path := Deep(x, k), Render(Path(true, Deep(x, k)));
    DeepFacts(x, temp, k);
    LocateRender(env.cwd, Path(true, p));
    PlainPlace(env.cwd, p);
    CleanEnd(Path(true, p));
    LocateName(env.cwd, path, name);
    UpAndDown(p, k, rest);
    LocateIn(env.cwd, path, temp);
    LocateName(env.cwd, Join(path, temp), name);
    UpAndDown(p + [temp], k, rest);
    assert [] + rest == rest;
  }

  lemma DeepFacts(x: string, temp: string, k: nat)
    requires Plain(x) && Plain(temp) && k > 0
    ensures var p := Deep(x, k);
            && |p| == k && AllPlain(p) && Normal(true, p) && NoUps(p) && NoUps(p + [temp])
            && p[..|p| - k] == [] && (p + [temp])[..|p + [temp]| - k] == [x]
  {
    var p := Deep(x, k);
    assert p[0] == x;
    assert (p + [temp])[..1] == [x];
  }

  lemma {:induction false} PlainPlace(cwd: Place, p: Place)
    requires AllPlain(p)
    ensures PlaceOf(cwd, Path(true, p)) == p
  {
    hide Reduce;
    ReducePlains(true, [], p);
  }

  lemma TakenEnvFree(temp: string)
    requires Plain(temp) && "input_" <= temp
    ensures TempNamesFree(TakenEnv(temp))
  {}

  /** A download under this name that changes a file that was there. */
  ghost predicate Overwrites(env: Env, w: World, f: FileData, path: string, base: string, name: string) {
    && TempNamesFree(env) && Tidy(w) && NoUps(env.cwd) && DownloadName(f) == name
    && !Kept(w, DownloadFile(env, w, f, path, base).world)
  }

  /** A name that climbs may cost a file: it is taken, and leads from the fresh directory to another one. */
  lemma {:induction false} ClimbingNameOverwrites(name: string, base: string)
    returns (env: Env, w: World, f: FileData, path: string)
    requires Climbs(name)
    ensures Overwrites(env, w, f, path, base, name)
  {
    var k, rest := ClimbingParts(name);
    assert Plain(rest[0]);
    hide Climbs, PartsOf, Plain, AllPlain, TakenWorld, TakenEnv, Overwrites;
    var x, temp := rest[0] + "x", "input_" + rest[0];
    OtherNames(rest[0]);
    env, w := TakenEnv(temp), TakenWorld(x, k, rest);
    f, path := FileData("", "u", "", name, ""), Render(Path(true, Deep(x, k)));
    TakenOverwrites(x, temp, k, rest, name, base);
  }

  lemma {:induction false} TakenOverwrites(x: string, temp: string, k: nat, rest: seq<string>, name: string,
                                           base: string)
    requires Plain(x) && Plain(temp) && "input_" <= temp && k > 0 && rest != [] && AllPlain(rest)
    requires rest[0] != x && temp != x && temp != rest[0] && PartsOf(name) == Ups(k) + rest && name != ""
    ensures Overwrites(TakenEnv(temp), TakenWorld(x, k, rest), FileData("", "u", "", name, ""),
                       Render(Path(true, Deep(x, k))), base, name)
  {
    var env, w := TakenEnv(temp), TakenWorld(x, k, rest);
    var f, path := FileData("", "u", "", name, ""), Render(Path(true, Deep(x, k)));
    var other := [x] + rest;
    assert NoUps(env.cwd) && other in w.files && w.files[other] != w.web["u"] && rest in w.files;
    assert other[..|other| - 1] == other[..|rest|] && Deep(x, k) in w.dirs;
    hide PartsOf, Plain, AllPlain, Locate, Join, Tidy, TempNamesFree, DownloadFile, Deep, Render, Ups, Kept;
    TakenEnvFree(temp);
    TakenTidy(x, k, rest);
    TakenPlaces(env, x, temp, k, rest, name);
    TakenFiles(x, k, rest);
    TakenFree(x, temp, k, rest);
    TakenTarget(w, env, path, temp, name, Deep(x, k), rest, other, base);
    FileLost(w, DownloadFile(env, w, f, path, base).world, other);
  }

  lemma FileLost(w: World, w': World, p: Place)
    requires p in w.files && p in w'.files && w'.files[p] != w.files[p]
    ensures !Kept(w, w')
  {}

  lemma OtherNames(a: string)
    requires Plain(a)
    ensures Plain(a + "x") && Plain("input_" + a) && a + "x" != a && "input_" + a != a && a + "x" != "input_" + a
  {
    assert (a + "x")[|a|] == 'x' && ("input_" + a)[0] == 'i';
    assert |a + "x"| == |a| + 1 && |"input_" + a| == |a| + 6;
  }

  // The download itself.
  lemma TakenTarget(w: World, env: Env, path: string, temp: string, name: string, dir: Place, wanted: Place,
                    other: Place, base: string)
    requires path != "" && name != "" && Locate(env.cwd, path) == dir && dir in w.dirs
    requires env.tempName(w, dir) == Some(temp)
    requires Locate(env.cwd, Join(path, name)) == wanted && wanted in w.files
    requires Locate(env.cwd, Join(Join(path, temp), name)) == other
    requires other in w.files && other !in w.dirs && other != dir + [temp]
    requires other != [] && other[..|other| - 1] in w.dirs && "u" in w.web && w.web["u"] != w.files[other]
    requires forall w': World :: env.fetch(w', "u") == Whole
    ensures var w' := DownloadFile(env, w, FileData("", "u", "", name, ""), path, base).world;
            other in w'.files && w'.files[other] == w.web["u"]
  {
    hide Locate, Join, Relative;
  }

  /** Exactly the names that climb can cost an existing file. */
  lemma {:induction false} NamesThatKeepIff(name: string, base: string)
    requires name != ""
    ensures (exists env: Env, w: World, f: FileData, path: string :: Overwrites(env, w, f, path, base, name))
            <==> Climbs(name)
  {
    if Climbs(name) {
      hide Climbs, Overwrites;
      var env, w, f, path := ClimbingNameOverwrites(name, base);
    } else {
      hide Climbs, TempNamesFree, Tidy, NoUps, DownloadName, Kept, DownloadFile;
      forall env: Env, w: World, f: FileData, path: string ensures !Overwrites(env, w, f, path, base, name) {
        if Overwrites(env, w, f, path, base, name) { OtherNamesKeep(env, w, f, path, base); }
      }
    }
  }

  // ----- Trees -----

  ghost predicate NoneClimbs(fs: seq<FileData>) {
    forall i :: 0 <= i < |fs| ==> !Climbs(DownloadName(fs[i]))
  }

  lemma NoneClimbsConcat(a: seq<FileData>, b: seq<FileData>)
    requires NoneClimbs(a + b)
    ensures NoneClimbs(a) && NoneClimbs(b)
  {
    hide Climbs, DownloadName;
    assert forall i :: 0 <= i < |a| ==> a[i] == (a + b)[i];
    assert forall i :: 0 <= i < |b| ==> b[i] == (a + b)[|a| + i];
  }

  /**
    * If no File's name climbs, downloading a tree changes no file that was there, whether it succeeds or not,
    * whatever the names of its directories, the paths and the answers.
    */
  lemma {:induction false} TreesKeep(env: Env, w: World, v: Value, current: string, base: string)
    requires TempNamesFree(env) && Tidy(w) && NoUps(env.cwd) && NoneClimbs(Files(v))
    ensures var w' := Download(env, w, v, current, base).world; Tidy(w') && Kept(w, w')
    decreases v
  {
    hide TempNamesFree, Tidy, Kept, NoUps, NoneClimbs, DownloadFile, MakeDirs, FileAbove, Locate, Join, DirName;
    KeptSelf(w);
    match v
    case Scalar(_) =>
    case File(f, secondary) =>
      NoneClimbsConcat([f], FilesAll(secondary));
      OneKeeps(env, w, f, current, base);
      var r := DownloadFile(env, w, f, current, base);
      if r.Done? {
        AllTreesKeep(env, r.world, secondary, current, base);
        KeptTwice(w, r.world, DownloadAll(env, r.world, secondary, current, base).world);
      }
    case Array(items) => AllTreesKeep(env, w, items, current, base);
    case Record(_, fields) => AllTreesKeep(env, w, fields, current, base);
    case Directory(d, listing) =>
      var inside := Join(current, DirName(d));
      var place := Locate(env.cwd, inside);
      if d.location == "" || !FileAbove(w, place) {
        var w1 := if d.location != "" then MakeDirs(w, place) else w;
        if d.location != "" { MakeDirsKeeps(w, place); }
        if listing.Listing? {
          AllTreesKeep(env, w1, listing.items, inside, base);
          KeptTwice(w, w1, DownloadAll(env, w1, listing.items, inside, base).world);
        }
      }
  }

  lemma {:induction false} AllTreesKeep(env: Env, w: World, vs: seq<Value>, current: string, base: string)
    requires TempNamesFree(env) && Tidy(w) && NoUps(env.cwd) && NoneClimbs(FilesAll(vs))
    ensures var w' := DownloadAll(env, w, vs, current, base).world; Tidy(w') && Kept(w, w')
    decreases vs
  {
    hide TempNamesFree, Tidy, Kept, NoUps, NoneClimbs;
    KeptSelf(w);
    if vs != [] {
      NoneClimbsConcat(Files(vs[0]), FilesAll(vs[1..]));
      TreesKeep(env, w, vs[0], current, base);
      var r := Download(env, w, vs[0], current, base);
      if r.Done? {
        AllTreesKeep(env, r.world, vs[1..], current, base);
        KeptTwice(w, r.world, DownloadAll(env, r.world, vs[1..], current, base).world);
      }
    }
  }

  lemma OneKeeps(env: Env, w: World, f: FileData, path: string, base: string)
    requires TempNamesFree(env) && Tidy(w) && NoUps(env.cwd) && NoneClimbs([f])
    ensures var w' := DownloadFile(env, w, f, path, base).world; Tidy(w') && Kept(w, w')
  {
    hide Climbs, DownloadName, TempNamesFree, Tidy, NoUps, Kept, DownloadFile;
    assert [f][0] == f;
    OtherNamesKeep(env, w, f, path, base);
  }
}
