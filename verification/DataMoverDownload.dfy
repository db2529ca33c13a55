/** What downloading a tree does: new places, old files untouched, locations relative to the base path. */
module DataMoverDownload {
  import opened Wrappers
  import opened GoPath
  import opened GoPathRelative
  import opened DataMover
  import opened DataMoverUpload

  // ----- The disk -----

  /** Everything lies in a directory, and nothing is both file and directory. */
  ghost predicate Tidy(w: World) {
    && [] in w.dirs
    && (forall p :: p in w.files ==> p !in w.dirs && p != [] && p[..|p| - 1] in w.dirs)
    && (forall p :: p in w.dirs && p != [] ==> p[..|p| - 1] in w.dirs)
  }

  /** Downloads add to the disk and leave the web alone. */
  ghost predicate Kept(w: World, w': World) {
    Grows(w.files, w'.files) && w.dirs <= w'.dirs && w'.web == w.web
  }

  lemma KeptTwice(w: World, w1: World, w2: World)
    requires Kept(w, w1) && Kept(w1, w2)
    ensures Kept(w, w2)
  {}

  lemma MakeDirsKeeps(w: World, p: Place)
    requires Tidy(w) && !FileAbove(w, p)
    ensures Tidy(MakeDirs(w, p)) && Kept(w, MakeDirs(w, p)) && MakeDirs(w, p).files == w.files
    ensures p in MakeDirs(w, p).dirs
  {
    var w' := MakeDirs(w, p);
    assert p[..|p|] == p;
    forall q | q in w'.dirs ensures q !in w.files && (q != [] ==> q[..|q| - 1] in w'.dirs) {
      if q !in w.dirs {
        var k :| 0 <= k <= |p| && q == p[..k];
        if k > 0 { assert q[..|q| - 1] == p[..k - 1]; }
      }
    }
  }

  /** A fetch writes its place only, all of it if it succeeds. */
  lemma FetchKeeps(env: Env, w: World, p: Place, url: string)
    requires Tidy(w) && p !in w.files
    ensures var (ok, w') := FetchTo(env, w, p, url);
            && Tidy(w') && Kept(w, w')
            && (ok ==> url in w.web && w'.files == w.files[p := w.web[url]])
  {}

  // ----- Paths under the base -----

  /** The directory `current` is the base path or some plain names below it. */
  ghost predicate Under(base: string, current: string) {
    && Rooted(base) && Rooted(current)
    && Parse(base).parts <= Parse(current).parts
    && AllPlain(Parse(current).parts[|Parse(base).parts|..])
  }

  lemma {:induction false} UnderJoin(base: string, current: string, name: string)
    requires Under(base, current) && Plain(name)
    ensures Under(base, Join(current, name))
    ensures Parse(Join(current, name)).parts == Parse(current).parts + [name]
  {
    hide Parse, Join, Plain;
    ParseJoin(current, name);
    ParseRooted(Join(current, name));
    assert (Parse(current).parts + [name])[|Parse(base).parts|..]
           == Parse(current).parts[|Parse(base).parts|..] + [name];
  }

  lemma {:induction false} JoinDot(a: string)
    requires a != ""
    ensures Parse(Join(a, ".")) == Parse(a)
  {
    hide Split, Reduce;
    SplitWhole(".");
    ReduceDot(Rooted(a), Parse(a).parts);
    ParseSlash(a, ".");
    ParseClean(a + "/" + ".");
  }

  lemma ReduceDot(rooted: bool, done: seq<string>)
    ensures Reduce(rooted, done, ["."]) == done
  {
    assert Reduce(rooted, done, []) == done;
  }

  lemma {:induction false} UnderDir(base: string, current: string, name: string)
    requires Under(base, current) && (Plain(name) || name == ".")
    ensures Under(base, Join(current, name))
  {
    if Plain(name) {
      UnderJoin(base, current, name);
    } else {
      hide Parse;
      JoinDot(current);
      ParseRooted(current);
      ParseRooted(Join(current, "."));
    }
  }

  lemma LocateRooted(cwd: Place, path: string)
    requires Rooted(path)
    ensures Locate(cwd, path) == Parse(path).parts
  {}

  /** A name in a directory under the base: its place, and its path from the base. */
  lemma {:induction false} TargetPlace(env: Env, base: string, current: string, name: string)
    requires Under(base, current) && Plain(name)
    ensures var path := Join(current, name);
            && Locate(env.cwd, path) == Locate(env.cwd, current) + [name]
            && Join(base, Relative(base, path)) == path
  {
    hide Reduce, Split, Locate, Relative, Slashed;
    UnderJoin(base, current, name);
    LocateRooted(env.cwd, current);
    LocateRooted(env.cwd, Join(current, name));
    var b := Parse(base).parts;
    var names := Parse(Join(current, name)).parts[|b|..];
    assert b + names == Parse(current).parts + [name];
    ParseJoin(current, name);
    assert Below(base, names) == Join(current, name);
    RejoinAbsolute(base, names);
  }

  // ----- One file -----

  lemma TempNameIsFree(env: Env, w: World, p: Place)
    requires TempNamesFree(env) && env.tempName(w, p).Some?
    ensures Plain(env.tempName(w, p).value) && !Exists(w, p + [env.tempName(w, p).value])
  {
    hide Plain;
  }

  lemma {:induction false} TempDirFacts(env: Env, w: World, path: string, base: string)
    requires TempNamesFree(env) && Tidy(w) && Under(base, path)
    ensures var r := TempDir(env, w, path);
            && Tidy(r.world) && Kept(w, r.world) && r.world.files == w.files
            && (r.Done? ==> Under(base, r.value) && Locate(env.cwd, r.value) !in w.dirs)
  {
    hide Locate, Under, Join, Tidy, Kept, Plain, Relative, TempNamesFree, Parse;
    UnderNotEmpty(base, path);
    var place := Locate(env.cwd, path);
    var name := env.tempName(w, place);
    TickKeeps(w);
    if place in w.dirs && name.Some? {
      TempNameIsFree(env, w, place);
      TempDirAdds(w, place, name.value);
      UnderJoin(base, path, name.value);
      TargetPlace(env, base, path, name.value);
    }
  }

  lemma UnderNotEmpty(base: string, path: string)
    requires Under(base, path)
    ensures path != ""
  {
    hide Parse, AllPlain;
  }

  lemma TickKeeps(w: World)
    requires Tidy(w)
    ensures var w' := w.(tick := w.tick + 1); Kept(w, w') && Tidy(w')
  {}

  lemma TempDirAdds(w: World, place: Place, name: string)
    requires Tidy(w) && place in w.dirs && !Exists(w, place + [name])
    ensures var w' := w.(dirs := w.dirs + {place + [name]}, tick := w.tick + 1); Tidy(w') && Kept(w, w')
  {
    assert (place + [name])[..|place + [name]| - 1] == place;
  }

  lemma {:induction false} TargetFacts(env: Env, w: World, name: string, path: string, base: string)
    requires TempNamesFree(env) && Tidy(w) && Under(base, path) && Plain(name)
    ensures var r := Target(env, w, name, path);
            && Tidy(r.world) && Kept(w, r.world) && r.world.files == w.files
            && (r.Done? ==> Locate(env.cwd, r.value) !in w.files && Join(base, Relative(base, r.value)) == r.value)
  {
    hide Locate, Join, Relative, Under, Plain, Kept;
    TargetPlace(env, base, path, name);
    if Exists(w, Locate(env.cwd, Join(path, name))) {
      TempDirFacts(env, w, path, base);
      var r := TempDir(env, w, path);
      if r.Done? {
        TargetPlace(env, base, r.value, name);
        var place := Locate(env.cwd, r.value);
        assert (place + [name])[..|place + [name]| - 1] == place;
      }
    } else {
      KeptSelf(w);
    }
  }

  /** The place a downloaded File says it is at. */
  function Landing(env: Env, base: string, f: FileData): Place {
    Locate(env.cwd, Join(base, f.location))
  }

  /** A downloaded File is at a new place, and has there what its location held. */
  ghost predicate LandedFile(env: Env, w: World, f: FileData, w': World, f': FileData, base: string) {
    var p := Landing(env, base, f');
    p !in w.files && f.location in w.web && Lookup(w'.files, p) == Some(w.web[f.location])
  }

  lemma {:induction false} DownloadFileLands(env: Env, w: World, f: FileData, path: string, base: string)
    requires TempNamesFree(env) && Tidy(w) && Under(base, path) && Plain(DownloadName(f))
    ensures var r := DownloadFile(env, w, f, path, base);
            && Tidy(r.world) && Kept(w, r.world)
            && (r.Done? ==> LandedFile(env, w, f, r.world, r.value, base) && r.count == 1)
  {
    hide Locate, Join, Relative, Under, Plain, Tidy, DownloadName, Target, FetchTo, MakeDirs, FileAbove;
    TargetFacts(env, w, DownloadName(f), path, base);
    match Target(env, w, DownloadName(f), path)
    case Failed(_) =>
    case Done(target, w1, _) =>
      var dir := Locate(env.cwd, path);
      if Exists(w1, dir) {
        FetchKeeps(env, w1, Locate(env.cwd, target), f.location);
      } else if !FileAbove(w1, dir) {
        MakeDirsKeeps(w1, dir);
        FetchKeeps(env, MakeDirs(w1, dir), Locate(env.cwd, target), f.location);
      }
  }

  // ----- A tree -----

  /** The Files are at new and pairwise different places, each with what its location held. */
  ghost predicate Landed(env: Env, w: World, fs: seq<FileData>, w': World, fs': seq<FileData>, base: string) {
    && |fs'| == |fs|
    && (forall i :: 0 <= i < |fs| ==> LandedFile(env, w, fs[i], w', fs'[i], base))
    && (forall i, j :: 0 <= i < j < |fs'| ==> Landing(env, base, fs'[i]) != Landing(env, base, fs'[j]))
  }

  lemma LandedLater(env: Env, w0: World, w: World, f: FileData, w': World, w1: World, f': FileData, base: string)
    requires Kept(w0, w) && LandedFile(env, w, f, w', f', base) && Kept(w', w1)
    ensures LandedFile(env, w0, f, w1, f', base)
  {
    hide Landing;
  }

  lemma KeptSelf(w: World)
    ensures Kept(w, w)
  {}

  lemma {:induction false} LandedApart(env: Env, w: World, f: FileData, w1: World, f': FileData,
                                       g: FileData, w2: World, g': FileData, base: string)
    requires LandedFile(env, w, f, w1, f', base) && LandedFile(env, w1, g, w2, g', base)
    ensures Landing(env, base, f') != Landing(env, base, g')
  {
    hide Landing;
  }

  lemma {:induction false} LandedConcat(env: Env, w: World, a: seq<FileData>, w1: World, a': seq<FileData>,
                                        b: seq<FileData>, w2: World, b': seq<FileData>, base: string)
    requires Kept(w, w1) && Landed(env, w, a, w1, a', base)
    requires Kept(w1, w2) && Landed(env, w1, b, w2, b', base)
    ensures Landed(env, w, a + b, w2, a' + b', base)
  {
    hide LandedFile, Kept, Landing;
    forall i | 0 <= i < |a| ensures LandedFile(env, w, a[i], w2, a'[i], base) {
      KeptSelf(w);
      LandedLater(env, w, w, a[i], w1, w2, a'[i], base);
    }
    forall i | 0 <= i < |b| ensures LandedFile(env, w, b[i], w2, b'[i], base) {
      KeptSelf(w2);
      LandedLater(env, w, w1, b[i], w2, w2, b'[i], base);
    }
    forall i, j | 0 <= i < |a| && 0 <= j < |b| ensures Landing(env, base, a'[i]) != Landing(env, base, b'[j]) {
      LandedApart(env, w, a[i], w1, a'[i], b[j], w2, b'[j], base);
    }
  }

  predicate PlainDir(d: DirData) {
    Plain(DirName(d)) || DirName(d) == "."
  }

  ghost predicate AllNamesPlain(fs: seq<FileData>) {
    forall i :: 0 <= i < |fs| ==> Plain(DownloadName(fs[i]))
  }

  lemma NamesConcat(a: seq<FileData>, b: seq<FileData>)
    requires AllNamesPlain(a + b)
    ensures AllNamesPlain(a) && AllNamesPlain(b)
  {
    hide Plain, DownloadName;
    assert forall i :: 0 <= i < |a| ==> a[i] == (a + b)[i];
    assert forall i :: 0 <= i < |b| ==> b[i] == (a + b)[|a| + i];
  }

  /**
    * Downloading a tree with plain names under an absolute base path, whether it succeeds or not,
    * changes no file that was there. If it succeeds, every File is counted and has landed.
    */
  lemma {:induction false} DownloadLands(env: Env, w: World, v: Value, current: string, base: string)
    requires TempNamesFree(env) && Tidy(w) && Under(base, current)
    requires AllNamesPlain(Files(v)) && DirsNamed(PlainDir, v)
    ensures var r := Download(env, w, v, current, base);
            && Tidy(r.world) && Kept(w, r.world)
            && (r.Done? ==> Landed(env, w, Files(v), r.world, Files(r.value), base) && r.count == |Files(v)|)
    decreases v
  {
    hide Tidy, Kept, Landed, LandedFile, Under, AllNamesPlain, TempNamesFree;
    match v
    case Scalar(_) =>
      KeptSelf(w);
      LandedNone(env, w, base);
    case File(f, secondary) =>
      NamesConcat([f], FilesAll(secondary));
      OnePlain(f);
      DownloadFileLands(env, w, f, current, base);
      var r := DownloadFile(env, w, f, current, base);
      if r.Done? {
        DownloadAllLands(env, r.world, secondary, current, base);
        var r2 := DownloadAll(env, r.world, secondary, current, base);
        KeptTwice(w, r.world, r2.world);
        if r2.Done? {
          LandedOne(env, w, f, r.world, r.value, base);
          LandedConcat(env, w, [f], r.world, [r.value], FilesAll(secondary), r2.world, FilesAll(r2.value), base);
        }
      }
    case Array(items) => DownloadAllLands(env, w, items, current, base);
    case Record(_, fields) => DownloadAllLands(env, w, fields, current, base);
    case Directory(d, listing) => DownloadDirLands(env, w, d, listing, current, base);
  }

  lemma {:induction false} DownloadDirLands(env: Env, w: World, d: DirData, listing: Listing, current: string,
                                            base: string)
    requires TempNamesFree(env) && Tidy(w) && Under(base, current)
    requires AllNamesPlain(Files(Directory(d, listing))) && DirsNamed(PlainDir, Directory(d, listing))
    ensures var r := Download(env, w, Directory(d, listing), current, base);
            && Tidy(r.world) && Kept(w, r.world)
            && (r.Done? ==> Landed(env, w, Files(Directory(d, listing)), r.world, Files(r.value), base)
                            && r.count == |Files(Directory(d, listing))|)
    decreases listing, 0
  {
    hide Tidy, Kept, Landed, LandedFile, Under, AllNamesPlain, TempNamesFree, MakeDirs, FileAbove, Locate, Join,
         Plain, DirName;
    var inside := Join(current, DirName(d));
    var place := Locate(env.cwd, inside);
    UnderDir(base, current, DirName(d));
    KeptSelf(w);
    if d.location == "" || !FileAbove(w, place) {
      var w1 := if d.location != "" then MakeDirs(w, place) else w;
      if d.location != "" { MakeDirsKeeps(w, place); }
      if listing.Unlisted? {
        LandedNone(env, w1, base);
        LandedFrom(env, w, w1, [], w1, [], base);
      } else {
        DownloadAllLands(env, w1, listing.items, inside, base);
        var r := DownloadAll(env, w1, listing.items, inside, base);
        KeptTwice(w, w1, r.world);
        if r.Done? { LandedFrom(env, w, w1, FilesAll(listing.items), r.world, FilesAll(r.value), base); }
      }
    }
  }

  lemma {:induction false} DownloadAllLands(env: Env, w: World, vs: seq<Value>, current: string, base: string)
    requires TempNamesFree(env) && Tidy(w) && Under(base, current)
    requires AllNamesPlain(FilesAll(vs)) && AllDirsNamed(PlainDir, vs)
    ensures var r := DownloadAll(env, w, vs, current, base);
            && Tidy(r.world) && Kept(w, r.world)
            && (r.Done? ==> Landed(env, w, FilesAll(vs), r.world, FilesAll(r.value), base) && r.count == |FilesAll(vs)|)
    decreases vs
  {
    hide Tidy, Kept, Landed, LandedFile, Under, AllNamesPlain, TempNamesFree;
    if vs == [] {
      KeptSelf(w);
      LandedNone(env, w, base);
    } else {
      NamesConcat(Files(vs[0]), FilesAll(vs[1..]));
      DownloadLands(env, w, vs[0], current, base);
      var r := Download(env, w, vs[0], current, base);
      if r.Done? {
        DownloadAllLands(env, r.world, vs[1..], current, base);
        var r2 := DownloadAll(env, r.world, vs[1..], current, base);
        KeptTwice(w, r.world, r2.world);
        if r2.Done? {
          LandedConcat(env, w, Files(vs[0]), r.world, Files(r.value), FilesAll(vs[1..]), r2.world, FilesAll(r2.value),
                       base);
        }
      }
    }
  }

  lemma LandedNone(env: Env, w: World, base: string)
    ensures Landed(env, w, [], w, [], base)
  {}

  lemma LandedOne(env: Env, w: World, f: FileData, w': World, f': FileData, base: string)
    requires LandedFile(env, w, f, w', f', base)
    ensures Landed(env, w, [f], w', [f'], base)
  {}

  lemma OnePlain(f: FileData)
    requires AllNamesPlain([f])
    ensures Plain(DownloadName(f))
  {
    assert [f][0] == f;
  }

  lemma LandedFrom(env: Env, w: World, w1: World, fs: seq<FileData>, w': World, fs': seq<FileData>, base: string)
    requires Kept(w, w1) && Landed(env, w1, fs, w', fs', base)
    ensures Landed(env, w, fs, w', fs', base)
  {
    hide Landing;
  }
}
