/** When downloads succeed, once the web and the temporary directories answer. */
module DataMoverFetch {
  import opened Wrappers
  import opened GoPath
  import opened GoPathRelative
  import opened DataMover
  import opened DataMoverUpload
  import opened DataMoverDownload
  import opened DataMoverNames

  /** Fetches bring all of a file, and a temporary directory can be made. */
  ghost predicate Answers(env: Env) {
    && (forall w: World, url: string :: env.fetch(w, url) == Whole)
    && (forall w: World, p: Place :: env.tempName(w, p).Some?)
    && TempNamesFree(env)
  }

  /** The File is on the web, and is not a literal. */
  predicate Fetchable(w: World, f: FileData) {
    f.contents == "" && f.location != "" && f.location in w.web
  }

  /** New files are below a depth, under the given names. */
  ghost predicate Adds(w: World, w': World, depth: nat, names: set<string>) {
    forall q :: q in w'.files && q !in w.files ==> |q| > depth && q[|q| - 1] in names
  }

  // ----- One file -----

  // In a directory nothing is in the way.
  lemma {:induction false} DirIsClear(w: World, p: Place)
    requires Tidy(w) && p in w.dirs
    ensures !FileAbove(w, p)
  {
    forall k | 0 <= k <= |p| ensures p[..k] !in w.files {
      PrefixIsDir(w, p, k);
      assert p[..k] in w.dirs;
    }
  }

  lemma ParentIsDir(w: World, p: Place, name: string)
    requires Tidy(w) && Exists(w, p + [name])
    ensures p in w.dirs
  {
    assert (p + [name])[..|p + [name]| - 1] == p;
  }

  lemma NothingIn(w: World, p: Place, name: string)
    requires Tidy(w) && !Exists(w, p)
    ensures !Exists(w, p + [name]) && p + [name] != p
  {
    assert (p + [name])[..|p + [name]| - 1] == p;
  }

  /** The directory a file is written to: a new one if its name is taken. */
  function Folder(env: Env, w: World, p: Place, name: string): Place {
    if Exists(w, p + [name]) && env.tempName(w, p).Some? then p + [env.tempName(w, p).value] else p
  }

  /** The path a file is written to can be had, and is free. */
  ghost predicate Chosen(env: Env, w: World, r: Step<string>, p: Place, name: string) {
    var dir := Folder(env, w, p, name);
    && r.Done? && r.world.files == w.files && r.world.web == w.web && Locate(env.cwd, r.value) == dir + [name]
    && !Exists(r.world, dir + [name]) && p <= dir
    && (dir == p ==> r.world.dirs == w.dirs)
    && (dir != p ==> dir in r.world.dirs && p in w.dirs && p in r.world.dirs)
  }

  lemma TempAnswer(env: Env, w: World, p: Place)
    requires Answers(env)
    ensures env.tempName(w, p).Some? && Plain(env.tempName(w, p).value)
    ensures !Exists(w, p + [env.tempName(w, p).value])
  {
    hide Plain;
  }

  lemma {:induction false} TargetIsChosen(env: Env, w: World, name: string, path: string, base: string)
    requires Answers(env) && Tidy(w) && Under(base, path) && Plain(name)
    ensures Chosen(env, w, Target(env, w, name, path), Locate(env.cwd, path), name)
  {
    hide Answers, Locate, Join, Relative, Under, Plain, Tidy;
    var p := Locate(env.cwd, path);
    TargetPlace(env, base, path, name);
    if Exists(w, p + [name]) {
      TempAnswer(env, w, p);
      var t := env.tempName(w, p).value;
      UnderNotEmpty(base, path);
      ParentIsDir(w, p, name);
      NothingIn(w, p + [t], name);
      UnderJoin(base, path, t);
      TargetPlace(env, base, path, t);
      TargetPlace(env, base, Join(path, t), name);
    }
  }

  lemma FetchSucceeds(env: Env, w: World, dir: Place, name: string, url: string)
    requires Answers(env) && !Exists(w, dir + [name])
    ensures var (ok, w') := FetchTo(env, w, dir + [name], url);
            && (ok <==> dir in w.dirs && url in w.web)
            && (ok ==> w'.files == w.files[dir + [name] := w.web[url]])
  {
    assert (dir + [name])[..|dir + [name]| - 1] == dir;
  }

  lemma MadeOnly(w: World, p: Place, name: string)
    requires p + [name] !in w.dirs
    ensures p + [name] !in MakeDirs(w, p).dirs && MakeDirs(w, p).web == w.web && MakeDirs(w, p).files == w.files
    ensures p in MakeDirs(w, p).dirs
  {
    forall k | 0 <= k <= |p| ensures p[..k] != p + [name] { assert |p[..k]| < |p + [name]|; }
    assert p[..|p|] == p;
  }

  lemma FileAboveItself(w: World, p: Place)
    requires p in w.files
    ensures FileAbove(w, p)
  {
    assert p[..|p|] == p;
  }

  lemma SameAbove(w: World, w': World, p: Place)
    requires w'.files == w.files
    ensures FileAbove(w', p) == FileAbove(w, p)
  {}

  lemma AddsAt(w: World, w': World, p: Place, dir: Place, name: string, c: Content)
    requires p <= dir && w'.files == w.files[dir + [name] := c]
    ensures Adds(w, w', |p|, {name})
  {}

  /** A File is downloaded exactly if it is on the web and no file is at or above its directory. */
  lemma {:induction false} DownloadFileSucceedsIff(env: Env, w: World, f: FileData, path: string, base: string)
    requires Answers(env) && Tidy(w) && Under(base, path) && Plain(DownloadName(f))
    ensures var r, p := DownloadFile(env, w, f, path, base), Locate(env.cwd, path);
            && (r.Done? <==> Fetchable(w, f) && !FileAbove(w, p))
            && (r.Done? ==> Adds(w, r.world, |p|, {DownloadName(f)})
                            && Folder(env, w, p, DownloadName(f)) + [DownloadName(f)] in r.world.files)
  {
    hide Answers, Tidy, Under, Plain, Locate, DownloadName, FileAbove, FetchTo, MakeDirs, Target, Adds, Folder,
         Relative;
    if f.contents == "" && f.location != "" {
      var p, name := Locate(env.cwd, path), DownloadName(f);
      TargetIsChosen(env, w, name, path, base);
      var w1, dir := Target(env, w, name, path).world, Folder(env, w, p, name);
      SameAbove(w, w1, p);
      if p in w.dirs {
        DirIsClear(w, p);
      } else if p in w.files {
        FileAboveItself(w, p);
      } else {
        MadeOnly(w1, p, name);
      }
      var w2 := if Exists(w1, p) then w1 else MakeDirs(w1, p);
      FetchSucceeds(env, w2, dir, name, f.location);
      var w3 := FetchTo(env, w2, dir + [name], f.location).1;
      if f.location in w.web && w3.files == w.files[dir + [name] := w.web[f.location]] {
        AddsAt(w, w3, p, dir, name, w.web[f.location]);
      }
    }
  }

  // ----- A tree -----

  /** From a depth on, none of the names is on the way to a place. */
  ghost predicate Avoids(p: Place, depth: nat, names: set<string>) {
    depth <= |p| && forall k :: depth <= k < |p| ==> p[k] !in names
  }

  lemma AvoidsNext(p: Place, depth: nat, names: set<string>, name: string)
    requires Avoids(p, depth, names) && name !in names
    ensures Avoids(p + [name], depth, names)
  {}

  // Files added under the names are not in the way.
  lemma {:induction false} AddedNotAbove(w: World, w': World, p: Place, depth: nat, names: set<string>)
    requires Kept(w, w') && Adds(w, w', depth, names) && Avoids(p, depth, names)
    ensures FileAbove(w', p) == FileAbove(w, p)
  {
    forall k | 0 <= k <= |p| ensures p[..k] in w'.files <==> p[..k] in w.files {
      assert k > 0 ==> p[..k][|p[..k]| - 1] == p[k - 1];
    }
  }

  lemma AddsMore(w: World, w': World, depth: nat, names: set<string>, depth': nat, names': set<string>)
    requires Adds(w, w', depth', names') && depth <= depth' && names' <= names
    ensures Adds(w, w', depth, names)
  {}

  /** A directory with a plain name that no file has, or with none. */
  ghost function Besides(names: set<string>): DirData -> bool {
    (d: DirData) => DirName(d) == "." || (Plain(DirName(d)) && DirName(d) !in names)
  }

  ghost predicate NamedIn(fs: seq<FileData>, names: set<string>) {
    forall i :: 0 <= i < |fs| ==> Plain(DownloadName(fs[i])) && DownloadName(fs[i]) in names
  }

  lemma NamedConcat(a: seq<FileData>, b: seq<FileData>, names: set<string>)
    requires NamedIn(a + b, names)
    ensures NamedIn(a, names) && NamedIn(b, names)
  {
    hide Plain, DownloadName;
    assert forall i :: 0 <= i < |a| ==> a[i] == (a + b)[i];
    assert forall i :: 0 <= i < |b| ==> b[i] == (a + b)[|a| + i];
  }

  /**
    * Every File is on the web, no Directory is without location, path and listing, and no file is at or
    * above a directory that is to be made or written to.
    */
  ghost predicate Open(env: Env, w: World, v: Value, current: string)
    decreases v
  {
    match v
    case Scalar(_) => true
    case File(f, secondary) =>
      Fetchable(w, f) && !FileAbove(w, Locate(env.cwd, current)) && AllOpen(env, w, secondary, current)
    case Array(items) => AllOpen(env, w, items, current)
    case Record(_, fields) => AllOpen(env, w, fields, current)
    case Directory(d, listing) =>
      var inside := Join(current, DirName(d));
      && (listing.Unlisted? ==> d.location != "" || d.path != "")
      && (d.location != "" ==> !FileAbove(w, Locate(env.cwd, inside)))
      && (listing.Listing? ==> AllOpen(env, w, listing.items, inside))
  }

  ghost predicate AllOpen(env: Env, w: World, vs: seq<Value>, current: string)
    decreases vs
  {
    vs == [] || (Open(env, w, vs[0], current) && AllOpen(env, w, vs[1..], current))
  }

  /** A directory under the base, whose place avoids the names. */
  ghost predicate Roomy(env: Env, w: World, current: string, base: string, depth: nat, names: set<string>) {
    Tidy(w) && Under(base, current) && Avoids(Locate(env.cwd, current), depth, names)
  }

  // A directory inside.
  lemma {:induction false} Inside(env: Env, w: World, d: DirData, current: string, base: string, depth: nat,
                                  names: set<string>)
    requires Roomy(env, w, current, base, depth, names) && Besides(names)(d)
    ensures Roomy(env, w, Join(current, DirName(d)), base, depth, names)
  {
    hide DirName, Join, Locate, Plain, Under, Tidy, Avoids;
    UnderDir(base, current, DirName(d));
    if DirName(d) == "." {
      DotPlace(env, current, base);
    } else {
      TargetPlace(env, base, current, DirName(d));
      AvoidsNext(Locate(env.cwd, current), depth, names, DirName(d));
    }
  }

  lemma {:induction false} DotPlace(env: Env, current: string, base: string)
    requires Under(base, current)
    ensures Locate(env.cwd, Join(current, ".")) == Locate(env.cwd, current)
  {
    hide Parse, Join, Locate, AllPlain;
    JoinDot(current);
    ParseRooted(current);
    ParseRooted(Join(current, "."));
    LocateRooted(env.cwd, current);
    LocateRooted(env.cwd, Join(current, "."));
  }

  lemma {:induction false} OpenLater(env: Env, w: World, w': World, v: Value, current: string, base: string,
                                     depth: nat, names: set<string>)
    requires Kept(w, w') && Adds(w, w', depth, names)
    requires Roomy(env, w, current, base, depth, names) && DirsNamed(Besides(names), v)
    ensures Open(env, w', v, current) == Open(env, w, v, current)
    decreases v
  {
    hide DirName, Join, Locate, FileAbove, Under, Tidy, Besides, Adds, Avoids;
    match v
    case Scalar(_) =>
    case File(f, secondary) =>
      AddedNotAbove(w, w', Locate(env.cwd, current), depth, names);
      AllOpenLater(env, w, w', secondary, current, base, depth, names);
    case Array(items) => AllOpenLater(env, w, w', items, current, base, depth, names);
    case Record(_, fields) => AllOpenLater(env, w, w', fields, current, base, depth, names);
    case Directory(d, listing) =>
      Inside(env, w, d, current, base, depth, names);
      var inside := Join(current, DirName(d));
      AddedNotAbove(w, w', Locate(env.cwd, inside), depth, names);
      if listing.Listing? { AllOpenLater(env, w, w', listing.items, inside, base, depth, names); }
  }

  lemma {:induction false} AllOpenLater(env: Env, w: World, w': World, vs: seq<Value>, current: string, base: string,
                                        depth: nat, names: set<string>)
    requires Kept(w, w') && Adds(w, w', depth, names)
    requires Roomy(env, w, current, base, depth, names) && AllDirsNamed(Besides(names), vs)
    ensures AllOpen(env, w', vs, current) == AllOpen(env, w, vs, current)
    decreases vs
  {
    hide Kept, Adds, Roomy, Besides;
    if vs != [] {
      OpenLater(env, w, w', vs[0], current, base, depth, names);
      AllOpenLater(env, w, w', vs[1..], current, base, depth, names);
    }
  }

  /** What a download that succeeds leaves for the next. */
  ghost predicate GoesOn(w: World, w': World, depth: nat, names: set<string>) {
    Tidy(w') && Kept(w, w') && Adds(w, w', depth, names)
  }

  lemma GoesOnTwice(w: World, w1: World, w2: World, depth: nat, names: set<string>)
    requires GoesOn(w, w1, depth, names) && GoesOn(w1, w2, depth, names)
    ensures GoesOn(w, w2, depth, names)
  {
    hide Tidy;
  }

  lemma {:induction false} FileGoesOn(env: Env, w: World, f: FileData, current: string, base: string, depth: nat,
                                      names: set<string>)
    requires Answers(env) && Roomy(env, w, current, base, depth, names)
    requires Plain(DownloadName(f)) && DownloadName(f) in names
    ensures var r := DownloadFile(env, w, f, current, base);
            && (r.Done? <==> Fetchable(w, f) && !FileAbove(w, Locate(env.cwd, current)))
            && (r.Done? ==> GoesOn(w, r.world, depth, names))
  {
    assert TempNamesFree(env);
    hide Answers, TempNamesFree, Under, Plain, Locate, DownloadName, FileAbove, DownloadFile, Adds, Kept, Tidy;
    DownloadFileLands(env, w, f, current, base);
    DownloadFileSucceedsIff(env, w, f, current, base);
    var r := DownloadFile(env, w, f, current, base);
    if r.Done? { AddsMore(w, r.world, depth, names, |Locate(env.cwd, current)|, {DownloadName(f)}); }
  }

  /**
    * If fetches and temporary directories succeed and no Directory of the tree has the name of a File,
    * downloading it succeeds exactly if it is open on the disk before.
    */
  lemma {:induction false} DownloadSucceeds(env: Env, w: World, v: Value, current: string, base: string, depth: nat,
                                            names: set<string>)
    requires Answers(env) && Roomy(env, w, current, base, depth, names)
    requires NamedIn(Files(v), names) && DirsNamed(Besides(names), v)
    ensures var r := Download(env, w, v, current, base);
            && (r.Done? <==> Open(env, w, v, current))
            && (r.Done? ==> GoesOn(w, r.world, depth, names))
    decreases v
  {
    hide Answers, Roomy, Besides, GoesOn, NamedIn, Locate, FileAbove, DownloadFile, Fetchable, DirName, Join;
    match v
    case Scalar(_) => RoomyGoesOn(env, w, current, base, depth, names);
    case File(f, secondary) =>
      NamedConcat([f], FilesAll(secondary), names);
      NamedOne(f, names);
      FileGoesOn(env, w, f, current, base, depth, names);
      var r := DownloadFile(env, w, f, current, base);
      if r.Done? {
        GoesOnLater(env, w, r.world, secondary, current, base, depth, names);
        AllDownloadSucceeds(env, r.world, secondary, current, base, depth, names);
        var r2 := DownloadAll(env, r.world, secondary, current, base);
        if r2.Done? { GoesOnTwice(w, r.world, r2.world, depth, names); }
      }
    case Array(items) => AllDownloadSucceeds(env, w, items, current, base, depth, names);
    case Record(_, fields) => AllDownloadSucceeds(env, w, fields, current, base, depth, names);
    case Directory(d, listing) => DirSucceeds(env, w, d, listing, current, base, depth, names);
  }

  lemma RoomyGoesOn(env: Env, w: World, current: string, base: string, depth: nat, names: set<string>)
    requires Roomy(env, w, current, base, depth, names)
    ensures GoesOn(w, w, depth, names)
  {}

  lemma NamedOne(f: FileData, names: set<string>)
    requires NamedIn([f], names)
    ensures Plain(DownloadName(f)) && DownloadName(f) in names
  {
    assert [f][0] == f;
  }

  lemma GoesOnLater(env: Env, w: World, w': World, vs: seq<Value>, current: string, base: string, depth: nat,
                    names: set<string>)
    requires GoesOn(w, w', depth, names) && Roomy(env, w, current, base, depth, names)
    requires AllDirsNamed(Besides(names), vs)
    ensures Roomy(env, w', current, base, depth, names) && AllOpen(env, w', vs, current) == AllOpen(env, w, vs, current)
  {
    hide Kept, Adds, Tidy, Under, Avoids, Besides;
    AllOpenLater(env, w, w', vs, current, base, depth, names);
  }

  lemma {:induction false} DirSucceeds(env: Env, w: World, d: DirData, listing: Listing, current: string, base: string,
                                       depth: nat, names: set<string>)
    requires Answers(env) && Roomy(env, w, current, base, depth, names)
    requires NamedIn(Files(Directory(d, listing)), names) && DirsNamed(Besides(names), Directory(d, listing))
    ensures var v := Directory(d, listing);
            var r := Download(env, w, v, current, base);
            && (r.Done? <==> Open(env, w, v, current))
            && (r.Done? ==> GoesOn(w, r.world, depth, names))
    decreases listing, 0
  {
    hide Answers, Roomy, Besides, GoesOn, NamedIn, Locate, FileAbove, DirName, Join, MakeDirs;
    Inside(env, w, d, current, base, depth, names);
    RoomyGoesOn(env, w, current, base, depth, names);
    var inside := Join(current, DirName(d));
    var place := Locate(env.cwd, inside);
    if d.location == "" || !FileAbove(w, place) {
      var w1 := if d.location != "" then MakeDirs(w, place) else w;
      if d.location != "" { MadeGoesOn(env, w, place, inside, base, depth, names); }
      if listing.Listing? {
        GoesOnLater(env, w, w1, listing.items, inside, base, depth, names);
        AllDownloadSucceeds(env, w1, listing.items, inside, base, depth, names);
        var r := DownloadAll(env, w1, listing.items, inside, base);
        if r.Done? { GoesOnTwice(w, w1, r.world, depth, names); }
      }
    }
  }

  lemma MadeGoesOn(env: Env, w: World, p: Place, current: string, base: string, depth: nat, names: set<string>)
    requires Roomy(env, w, current, base, depth, names) && !FileAbove(w, p)
    ensures GoesOn(w, MakeDirs(w, p), depth, names)
  {
    hide Tidy, Kept, FileAbove, MakeDirs, Under;
    MakeDirsKeeps(w, p);
  }

  lemma {:induction false} AllDownloadSucceeds(env: Env, w: World, vs: seq<Value>, current: string, base: string,
                                               depth: nat, names: set<string>)
    requires Answers(env) && Roomy(env, w, current, base, depth, names)
    requires NamedIn(FilesAll(vs), names) && AllDirsNamed(Besides(names), vs)
    ensures var r := DownloadAll(env, w, vs, current, base);
            && (r.Done? <==> AllOpen(env, w, vs, current))
            && (r.Done? ==> GoesOn(w, r.world, depth, names))
    decreases vs
  {
    hide Answers, Roomy, Besides, GoesOn, NamedIn;
    if vs == [] {
      RoomyGoesOn(env, w, current, base, depth, names);
    } else {
      NamedConcat(Files(vs[0]), FilesAll(vs[1..]), names);
      DownloadSucceeds(env, w, vs[0], current, base, depth, names);
      var r := Download(env, w, vs[0], current, base);
      if r.Done? {
        GoesOnLater(env, w, r.world, vs[1..], current, base, depth, names);
        AllDownloadSucceeds(env, r.world, vs[1..], current, base, depth, names);
        var r2 := DownloadAll(env, r.world, vs[1..], current, base);
        if r2.Done? { GoesOnTwice(w, r.world, r2.world, depth, names); }
      }
    }
  }

  /** The names Files are downloaded under. */
  function FileNames(fs: seq<FileData>): set<string> {
    set f | f in fs :: DownloadName(f)
  }

  /**
    * If fetches and temporary directories succeed and no Directory of the tree has the name of a File in
    * it, downloading it succeeds exactly if it is open on the disk beforehand.
    */
  lemma {:induction false} DownloadSucceedsIff(env: Env, w: World, v: Value, current: string, base: string)
    requires Answers(env) && Tidy(w) && Under(base, current)
    requires AllNamesPlain(Files(v)) && DirsNamed(Besides(FileNames(Files(v))), v)
    ensures Download(env, w, v, current, base).Done? <==> Open(env, w, v, current)
  {
    hide Answers, Tidy, Under, Plain, DownloadName, Download, Open, Besides, Locate, Files;
    var names, depth := FileNames(Files(v)), |Locate(env.cwd, current)|;
    assert NamedIn(Files(v), names);
    assert Avoids(Locate(env.cwd, current), depth, names);
    DownloadSucceeds(env, w, v, current, base, depth, names);
  }

  /** A Directory with the name of a File before it cannot be made where the file is. */
  lemma {:induction false} SharedNameFails(env: Env, w: World, f: FileData, d: DirData, listing: Listing,
                                           current: string, base: string)
    requires Answers(env) && Tidy(w) && Under(base, current) && Plain(DownloadName(f))
    requires DirName(d) == DownloadName(f) && d.location != "" && !Exists(w, Locate(env.cwd, current) + [DirName(d)])
    ensures Download(env, w, Array([File(f, []), Directory(d, listing)]), current, base).Failed?
  {
    hide Answers, Tidy, Under, Plain, DownloadName, DirName, Locate, Join, FileAbove, DownloadFile, Exists;
    var items := [File(f, []), Directory(d, listing)];
    var r, p := DownloadFile(env, w, f, current, base), Locate(env.cwd, current) + [DirName(d)];
    DownloadFileSucceedsIff(env, w, f, current, base);
    TargetPlace(env, base, current, DirName(d));
    assert items[1..] == [Directory(d, listing)];
    if r.Done? {
      assert DownloadAll(env, r.world, [], current, base) == Done([], r.world, 0);
      assert Download(env, w, items[0], current, base) == Done(File(r.value, []), r.world, r.count);
      FileAboveItself(r.world, p);
      assert Download(env, r.world, items[1], current, base) == Failed(r.world);
      assert DownloadAll(env, r.world, items[1..], current, base) == Failed(r.world);
    } else {
      assert Download(env, w, items[0], current, base).Failed?;
    }
  }
}
