/** Upload and download of any tree at all, directories on disk included. */
module DataMoverWhole {
  import opened Wrappers
  import opened GoPath
  import opened GoPathRelative
  import opened DataMover
  import opened DataMoverUpload
  import opened DataMoverDownload
  import opened DataMoverRoundTrip
  import opened DataMoverPaths
  import opened DataMoverRepeat
  import opened DataMoverDisk
  import opened DataMoverScope

  // ----- What a tree stands for -----

  function Contents(found: seq<Found>): seq<Option<Content>> {
    seq(|found|, i requires 0 <= i < |found| => Some(found[i].content))
  }

  /** The contents of all Files of a tree, those of directories on disk included, in order. */
  function Expected(env: Env, w: World, v: Value, current: string, depth: nat): seq<Option<Content>>
    decreases v
  {
    match v
    case Scalar(_) => []
    case File(f, secondary) => [Meaning(env, w, f, current)] + ExpectedAll(env, w, secondary, current, depth)
    case Array(items) => ExpectedAll(env, w, items, current, depth)
    case Record(_, fields) => ExpectedAll(env, w, fields, current, depth)
    case Directory(_, Listing(listing)) => ExpectedAll(env, w, listing, current, depth)
    case Directory(d, Unlisted) =>
      Contents(FilesBelow(env, Disk(w), OwnPlace(env.cwd, current, DirPath(env, d)), depth))
  }

  function ExpectedAll(env: Env, w: World, vs: seq<Value>, current: string, depth: nat): seq<Option<Content>>
    decreases vs
  {
    if vs == [] then []
    else Expected(env, w, vs[0], current, depth) + ExpectedAll(env, w, vs[1..], current, depth)
  }

  /** The directory on disk that a path names is where the upload looks for it, and so is all below it. */
  ghost predicate Locates(cwd: Place, current: string, path: string) {
    path != "" && Reaches(cwd, current, path) && Locate(cwd, Join(current, path)) == OwnPlace(cwd, current, path)
  }

  /** Names that can be used on disk, and directories on disk that are found. */
  ghost predicate Named(env: Env, v: Value, current: string)
    decreases v
  {
    match v
    case Scalar(_) => true
    case File(f, secondary) => Usable(current, f) && AllNamed(env, secondary, current)
    case Array(items) => AllNamed(env, items, current)
    case Record(_, fields) => AllNamed(env, fields, current)
    case Directory(d, Listing(listing)) => PlainDir(d) && AllNamed(env, listing, current)
    case Directory(d, Unlisted) => PlainDir(d.(path := DirPath(env, d))) && Locates(env.cwd, current, DirPath(env, d))
  }

  ghost predicate AllNamed(env: Env, vs: seq<Value>, current: string)
    decreases vs
  {
    vs == [] || (Named(env, vs[0], current) && AllNamed(env, vs[1..], current))
  }

  // ----- What an uploaded tree has -----

  /** The web has the contents that are expected of the Files. */
  ghost predicate Covers(web: Web, fs: seq<FileData>, expected: seq<Option<Content>>) {
    |fs| == |expected| && forall i :: 0 <= i < |fs| && expected[i].Some? ==> Lookup(web, fs[i].location) == expected[i]
  }

  ghost predicate Arrives(w: World, w': World, vs: seq<Value>, expected: seq<Option<Content>>) {
    && Posted(w, w') && Covers(w'.web, FilesAll(vs), expected)
    && AllNamesPlain(FilesAll(vs)) && AllDirsNamed(PlainDir, vs)
  }

  /** Some contents may become known later, none may change. */
  ghost predicate AtLeast(a: seq<Option<Content>>, b: seq<Option<Content>>) {
    |a| == |b| && forall i :: 0 <= i < |a| && a[i].Some? ==> b[i] == a[i]
  }

  lemma AtLeastConcat(a: seq<Option<Content>>, b: seq<Option<Content>>, x: seq<Option<Content>>,
                      y: seq<Option<Content>>)
    requires AtLeast(a, b) && AtLeast(x, y)
    ensures AtLeast(a + x, b + y)
  {}

  lemma MeaningLater(env: Env, w: World, w': World, f: FileData, current: string)
    requires Posted(w, w')
    ensures AtLeast([Meaning(env, w, f, current)], [Meaning(env, w', f, current)])
  {
    hide SourceOf, Locate, FullPath;
  }

  lemma {:induction false} ExpectedLater(env: Env, w: World, w': World, v: Value, current: string, depth: nat)
    requires Posted(w, w')
    ensures AtLeast(Expected(env, w, v, current, depth), Expected(env, w', v, current, depth))
    decreases v
  {
    assert Disk(w') == Disk(w);
    hide Meaning, Posted, FilesBelow, Split, Disk;
    match v
    case Scalar(_) =>
    case File(f, secondary) =>
      MeaningLater(env, w, w', f, current);
      AllExpectedLater(env, w, w', secondary, current, depth);
      AtLeastConcat([Meaning(env, w, f, current)], [Meaning(env, w', f, current)],
                    ExpectedAll(env, w, secondary, current, depth), ExpectedAll(env, w', secondary, current, depth));
    case Array(items) => AllExpectedLater(env, w, w', items, current, depth);
    case Record(_, fields) => AllExpectedLater(env, w, w', fields, current, depth);
    case Directory(_, Listing(listing)) => AllExpectedLater(env, w, w', listing, current, depth);
    case Directory(d, Unlisted) =>
  }

  lemma {:induction false} AllExpectedLater(env: Env, w: World, w': World, vs: seq<Value>, current: string, depth: nat)
    requires Posted(w, w')
    ensures AtLeast(ExpectedAll(env, w, vs, current, depth), ExpectedAll(env, w', vs, current, depth))
    decreases vs
  {
    hide Posted;
    if vs != [] {
      ExpectedLater(env, w, w', vs[0], current, depth);
      AllExpectedLater(env, w, w', vs[1..], current, depth);
      AtLeastConcat(Expected(env, w, vs[0], current, depth), Expected(env, w', vs[0], current, depth),
                    ExpectedAll(env, w, vs[1..], current, depth), ExpectedAll(env, w', vs[1..], current, depth));
    }
  }

  lemma CoversConcat(web: Web, web': Web, a: seq<FileData>, x: seq<Option<Content>>, b: seq<FileData>,
                     y: seq<Option<Content>>, z: seq<Option<Content>>)
    requires Covers(web, a, x) && Grows(web, web') && Covers(web', b, y) && AtLeast(z, y)
    ensures Covers(web', a + b, x + z)
  {}

  lemma NamesJoin(a: seq<FileData>, b: seq<FileData>)
    requires AllNamesPlain(a) && AllNamesPlain(b)
    ensures AllNamesPlain(a + b)
  {
    hide Plain, DownloadName;
  }

  // One tree after another.
  lemma {:induction false} ArrivesAfter(w: World, w1: World, v: Value, x: seq<Option<Content>>,
                                        w2: World, vs: seq<Value>, y: seq<Option<Content>>, z: seq<Option<Content>>)
    requires Arrives(w, w1, [v], x) && Arrives(w1, w2, vs, y) && AtLeast(z, y)
    ensures Arrives(w, w2, [v] + vs, x + z)
  {
    hide Files, FilesAll, DirsNamed, AllDirsNamed, Covers, AllNamesPlain, AtLeast;
    PostedTwice(w, w1, w2);
    ConsAll(v, vs);
    CoversConcat(w1.web, w2.web, Files(v), x, FilesAll(vs), y, z);
    NamesJoin(Files(v), FilesAll(vs));
  }

  lemma ArrivesNone(w: World)
    ensures Arrives(w, w, [], [])
  {
    PostedSelf(w);
  }

  // A container has the Files and directories of its items.
  lemma {:induction false} ArrivesIn(w: World, w': World, v: Value, items: seq<Value>, x: seq<Option<Content>>)
    requires Arrives(w, w', items, x) && Files(v) == FilesAll(items)
    requires DirsNamed(PlainDir, v) <==> AllDirsNamed(PlainDir, items)
    ensures Arrives(w, w', [v], x)
  {
    hide Files, FilesAll, DirsNamed, AllDirsNamed, Covers, AllNamesPlain, Posted;
    ConsAll(v, []);
  }

  // ----- Directories on disk -----

  ghost predicate FoundPlain(found: seq<Found>) {
    forall i :: 0 <= i < |found| ==> found[i].place != [] && Plain(found[i].place[|found[i].place| - 1])
  }

  lemma {:induction false} BelowPlain(env: Env, w: World, place: Place, depth: nat)
    requires ListsPlain(env, w) && place in w.dirs
    ensures FoundPlain(FilesBelow(env, w, place, depth))
    decreases depth, 1, 0
  {
    if depth > 0 {
      assert AllPlain(env.children(w.files, w.dirs, place));
      AmongPlain(env, w, place, env.children(w.files, w.dirs, place), depth);
    }
  }

  lemma {:induction false} AmongPlain(env: Env, w: World, place: Place, names: seq<string>, depth: nat)
    requires ListsPlain(env, w) && AllPlain(names) && depth > 0
    ensures FoundPlain(FilesAmong(env, w, place, names, depth))
    decreases depth, 0, |names|
  {
    hide Plain, HasSuffix, ListsPlain;
    if names != [] {
      AmongPlain(env, w, place, names[1..], depth);
      var at := place + [names[0]];
      if at in w.dirs { BelowPlain(env, w, at, depth - 1); }
    }
  }

  lemma MatchCovers(web: Web, fs: seq<FileData>, found: seq<Found>)
    requires Match(web, fs, found) && FoundPlain(found)
    ensures Covers(web, fs, Contents(found)) && AllNamesPlain(fs)
  {}

  lemma {:induction false} FolderArrives(env: Env, w: World, d: DirData, current: string, depth: nat)
    requires ShockServes(env) && ListsPlain(env, w) && Named(env, Directory(d, Unlisted), current)
    ensures var v := Directory(d, Unlisted);
            var r := Upload(env, w, v, current, depth);
            r.Done? ==> Arrives(w, r.world, [r.value], Expected(env, w, v, current, depth))
  {
    var path := DirPath(env, d);
    var place := Locate(env.cwd, Join(current, path));
    assert Disk(w).files == w.files && Disk(w).dirs == w.dirs;
    SameLists(env, w, Disk(w));
    var r := UploadDirectory(env, w, path, current, depth);
    if r.Done? {
      assert place in w.dirs;
      hide UploadDirectory, FilesBelow, ShockServes, ListsPlain, PlainDir, Posted, Match, Join, Locate, Reaches,
           DirPath, OwnPlace, Disk;
      DirectoryShown(env, w, path, current, depth);
      BelowPlain(env, Disk(w), place, depth);
      MatchCovers(r.world.web, ListingFiles(r.value), FilesBelow(env, Disk(w), place, depth));
      ConsAll(Directory(d.(path := path), r.value), []);
    }
  }

  // ----- Every tree -----

  lemma {:induction false} FileArrives(env: Env, w: World, f: FileData, current: string)
    requires ShockServes(env) && NoQuery(env.host) && Usable(current, f)
    ensures var r := UploadFile(env, w, f, current);
            r.Done? ==> Arrives(w, r.world, [File(r.value, [])], [Meaning(env, w, f, current)])
  {
    UploadFileCarries(env, w, f, current);
    var r := UploadFile(env, w, f, current);
    if r.Done? {
      UsableCarried(env, w, f, r.world, r.value, current);
      ConsAll(File(r.value, []), []);
      hide UploadFile, Meaning, NodeUrl, Plain, SourceOf, UploadName, Usable, NoQuery, ShockServes, Posted,
           DownloadName;
      assert Files(File(r.value, [])) == [r.value];
    }
  }

  lemma {:induction false} WithSecondary(w: World, w': World, f: FileData, secondary: seq<Value>,
                                         x: seq<Option<Content>>)
    requires Arrives(w, w', [File(f, [])] + secondary, x)
    ensures Arrives(w, w', [File(f, secondary)], x)
  {
    ConsAll(File(f, []), secondary);
    assert Files(File(f, [])) == [f] && DirsNamed(PlainDir, File(f, []));
    hide Arrives;
    ArrivesIn(w, w', File(f, secondary), [File(f, [])] + secondary, x);
  }

  /** Uploading any tree brings all its contents to the web, under names that can be downloaded. */
  lemma {:induction false} UploadArrives(env: Env, w: World, v: Value, current: string, depth: nat)
    requires ShockServes(env) && NoQuery(env.host) && ListsPlain(env, w) && Named(env, v, current)
    ensures var r := Upload(env, w, v, current, depth);
            r.Done? ==> Arrives(w, r.world, [r.value], Expected(env, w, v, current, depth))
    decreases v
  {
    hide Arrives, ShockServes, NoQuery, ListsPlain, Usable, Meaning, UploadFile, AtLeast;
    match v
    case Scalar(_) =>
      ArrivesNone(w);
      ArrivesIn(w, w, v, [], []);
    case File(f, secondary) =>
      FileArrives(env, w, f, current);
      var r := UploadFile(env, w, f, current);
      if r.Done? {
        ArrivedLists(env, w, r.world, [File(r.value, [])], [Meaning(env, w, f, current)]);
        AllUploadArrives(env, r.world, secondary, current, depth);
        var r2 := UploadAll(env, r.world, secondary, current, depth);
        if r2.Done? {
          ArrivedPosted(w, r.world, [File(r.value, [])], [Meaning(env, w, f, current)]);
          AllExpectedLater(env, w, r.world, secondary, current, depth);
          ArrivesAfter(w, r.world, File(r.value, []), [Meaning(env, w, f, current)], r2.world, r2.value,
                       ExpectedAll(env, r.world, secondary, current, depth),
                       ExpectedAll(env, w, secondary, current, depth));
          WithSecondary(w, r2.world, r.value, r2.value,
                        [Meaning(env, w, f, current)] + ExpectedAll(env, w, secondary, current, depth));
        }
      }
    case Array(items) =>
      AllUploadArrives(env, w, items, current, depth);
      var r := UploadAll(env, w, items, current, depth);
      if r.Done? {
        var v' := Upload(env, w, v, current, depth).value;
        ArrivesIn(w, r.world, v', r.value, ExpectedAll(env, w, items, current, depth));
      }
    case Record(_, fields) =>
      AllUploadArrives(env, w, fields, current, depth);
      var r := UploadAll(env, w, fields, current, depth);
      if r.Done? {
        var v' := Upload(env, w, v, current, depth).value;
        ArrivesIn(w, r.world, v', r.value, ExpectedAll(env, w, fields, current, depth));
      }
    case Directory(_, Listing(listing)) =>
      AllUploadArrives(env, w, listing, current, depth);
      var r := UploadAll(env, w, listing, current, depth);
      if r.Done? {
        var v' := Upload(env, w, v, current, depth).value;
        ArrivesIn(w, r.world, v', r.value, ExpectedAll(env, w, listing, current, depth));
      }
    case Directory(d, Unlisted) => FolderArrives(env, w, d, current, depth);
  }

  lemma {:induction false} AllUploadArrives(env: Env, w: World, vs: seq<Value>, current: string, depth: nat)
    requires ShockServes(env) && NoQuery(env.host) && ListsPlain(env, w) && AllNamed(env, vs, current)
    ensures var r := UploadAll(env, w, vs, current, depth);
            r.Done? ==> Arrives(w, r.world, r.value, ExpectedAll(env, w, vs, current, depth))
    decreases vs
  {
    hide Arrives, ShockServes, NoQuery, ListsPlain, AtLeast;
    if vs == [] {
      ArrivesNone(w);
    } else {
      UploadArrives(env, w, vs[0], current, depth);
      var r := Upload(env, w, vs[0], current, depth);
      if r.Done? {
        ArrivedLists(env, w, r.world, [r.value], Expected(env, w, vs[0], current, depth));
        AllUploadArrives(env, r.world, vs[1..], current, depth);
        var r2 := UploadAll(env, r.world, vs[1..], current, depth);
        if r2.Done? {
          var x := Expected(env, w, vs[0], current, depth);
          ArrivedPosted(w, r.world, [r.value], x);
          AllExpectedLater(env, w, r.world, vs[1..], current, depth);
          ArrivesAfter(w, r.world, r.value, x, r2.world, r2.value,
                       ExpectedAll(env, r.world, vs[1..], current, depth),
                       ExpectedAll(env, w, vs[1..], current, depth));
        }
      }
    }
  }

  lemma ArrivedLists(env: Env, w: World, w': World, vs: seq<Value>, x: seq<Option<Content>>)
    requires Arrives(w, w', vs, x) && ListsPlain(env, w)
    ensures ListsPlain(env, w')
  {
    SameLists(env, w, w');
  }

  lemma ArrivedPosted(w: World, w': World, vs: seq<Value>, x: seq<Option<Content>>)
    requires Arrives(w, w', vs, x)
    ensures Posted(w, w')
  {}

  /** Every File of the downloaded tree has, at its new path, the content expected of it. */
  ghost predicate Brought(env: Env, w: World, fs: seq<FileData>, expected: seq<Option<Content>>, base: string) {
    && |fs| == |expected|
    && forall i :: 0 <= i < |fs| && expected[i].Some? ==> Lookup(w.files, Landing(env, base, fs[i])) == expected[i]
  }

  lemma CoveredLands(env: Env, web: Web, w: World, fs: seq<FileData>, w': World, fs': seq<FileData>, base: string,
                     expected: seq<Option<Content>>)
    requires Covers(web, fs, expected) && Grows(web, w.web) && Landed(env, w, fs, w', fs', base)
    ensures Brought(env, w', fs', expected, base)
  {
    hide Landing;
  }

  /**
    * Any tree, directories on disk included, uploaded from one disk and downloaded to another (or the
    * same) at any later time: every File has at its new path the content it had, every file of an uploaded
    * directory among them.
    */
  lemma {:induction false} UploadThenDownloadAny(env: Env, w: World, v: Value, current: string, depth: nat,
                                                 env': Env, w2: World, into: string, base: string)
    requires ShockServes(env) && NoQuery(env.host) && ListsPlain(env, w) && Named(env, v, current)
    requires TempNamesFree(env') && Tidy(w2) && Under(base, into)
    requires var up := Upload(env, w, v, current, depth);
             up.Done? && Grows(up.world.web, w2.web) && Download(env', w2, up.value, into, base).Done?
    ensures var up := Upload(env, w, v, current, depth);
            var down := Download(env', w2, up.value, into, base);
            Brought(env', down.world, Files(down.value), Expected(env, w, v, current, depth), base)
  {
    hide Upload, Download, Files, FilesAll, DirsNamed, AllDirsNamed, Expected, ShockServes, NoQuery, ListsPlain, Named,
         TempNamesFree, Tidy, Under, Grows, Covers, Landed, Brought, Posted, Kept, AllNamesPlain;
    var up := Upload(env, w, v, current, depth);
    UploadArrives(env, w, v, current, depth);
    ConsAll(up.value, []);
    DownloadLands(env', w2, up.value, into, base);
    var down := Download(env', w2, up.value, into, base);
    CoveredLands(env', up.world.web, w2, Files(up.value), down.world, Files(down.value), base,
                 Expected(env, w, v, current, depth));
  }

  // ----- Directories on disk, all of them -----

  /**
    * For a plain path, found means: absolute under no current path or one at the root, or relative
    * under some current path.
    */
  lemma {:induction false} LocatesIff(cwd: Place, current: string, path: string)
    requires Neat(current) && PlainPath(path)
    ensures Locates(cwd, current, path) <==>
            if Rooted(path) then current == "" || Locate(cwd, current) == [] else current != "" || cwd == []
    ensures Locates(cwd, current, path) <==> Works(cwd, current, path)
  {
    PlainJoined(cwd, current, path);
    ParseRooted(path);
    WorksIff(cwd, current, path);
    var p := Parse(path).parts;
    NoMore(Locate(cwd, current), p);
    hide Join, Parse, Neat, Locate, Reduce, Works, Split;
    assert [] + p == p;
  }

  lemma ScopeOnDisk(w: World, place: Place, found: seq<Found>)
    requires AllFound(Disk(w), place, found)
    ensures AllFound(w, place, found)
  {
    hide Has, NoRepeat;
    assert forall q :: InScope(Disk(w), place, q) <==> InScope(w, place, q);
  }

  /**
    * A directory on disk, uploaded and downloaded: its Files are exactly the files that lie below it on the
    * disk under no checksum name, each once, and each has its content at its new path.
    */
  lemma {:induction false} DirectoryThereAndBack(env: Env, w: World, d: DirData, current: string, depth: nat,
                                                 env': Env, w2: World, into: string, base: string)
    returns (found: seq<Found>)
    requires ShockServes(env) && NoQuery(env.host) && Named(env, Directory(d, Unlisted), current)
    requires Tidy(w) && Lists(env, w) && PlainDisk(w) && Deep(w, OwnPlace(env.cwd, current, DirPath(env, d)), depth)
    requires TempNamesFree(env') && Tidy(w2) && Under(base, into)
    requires var up := Upload(env, w, Directory(d, Unlisted), current, depth);
             up.Done? && Grows(up.world.web, w2.web) && Download(env', w2, up.value, into, base).Done?
    ensures AllFound(w, OwnPlace(env.cwd, current, DirPath(env, d)), found)
    ensures var up := Upload(env, w, Directory(d, Unlisted), current, depth);
            var down := Download(env', w2, up.value, into, base);
            Brought(env', down.world, Files(down.value), Contents(found), base)
  {
    hide *;
    PlaceIsDir(env, w, d, current, depth);
    found := FoundOnDisk(env, w, d, current, depth);
    UploadThenDownloadAny(env, w, Directory(d, Unlisted), current, depth, env', w2, into, base);
  }

  lemma PlaceIsDir(env: Env, w: World, d: DirData, current: string, depth: nat)
    requires Named(env, Directory(d, Unlisted), current) && Upload(env, w, Directory(d, Unlisted), current, depth).Done?
    ensures OwnPlace(env.cwd, current, DirPath(env, d)) in w.dirs
  {
    hide Locate, Join, Reaches, DirPath, OwnPlace, UploadEntries;
  }

  lemma {:induction false} FoundOnDisk(env: Env, w: World, d: DirData, current: string, depth: nat)
    returns (found: seq<Found>)
    requires Tidy(w) && Lists(env, w) && PlainDisk(w) && Deep(w, OwnPlace(env.cwd, current, DirPath(env, d)), depth)
    requires OwnPlace(env.cwd, current, DirPath(env, d)) in w.dirs
    ensures ListsPlain(env, w) && AllFound(w, OwnPlace(env.cwd, current, DirPath(env, d)), found)
    ensures Expected(env, w, Directory(d, Unlisted), current, depth) == Contents(found)
  {
    hide ListsPlain, Lists, PlainDisk, Tidy, FilesBelow, AllFound, OwnPlace, DirPath, Contents, Deep, Disk;
    var place := OwnPlace(env.cwd, current, DirPath(env, d));
    found := FilesBelow(env, Disk(w), place, depth);
    PlainDiskListsPlain(env, w);
    DiskIsSame(env, w);
    SameDeep(w, Disk(w), place, depth);
    BelowIsAll(env, Disk(w), place, depth);
    ScopeOnDisk(w, place, found);
  }

  // ----- Depth -----

  /** With a depth beyond the longest path of a directory, more depth makes no difference to any tree. */
  lemma {:induction false} UploadDepthIsEnough(env: Env, w: World, v: Value, current: string, depth: nat, more: nat)
    requires ListsPlain(env, w) && Named(env, v, current) && Deep(w, [], depth) && depth <= more
    ensures Upload(env, w, v, current, more) == Upload(env, w, v, current, depth)
    decreases v
  {
    hide ListsPlain, UploadFile, UploadDirectory, Usable, PlainDir, Deep, Locates, DirPath;
    match v
    case Scalar(_) =>
    case File(f, secondary) =>
      var r := UploadFile(env, w, f, current);
      FileKeepsDisk(env, w, f, current);
      StillDeep(env, w, r.world, depth);
      AllDepthIsEnough(env, r.world, secondary, current, depth, more);
    case Array(items) => AllDepthIsEnough(env, w, items, current, depth, more);
    case Record(_, fields) => AllDepthIsEnough(env, w, fields, current, depth, more);
    case Directory(_, Listing(listing)) => AllDepthIsEnough(env, w, listing, current, depth, more);
    case Directory(d, Unlisted) => FolderDepth(env, w, DirPath(env, d), current, depth, more);
  }

  lemma FolderDepth(env: Env, w: World, path: string, current: string, depth: nat, more: nat)
    requires ListsPlain(env, w) && Locates(env.cwd, current, path) && Deep(w, [], depth) && depth <= more
    ensures UploadDirectory(env, w, path, current, more) == UploadDirectory(env, w, path, current, depth)
  {
    hide UploadDirectory, ListsPlain, Join, Locate, Reaches, OwnPlace;
    assert Deep(w, Locate(env.cwd, Join(current, path)), depth);
    DepthIsEnough(env, w, path, current, depth, more);
  }

  lemma StillDeep(env: Env, w: World, w': World, depth: nat)
    requires ListsPlain(env, w) && Deep(w, [], depth) && Disk(w') == Disk(w)
    ensures ListsPlain(env, w') && Deep(w', [], depth)
  {
    assert Disk(w).files == w.files && Disk(w).dirs == w.dirs && Disk(w').files == w'.files && Disk(w').dirs == w'.dirs;
    SameLists(env, w, w');
  }

  lemma {:induction false} AllDepthIsEnough(env: Env, w: World, vs: seq<Value>, current: string, depth: nat, more: nat)
    requires ListsPlain(env, w) && AllNamed(env, vs, current) && Deep(w, [], depth) && depth <= more
    ensures UploadAll(env, w, vs, current, more) == UploadAll(env, w, vs, current, depth)
    decreases vs
  {
    hide ListsPlain, Deep;
    if vs != [] {
      UploadDepthIsEnough(env, w, vs[0], current, depth, more);
      var r := Upload(env, w, vs[0], current, depth);
      if r.Done? {
        ListedIffPopulated(env, w, vs[0], current, depth);
        StillDeep(env, w, r.world, depth);
        AllDepthIsEnough(env, r.world, vs[1..], current, depth, more);
      }
    }
  }

  // ----- Paths that lead elsewhere -----

  /** With no current path: `cwd` holds `d`, which lists only the file `f`. */
  ghost predicate HoldsFile(env: Env, w: World, d: string, f: string) {
    && env.cwd != [] && Plain(d) && Plain(f) && !HasSuffix(f, ".md5")
    && env.cwd + [d] in w.dirs && env.children(w.files, w.dirs, env.cwd + [d]) == [f]
    && env.cwd + [d, f] in w.files && env.cwd + [d, f] !in w.dirs
  }

  // The directory is found, and its file looked for at the root.
  lemma {:induction false} LookedForAtRoot(env: Env, w: World, d: string, f: string, depth: nat)
    requires HoldsFile(env, w, d, f) && depth > 0
    ensures var entry := Join(Join("", d), f);
            && TrimPrefix(entry, "file://") == entry != "" && !Rooted(entry) && Base(entry) == f
            && Locate(env.cwd, Join("/", entry)) == [d, f]
            && UploadEntry(env, w, entry, "/", depth) ==
               var r := UploadFile(env, w, FileData("", "", entry, Base(entry), ""), "/");
               if r.Failed? then Failed(r.world)
               else Done(File(r.value.(path := "", basename := f), []), r.world, r.count)
  {
    PlaceOfName(env.cwd, d);
    EntryIsBelow(env.cwd, "", d, f);
    OtherResolves(env.cwd, "", d, f);
    LocateRoot(env.cwd);
    ReducePlain(true, [], d);
    NoScheme([d, f]);
    BaseOfRender(false, [d], f);
    var entry := EntryAt("", d, f);
    assert entry == Render(Path(false, [d, f])) && [d] + [f] == [d, f];
    assert TrimPrefix(entry, "/") == entry;
    hide Locate, Join, Parse, Render, Slashed, Split, Reduce, Normal, Plain, HasSuffix, TrimPrefix, UploadFile, Base;
    assert env.cwd + [d] + [f] == env.cwd + [d, f] && [] + [d] + [f] == [d, f];
    EntryIs(env, w, entry, "/", depth, env.cwd + [d, f], entry, f);
  }

  // What the one entry gives is what the directory gives.
  lemma {:induction false} FolderOfOne(env: Env, w: World, d: string, f: string, depth: nat)
    requires HoldsFile(env, w, d, f) && depth > 0
    ensures var r := UploadEntry(env, w, Join(Join("", d), f), "/", depth);
            UploadDirectory(env, w, d, "", depth) ==
            if r.Failed? then Failed(r.world) else Done(Listing([r.value]), r.world, r.count)
  {
    PlaceOfName(env.cwd, d);
    LocateRoot(env.cwd);
    hide Locate, Join, Plain, HasSuffix, UploadEntry, UploadDirectory, WithSlash;
    OneListed(env, w, d, "", env.cwd + [d], f, depth);
  }

  lemma {:induction false} PlaceOfName(cwd: Place, name: string)
    requires Plain(name)
    ensures Parse(Join("", name)) == Path(false, [name]) && Locate(cwd, Join("", name)) == cwd + [name]
  {
    ParseEmpty();
    ParseJoin("", name);
    hide Join, Locate, Parse, Reduce;
    LocateIs(cwd, Join("", name));
    ReducePlain(true, cwd, name);
  }

  /** A relative path under the empty current path fails if there is no such file at the root. */
  lemma {:induction false} EmptyCurrentFails(env: Env, w: World, d: string, f: string, depth: nat)
    requires HoldsFile(env, w, d, f) && depth > 0 && [d, f] !in w.files
    ensures UploadDirectory(env, w, d, "", depth) == Failed(w)
  {
    hide HoldsFile, Locate, Join, Base, TrimPrefix, UploadEntry;
    LookedForAtRoot(env, w, d, f, depth);
    FolderOfOne(env, w, d, f, depth);
    LooksAtRoot(env, w, Join(Join("", d), f), [d, f]);
  }

  /** If there is one, it succeeds, with the content of that file instead of the directory's own. */
  lemma {:induction false} EmptyCurrentTakesOther(env: Env, w: World, d: string, f: string, depth: nat)
    requires ShockServes(env) && HoldsFile(env, w, d, f) && depth > 0
    requires [d, f] in w.files && [d, f] !in w.dirs && env.post(w, w.files[[d, f]]).Some?
    ensures var r := UploadDirectory(env, w, d, "", depth);
            && r.Done? && |ListingFiles(r.value)| == 1 && ListingFiles(r.value)[0].basename == f
            && Lookup(r.world.web, ListingFiles(r.value)[0].location) == Some(w.files[[d, f]])
  {
    var entry := Join(Join("", d), f);
    var file := FileData("", "", entry, Base(entry), "");
    hide HoldsFile, Locate, Join, Base, TrimPrefix, UploadEntry, UploadDirectory, ShockServes;
    LookedForAtRoot(env, w, d, f, depth);
    FolderOfOne(env, w, d, f, depth);
    assert SourceOf(file) == Local(entry) && FullPath("/", entry) == Join("/", entry);
    UploadFileCarries(env, w, file, "/");
    assert UploadFile(env, w, file, "/").Done?;
    hide UploadFile, SourceOf, FullPath;
    var v := UploadEntry(env, w, entry, "/", depth).value;
    ConsAll(v, []);
    assert Files(v) == [v.file];
  }

  lemma LooksAtRoot(env: Env, w: World, relative: string, place: Place)
    requires TrimPrefix(relative, "file://") == relative != "" && !Rooted(relative)
    requires Locate(env.cwd, Join("/", relative)) == place && place !in w.files
    ensures UploadFile(env, w, FileData("", "", relative, Base(relative), ""), "/") == Failed(w)
  {
    hide Locate, Join, Base;
  }

  /** An absolute path under a current path is looked for below that path, and not found. */
  lemma {:induction false} AbsolutePathFails(env: Env, w: World, path: string, current: string, depth: nat)
    requires Neat(current) && PlainPath(path) && Rooted(path) && current != ""
    requires Locate(env.cwd, current) + Locate(env.cwd, path) !in w.dirs
    ensures UploadDirectory(env, w, path, current, depth) == Failed(w)
  {
    PlainJoined(env.cwd, current, path);
    hide Parse, Locate, Join, Split, Reduce;
  }
}
