/** When uploads succeed, once the store answers. */
module DataMoverSuccess {
  import opened Wrappers
  import opened GoPath
  import opened GoPathRelative
  import opened DataMover
  import opened DataMoverPaths
  import opened DataMoverDownload
  import opened DataMoverRepeat
  import opened DataMoverDisk
  import opened DataMoverScope

  // ----- Uploading -----

  ghost predicate PostsSucceed(env: Env) {
    forall w: World, c: Content :: env.post(w, c).Some?
  }

  /** The File is a literal, or remote, or a file on disk. */
  ghost predicate Ready(env: Env, w: World, f: FileData, current: string) {
    && !("file:" <= current)
    && match SourceOf(f)
       case Unknown => false
       case Local(path) =>
         var place := Locate(env.cwd, FullPath(current, path));
         place in w.files && place !in w.dirs
       case _ => true
  }

  lemma FileSucceedsIff(env: Env, w: World, f: FileData, current: string)
    requires PostsSucceed(env)
    ensures UploadFile(env, w, f, current).Done? <==> Ready(env, w, f, current)
  {
    hide SourceOf, Locate, FullPath, UploadName, NodeUrl;
  }

  /** Directories without a listing have a path that leads to them. */
  ghost predicate Reached(env: Env, v: Value, current: string)
    decreases v
  {
    match v
    case Scalar(_) => true
    case File(_, secondary) => AllReached(env, secondary, current)
    case Array(items) => AllReached(env, items, current)
    case Record(_, fields) => AllReached(env, fields, current)
    case Directory(_, Listing(listing)) => AllReached(env, listing, current)
    case Directory(d, Unlisted) => Reaches(env.cwd, current, DirPath(env, d))
  }

  ghost predicate AllReached(env: Env, vs: seq<Value>, current: string)
    decreases vs
  {
    vs == [] || (Reached(env, vs[0], current) && AllReached(env, vs[1..], current))
  }

  /** Every File is there to be uploaded, and every directory without a listing is on the disk. */
  ghost predicate AllThere(env: Env, w: World, v: Value, current: string)
    decreases v
  {
    match v
    case Scalar(_) => true
    case File(f, secondary) => Ready(env, w, f, current) && EachThere(env, w, secondary, current)
    case Array(items) => EachThere(env, w, items, current)
    case Record(_, fields) => EachThere(env, w, fields, current)
    case Directory(_, Listing(listing)) => EachThere(env, w, listing, current)
    case Directory(d, Unlisted) => DirPath(env, d) != "" && Locate(env.cwd, Join(current, DirPath(env, d))) in w.dirs
  }

  ghost predicate EachThere(env: Env, w: World, vs: seq<Value>, current: string)
    decreases vs
  {
    vs == [] || (AllThere(env, w, vs[0], current) && EachThere(env, w, vs[1..], current))
  }

  /** What the disk must be for directories to be walked. */
  ghost predicate Walks(env: Env, w: World, depth: nat) {
    PostsSucceed(env) && Tidy(w) && Lists(env, w) && ListsPlain(env, w) && Deep(w, [], depth)
  }

  lemma WalksOn(env: Env, w: World, w': World, depth: nat)
    requires Walks(env, w, depth) && Disk(w') == Disk(w)
    ensures Walks(env, w', depth) && w'.files == w.files && w'.dirs == w.dirs
  {
    assert Disk(w).files == w.files && Disk(w).dirs == w.dirs && Disk(w').files == w'.files && Disk(w').dirs == w'.dirs;
    hide Disk;
  }

  // ----- Directories on disk -----

  lemma {:induction false} EntrySucceeds(env: Env, w: World, current: string, path: string, name: string, depth: nat,
                                         top: nat)
    requires Walks(env, w, top) && Reaches(env.cwd, current, path) && Plain(name) && !("file:" <= current) && depth > 0
    requires Exists(w, Locate(env.cwd, Join(current, path)) + [name])
    requires Deep(w, Locate(env.cwd, Join(current, path)), depth)
    ensures UploadEntry(env, w, Join(Join(current, path), name), WithSlash(current), depth).Done?
    decreases depth, 0, 0
  {
    FilePrefix(current);
    assert WithSlash(current) == TrimSuffix(current, "/") + "/";
    var place := Locate(env.cwd, Join(current, path)) + [name];
    var s, relative := WithSlash(current), RelativeAt(current, path, name);
    hide Walks, Join, Locate, Reaches, Plain, UploadEntry, UploadDirectory, UploadFile, WithSlash, RelativeAt, Deep,
         TrimSuffix, Base;
    EntryParts(env, w, current, path, name, depth);
    if place in w.dirs {
      DeepNext(w, Locate(env.cwd, Join(current, path)), name, depth);
      DirectorySucceeds(env, w, relative, s, depth - 1, top);
    } else {
      FoundIsReady(env, w, current, path, name, top);
      PostsFrom(env, w, top);
      FileSucceedsIff(env, w, FileData("", "", relative, Base(relative), ""), s);
    }
  }

  lemma PostsFrom(env: Env, w: World, depth: nat)
    requires Walks(env, w, depth)
    ensures PostsSucceed(env)
  {}

  lemma {:induction false} FoundIsReady(env: Env, w: World, current: string, path: string, name: string, top: nat)
    requires Reaches(env.cwd, current, path) && Plain(name) && !("file:" <= WithSlash(current))
    requires var p := Locate(env.cwd, Join(current, path)) + [name]; p in w.files && p !in w.dirs
    ensures var relative := RelativeAt(current, path, name);
            Ready(env, w, FileData("", "", relative, Base(relative), ""), WithSlash(current))
  {
    hide Join, Locate, Reaches, Plain, WithSlash, RelativeAt, EntryAt, Base, TrimPrefix;
    ReachesNext(env.cwd, current, path, name);
    var relative := RelativeAt(current, path, name);
    assert SourceOf(FileData("", "", relative, Base(relative), "")) == Local(relative);
  }

  lemma {:induction false} EntriesSucceed(env: Env, w: World, names: seq<string>, current: string, path: string,
                                          depth: nat, top: nat)
    requires Walks(env, w, top) && Reaches(env.cwd, current, path) && AllPlain(names) && !("file:" <= current)
    requires depth > 0
    requires forall n :: n in names ==> Exists(w, Locate(env.cwd, Join(current, path)) + [n])
    requires Deep(w, Locate(env.cwd, Join(current, path)), depth)
    ensures UploadEntries(env, w, names, Join(current, path), WithSlash(current), depth).Done?
    decreases depth, 0, |names|
  {
    hide Walks, Join, Locate, Reaches, Plain, UploadEntry, WithSlash, Deep, HasSuffix, Disk;
    if names != [] {
      if HasSuffix(names[0], ".md5") {
        EntriesSucceed(env, w, names[1..], current, path, depth, top);
      } else {
        assert names[0] in names;
        EntrySucceeds(env, w, current, path, names[0], depth, top);
        var entry := Join(Join(current, path), names[0]);
        EntryListedIffPopulated(env, w, entry, WithSlash(current), depth);
        var w1 := UploadEntry(env, w, entry, WithSlash(current), depth).world;
        WalksOn(env, w, w1, top);
        SameDeep(w, w1, Locate(env.cwd, Join(current, path)), depth);
        EntriesSucceed(env, w1, names[1..], current, path, depth, top);
      }
    }
  }

  /** A directory that is on the disk is uploaded with all that is below it. */
  lemma {:induction false} DirectorySucceeds(env: Env, w: World, path: string, current: string, depth: nat, top: nat)
    requires Walks(env, w, top) && Reaches(env.cwd, current, path) && !("file:" <= current)
    requires Deep(w, Locate(env.cwd, Join(current, path)), depth)
    ensures UploadDirectory(env, w, path, current, depth).Done? <==> Locate(env.cwd, Join(current, path)) in w.dirs
    decreases depth, 1, 0
  {
    var place := Locate(env.cwd, Join(current, path));
    if place in w.dirs {
      var names := env.children(w.files, w.dirs, place);
      assert AllPlain(names) && depth > 0 && forall n :: n in names ==> Exists(w, place + [n]);
      EntriesSucceed(env, w, names, current, path, depth, top);
    }
    hide Walks, Join, Locate, Reaches, UploadEntries, Deep;
  }

  // ----- Trees -----

  /**
    * If posts succeed, uploading a tree succeeds exactly if every File in it is a literal, remote or on the
    * disk, and every directory without a listing is on the disk.
    */
  lemma {:induction false} UploadSucceedsIff(env: Env, w: World, v: Value, current: string, depth: nat)
    requires Walks(env, w, depth) && Reached(env, v, current) && !("file:" <= current)
    ensures Upload(env, w, v, current, depth).Done? <==> AllThere(env, w, v, current)
    decreases v
  {
    hide Walks, Ready, UploadFile, UploadDirectory, Reaches, DirPath, Locate, Join, Disk;
    match v
    case Scalar(_) =>
    case File(f, secondary) =>
      PostsFrom(env, w, depth);
      FileSucceedsIff(env, w, f, current);
      var r := UploadFile(env, w, f, current);
      if r.Done? {
        FileKeepsDisk(env, w, f, current);
        WalksOn(env, w, r.world, depth);
        AllUploadSucceedsIff(env, r.world, secondary, current, depth);
        SameEach(env, w, r.world, secondary, current);
      }
    case Array(items) => AllUploadSucceedsIff(env, w, items, current, depth);
    case Record(_, fields) => AllUploadSucceedsIff(env, w, fields, current, depth);
    case Directory(_, Listing(listing)) => AllUploadSucceedsIff(env, w, listing, current, depth);
    case Directory(d, Unlisted) =>
      DeepAnywhere(env, w, Locate(env.cwd, Join(current, DirPath(env, d))), depth);
      DirectorySucceeds(env, w, DirPath(env, d), current, depth, depth);
  }

  lemma DeepAnywhere(env: Env, w: World, place: Place, depth: nat)
    requires Walks(env, w, depth)
    ensures Deep(w, place, depth)
  {}

  lemma {:induction false} AllUploadSucceedsIff(env: Env, w: World, vs: seq<Value>, current: string, depth: nat)
    requires Walks(env, w, depth) && AllReached(env, vs, current) && !("file:" <= current)
    ensures UploadAll(env, w, vs, current, depth).Done? <==> EachThere(env, w, vs, current)
    decreases vs
  {
    hide Walks, Disk;
    if vs != [] {
      UploadSucceedsIff(env, w, vs[0], current, depth);
      var r := Upload(env, w, vs[0], current, depth);
      if r.Done? {
        ListedIffPopulated(env, w, vs[0], current, depth);
        WalksOn(env, w, r.world, depth);
        AllUploadSucceedsIff(env, r.world, vs[1..], current, depth);
        SameEach(env, w, r.world, vs[1..], current);
      }
    }
  }

  lemma {:induction false} SameThere(env: Env, w: World, w': World, v: Value, current: string)
    requires w'.files == w.files && w'.dirs == w.dirs
    ensures AllThere(env, w', v, current) <==> AllThere(env, w, v, current)
    decreases v
  {
    hide SourceOf, Locate, Join, FullPath, DirPath;
    match v
    case Scalar(_) =>
    case File(_, secondary) => SameEach(env, w, w', secondary, current);
    case Array(items) => SameEach(env, w, w', items, current);
    case Record(_, fields) => SameEach(env, w, w', fields, current);
    case Directory(_, Listing(listing)) => SameEach(env, w, w', listing, current);
    case Directory(_, Unlisted) =>
  }

  lemma {:induction false} SameEach(env: Env, w: World, w': World, vs: seq<Value>, current: string)
    requires w'.files == w.files && w'.dirs == w.dirs
    ensures EachThere(env, w', vs, current) <==> EachThere(env, w, vs, current)
    decreases vs
  {
    if vs != [] {
      SameThere(env, w, w', vs[0], current);
      SameEach(env, w, w', vs[1..], current);
    }
  }
}
