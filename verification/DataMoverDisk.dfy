/** A directory on disk is uploaded with the files below it: all of them, their contents, their order. */
module DataMoverDisk {
  import opened Wrappers
  import opened GoPath
  import opened GoPathRelative
  import opened DataMover
  import opened DataMoverPaths
  import opened DataMoverUpload
  import opened DataMoverDownload
  import opened DataMoverRepeat

  // ----- The files below a place, without any paths -----

  datatype Found = Found(place: Place, content: Content)

  function FilesBelow(env: Env, w: World, place: Place, depth: nat): seq<Found>
    decreases depth, 1, 0
  {
    if depth == 0 then [] else FilesAmong(env, w, place, env.children(w.files, w.dirs, place), depth)
  }

  function FilesAmong(env: Env, w: World, place: Place, names: seq<string>, depth: nat): seq<Found>
    requires depth > 0
    decreases depth, 0, |names|
  {
    if names == [] then []
    else (if HasSuffix(names[0], ".md5") then [] else FilesAt(env, w, place + [names[0]], depth))
         + FilesAmong(env, w, place, names[1..], depth)
  }

  function FilesAt(env: Env, w: World, place: Place, depth: nat): seq<Found>
    requires depth > 0
    decreases depth, 0, 0
  {
    if place in w.dirs then FilesBelow(env, w, place, depth - 1)
    else if place in w.files then [Found(place, w.files[place])]
    else []
  }

  /** Uploaded Files that have these names and contents. */
  ghost predicate Match(web: Web, fs: seq<FileData>, found: seq<Found>) {
    && |fs| == |found|
    && forall i :: 0 <= i < |fs| ==>
         && found[i].place != [] && fs[i].basename == found[i].place[|found[i].place| - 1]
         && Lookup(web, fs[i].location) == Some(found[i].content)
  }

  lemma MatchConcat(web: Web, web': Web, a: seq<FileData>, x: seq<Found>, b: seq<FileData>, y: seq<Found>)
    requires Match(web, a, x) && Grows(web, web') && Match(web', b, y)
    ensures Match(web', a + b, x + y)
  {}

  // ----- Listings -----

  /** Directories of this disk list plain names. */
  ghost predicate ListsPlain(env: Env, w: World) {
    forall p :: p in w.dirs ==> AllPlain(env.children(w.files, w.dirs, p))
  }

  /** Each directory of this disk lists everything that is in it, once. */
  ghost predicate Lists(env: Env, w: World) {
    && (forall p, n :: p in w.dirs && n in env.children(w.files, w.dirs, p) ==> Exists(w, p + [n]))
    && (forall p, n :: p in w.dirs && Exists(w, p + [n]) ==> n in env.children(w.files, w.dirs, p))
    && (forall p :: p in w.dirs ==> Distinct(env.children(w.files, w.dirs, p)))
  }

  /** Everything on this disk goes by plain names. */
  ghost predicate PlainDisk(w: World) {
    forall p :: Exists(w, p) ==> AllPlain(p)
  }

  lemma PlainDiskListsPlain(env: Env, w: World)
    requires Lists(env, w) && PlainDisk(w)
    ensures ListsPlain(env, w)
  {
    hide Plain;
    forall p | p in w.dirs ensures AllPlain(env.children(w.files, w.dirs, p)) {
      var names := env.children(w.files, w.dirs, p);
      forall i | 0 <= i < |names| ensures Plain(names[i]) {
        assert names[i] in names;
        assert (p + [names[i]])[|p|] == names[i];
      }
    }
  }

  lemma DiskIsSame(env: Env, w: World)
    requires Tidy(w) && Lists(env, w)
    ensures Tidy(Disk(w)) && Lists(env, Disk(w)) && Disk(w).files == w.files && Disk(w).dirs == w.dirs
  {}

  // ----- The upload -----

  // What uploading some entries shows of the disk.
  ghost predicate Shown(w: World, w': World, vs: seq<Value>, found: seq<Found>) {
    Posted(w, w') && Match(w'.web, FilesAll(vs), found) && AllDirsNamed(PlainDir, vs)
  }

  lemma NoneShown(w: World)
    ensures Shown(w, w, [], [])
  {
    PostedSelf(w);
  }

  lemma SameDisk(w: World, w': World, vs: seq<Value>, found: seq<Found>)
    requires Shown(w, w', vs, found)
    ensures Disk(w') == Disk(w) && w'.files == w.files && w'.dirs == w.dirs
  {}

  lemma {:induction false} ConsAll(v: Value, vs: seq<Value>)
    ensures FilesAll([v] + vs) == Files(v) + FilesAll(vs)
    ensures FilesAll([v]) == Files(v)
    ensures AllDirsNamed(PlainDir, [v] + vs) <==> DirsNamed(PlainDir, v) && AllDirsNamed(PlainDir, vs)
    ensures AllDirsNamed(PlainDir, [v]) <==> DirsNamed(PlainDir, v)
  {
    hide Files, DirsNamed;
    assert [v][1..] == [] && ([v] + vs)[1..] == vs;
    assert FilesAll([]) == [] && Files(v) + [] == Files(v);
  }

  lemma BothShown(w: World, w1: World, v: Value, x: seq<Found>, w2: World, vs: seq<Value>, y: seq<Found>)
    requires Shown(w, w1, [v], x) && Shown(w1, w2, vs, y)
    ensures Shown(w, w2, [v] + vs, x + y)
  {
    hide Files, FilesAll, DirsNamed, AllDirsNamed, Match;
    PostedTwice(w, w1, w2);
    ConsAll(v, vs);
    MatchConcat(w1.web, w2.web, Files(v), x, FilesAll(vs), y);
  }

  lemma OneShown(w: World, w': World, f: FileData, x: Found)
    requires Posted(w, w') && x.place != [] && f.basename == x.place[|x.place| - 1]
    requires Lookup(w'.web, f.location) == Some(x.content)
    ensures Shown(w, w', [File(f, [])], [x])
  {
    ConsAll(File(f, []), []);
    assert Files(File(f, [])) == [f];
    hide Posted, Lookup;
  }

  lemma DirShown(w: World, w': World, entry: string, name: string, listing: Listing, found: seq<Found>)
    requires Posted(w, w') && Match(w'.web, ListingFiles(listing), found) && Plain(name)
    requires listing.Listing? ==> AllDirsNamed(PlainDir, listing.items)
    ensures Shown(w, w', [Directory(DirData("", entry, name), listing)], found)
  {
    ConsAll(Directory(DirData("", entry, name), listing), []);
    assert PlainDir(DirData("", entry, name));
    hide Posted, Match, PlainDir;
  }

  /** The File made for an entry is posted with the content of that entry. */
  lemma {:induction false} FileShown(env: Env, w: World, current: string, path: string, name: string)
    requires ShockServes(env) && Reaches(env.cwd, current, path) && Plain(name)
    requires Locate(env.cwd, Join(current, path)) + [name] in w.files
    ensures var relative := RelativeAt(current, path, name);
            var r := UploadFile(env, w, FileData("", "", relative, Base(relative), ""), WithSlash(current));
            && Posted(w, r.world)
            && (r.Done? ==> Lookup(r.world.web, r.value.location)
                            == Some(w.files[Locate(env.cwd, Join(current, path)) + [name]]))
  {
    var relative, s := RelativeAt(current, path, name), WithSlash(current);
    var f := FileData("", "", relative, Base(relative), "");
    hide Join, Locate, Reaches, EntryAt, RelativeAt, WithSlash, Base, TrimPrefix;
    ReachesNext(env.cwd, current, path, name);
    UploadFileCarries(env, w, f, s);
    assert SourceOf(f) == Local(relative);
    hide SourceOf, UploadFile;
    assert FullPath(s, relative) == Join(s, relative);
    assert Meaning(env, w, f, s) == Some(w.files[Locate(env.cwd, Join(current, path)) + [name]]);
  }

  lemma EntryIs(env: Env, w: World, entry: string, s: string, depth: nat, place: Place, relative: string, name: string)
    requires depth > 0 && Locate(env.cwd, entry) == place && TrimPrefix(entry, s) == relative && Base(entry) == name
    ensures place in w.dirs ==>
              var r := UploadDirectory(env, w, relative, s, depth - 1);
              UploadEntry(env, w, entry, s, depth) ==
              if r.Failed? then Failed(r.world)
              else Done(Directory(DirData("", entry, name), r.value), r.world, r.count)
    ensures place !in w.dirs && place in w.files ==>
              var r := UploadFile(env, w, FileData("", "", relative, Base(relative), ""), s);
              UploadEntry(env, w, entry, s, depth) ==
              if r.Failed? then Failed(r.world)
              else Done(File(r.value.(path := "", basename := name), []), r.world, r.count)
    ensures place !in w.dirs && place !in w.files ==> UploadEntry(env, w, entry, s, depth) == Failed(w)
  {
    hide Locate, TrimPrefix, Base, UploadFile, UploadDirectory;
  }

  lemma FilesAtIs(env: Env, w: World, place: Place, depth: nat)
    requires depth > 0
    ensures FilesAt(env, Disk(w), place, depth) ==
            if place in w.dirs then FilesBelow(env, Disk(w), place, depth - 1)
            else if place in w.files then [Found(place, w.files[place])]
            else []
  {
    hide FilesBelow;
  }

  // A single entry.
  lemma OneEntry(env: Env, w: World, name: string, dir: string, s: string, depth: nat)
    requires depth > 0 && !HasSuffix(name, ".md5")
    ensures var r := UploadEntry(env, w, Join(dir, name), s, depth);
            UploadEntries(env, w, [name], dir, s, depth) ==
            if r.Failed? then Failed(r.world) else Done([r.value], r.world, r.count)
  {
    hide UploadEntry, Join, HasSuffix;
    var r := UploadEntry(env, w, Join(dir, name), s, depth);
    assert [name][1..] == [];
    if r.Done? { assert [r.value] + [] == [r.value]; }
  }

  // A directory with a single entry.
  lemma OneListed(env: Env, w: World, path: string, current: string, place: Place, name: string, depth: nat)
    requires depth > 0 && !HasSuffix(name, ".md5") && Locate(env.cwd, Join(current, path)) == place && place in w.dirs
    requires env.children(w.files, w.dirs, place) == [name]
    ensures var r := UploadEntry(env, w, Join(Join(current, path), name), WithSlash(current), depth);
            UploadDirectory(env, w, path, current, depth) ==
            if r.Failed? then Failed(r.world) else Done(Listing([r.value]), r.world, r.count)
  {
    hide UploadEntry, UploadEntries, Join, Locate, HasSuffix;
    OneEntry(env, w, name, Join(current, path), WithSlash(current), depth);
  }

  // The pieces of an entry's upload, for a file and for a directory.
  lemma {:induction false} EntryParts(env: Env, w: World, current: string, path: string, name: string, depth: nat)
    requires Reaches(env.cwd, current, path) && Plain(name) && depth > 0
    ensures var relative, entry, s := RelativeAt(current, path, name), EntryAt(current, path, name), WithSlash(current);
            var place := Locate(env.cwd, Join(current, path)) + [name];
            && Reaches(env.cwd, s, relative) && Locate(env.cwd, Join(s, relative)) == place && WithSlash(s) == s
            && (place in w.dirs ==>
                  var r := UploadDirectory(env, w, relative, s, depth - 1);
                  UploadEntry(env, w, entry, s, depth) ==
                  if r.Failed? then Failed(r.world)
                  else Done(Directory(DirData("", entry, name), r.value), r.world, r.count))
            && (place !in w.dirs && place in w.files ==>
                  var r := UploadFile(env, w, FileData("", "", relative, Base(relative), ""), s);
                  UploadEntry(env, w, entry, s, depth) ==
                  if r.Failed? then Failed(r.world)
                  else Done(File(r.value.(path := "", basename := name), []), r.world, r.count))
            && (place !in w.dirs && place !in w.files ==> UploadEntry(env, w, entry, s, depth) == Failed(w))
  {
    var relative, entry, s := RelativeAt(current, path, name), EntryAt(current, path, name), WithSlash(current);
    assert TrimPrefix(entry, s) == relative;
    hide Join, Locate, Base, UploadFile, UploadDirectory, UploadEntry, TrimPrefix, Plain, Reaches, EntryAt,
         RelativeAt, WithSlash;
    ReachesNext(env.cwd, current, path, name);
    EntryIs(env, w, entry, s, depth, Locate(env.cwd, Join(current, path)) + [name], relative, name);
  }

  lemma {:induction false} FileEntryShown(env: Env, w: World, current: string, path: string, name: string, depth: nat)
    requires ShockServes(env) && Reaches(env.cwd, current, path) && Plain(name) && depth > 0
    requires Locate(env.cwd, Join(current, path)) + [name] !in w.dirs
    ensures var r := UploadEntry(env, w, EntryAt(current, path, name), WithSlash(current), depth);
            r.Done? ==> Shown(w, r.world, [r.value],
                              FilesAt(env, Disk(w), Locate(env.cwd, Join(current, path)) + [name], depth))
  {
    var relative := RelativeAt(current, path, name);
    var place, s := Locate(env.cwd, Join(current, path)) + [name], WithSlash(current);
    hide Join, Locate, Base, UploadFile, UploadDirectory, UploadEntry, ShockServes, Plain, Shown, Reaches, EntryAt,
         RelativeAt, WithSlash, Posted, Disk, FilesAt, Lookup;
    FilesAtIs(env, w, place, depth);
    EntryParts(env, w, current, path, name, depth);
    if place in w.files {
      FileShown(env, w, current, path, name);
      var r := UploadFile(env, w, FileData("", "", relative, Base(relative), ""), s);
      if r.Done? { OneShown(w, r.world, r.value.(path := "", basename := name), Found(place, w.files[place])); }
    }
  }

  lemma {:induction false} EntryShown(env: Env, w: World, current: string, path: string, name: string, depth: nat)
    requires ShockServes(env) && ListsPlain(env, w) && Reaches(env.cwd, current, path) && Plain(name) && depth > 0
    ensures var r := UploadEntry(env, w, EntryAt(current, path, name), WithSlash(current), depth);
            r.Done? ==> Shown(w, r.world, [r.value],
                              FilesAt(env, Disk(w), Locate(env.cwd, Join(current, path)) + [name], depth))
    decreases depth, 0, 0
  {
    var relative, entry := RelativeAt(current, path, name), EntryAt(current, path, name);
    var place, s := Locate(env.cwd, Join(current, path)) + [name], WithSlash(current);
    hide Join, Locate, Base, UploadFile, UploadDirectory, UploadEntry, ShockServes, ListsPlain, FilesBelow, Plain,
         Shown, Reaches, EntryAt, RelativeAt, WithSlash, Match, Posted, Disk, FilesAt, ListingFiles, AllDirsNamed;
    if place in w.dirs {
      FilesAtIs(env, w, place, depth);
      EntryParts(env, w, current, path, name, depth);
      DirectoryShown(env, w, relative, s, depth - 1);
      var r := UploadDirectory(env, w, relative, s, depth - 1);
      if r.Done? { DirShown(w, r.world, entry, name, r.value, FilesBelow(env, Disk(w), place, depth - 1)); }
    } else {
      FileEntryShown(env, w, current, path, name, depth);
    }
  }

  lemma {:induction false} EntriesShown(env: Env, w: World, names: seq<string>, current: string, path: string,
                                        depth: nat)
    requires ShockServes(env) && ListsPlain(env, w) && Reaches(env.cwd, current, path) && AllPlain(names) && depth > 0
    ensures var r := UploadEntries(env, w, names, Join(current, path), WithSlash(current), depth);
            r.Done? ==> Shown(w, r.world, r.value,
                              FilesAmong(env, Disk(w), Locate(env.cwd, Join(current, path)), names, depth))
    decreases depth, 0, |names|
  {
    var dir, s, place := Join(current, path), WithSlash(current), Locate(env.cwd, Join(current, path));
    if names != [] { assert EntryAt(current, path, names[0]) == Join(dir, names[0]); }
    hide Join, Locate, UploadEntry, Disk, ShockServes, ListsPlain, Plain, FilesAt, HasSuffix, Shown, Reaches,
         WithSlash, EntryAt;
    if names == [] {
      NoneShown(w);
    } else if HasSuffix(names[0], ".md5") {
      EntriesShown(env, w, names[1..], current, path, depth);
      assert [] + FilesAmong(env, Disk(w), place, names[1..], depth)
             == FilesAmong(env, Disk(w), place, names[1..], depth);
    } else {
      EntryShown(env, w, current, path, names[0], depth);
      var r := UploadEntry(env, w, Join(dir, names[0]), s, depth);
      if r.Done? {
        var x := FilesAt(env, Disk(w), place + [names[0]], depth);
        SameDisk(w, r.world, [r.value], x);
        SameLists(env, w, r.world);
        EntriesShown(env, r.world, names[1..], current, path, depth);
        var r2 := UploadEntries(env, r.world, names[1..], dir, s, depth);
        if r2.Done? {
          BothShown(w, r.world, r.value, x, r2.world, r2.value, FilesAmong(env, Disk(w), place, names[1..], depth));
        }
      }
    }
  }

  lemma SameLists(env: Env, w: World, w': World)
    requires ListsPlain(env, w) && w'.files == w.files && w'.dirs == w.dirs
    ensures ListsPlain(env, w')
  {}

  /** The listing of a directory on disk has its files, at any depth, with names, contents and order. */
  lemma {:induction false} DirectoryShown(env: Env, w: World, path: string, current: string, depth: nat)
    requires ShockServes(env) && ListsPlain(env, w) && Reaches(env.cwd, current, path)
    ensures var r := UploadDirectory(env, w, path, current, depth);
            r.Done? ==>
              && Posted(w, r.world)
              && Match(r.world.web, ListingFiles(r.value),
                       FilesBelow(env, Disk(w), Locate(env.cwd, Join(current, path)), depth))
              && (r.value.Listing? ==> AllDirsNamed(PlainDir, r.value.items))
    decreases depth, 1, 0
  {
    var place := Locate(env.cwd, Join(current, path));
    assert Disk(w).dirs == w.dirs && Disk(w).files == w.files;
    if depth > 0 && place in w.dirs {
      var names := env.children(w.files, w.dirs, place);
      assert AllPlain(names);
      EntriesShown(env, w, names, current, path, depth);
      hide Join, Locate, UploadEntries, FilesAmong, Reaches, ShockServes, ListsPlain, TrimSuffix, Disk, AllPlain;
    }
  }
}
