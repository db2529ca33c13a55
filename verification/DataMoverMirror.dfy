/** The shape of an uploaded tree: what it keeps, and that the listing of a directory mirrors the disk. */
module DataMoverMirror {
  import opened Wrappers
  import opened GoPath
  import opened GoPathRelative
  import opened DataMover
  import opened DataMoverUpload
  import opened DataMoverRepeat
  import opened DataMoverPaths
  import opened DataMoverDisk

  // ----- Listings -----

  /** The last name of a place. */
  function NameAt(place: Place): string {
    if place == [] then "" else place[|place| - 1]
  }

  /**
    * A directory on the disk is shown as a Directory with its name, its path and its listing, and a file as a
    * File with its name and its content on the web.
    */
  ghost predicate MirrorsEntry(env: Env, disk: World, web: Web, place: Place, v: Value, depth: nat)
    decreases depth, 0, 0
  {
    if depth == 0 then false
    else if place in disk.dirs then
      && v.Directory? && v.dir.basename == NameAt(place) && v.dir.location == "" && Locate(env.cwd, v.dir.path) == place
      && MirrorsListing(env, disk, web, place, v.listing, depth - 1)
    else
      && place in disk.files && v.File? && v.secondary == []
      && v.file.basename == NameAt(place) && v.file.id == v.file.path == v.file.contents == ""
      && Lookup(web, v.file.location) == Some(disk.files[place])
  }

  /** A listing has the entries in their order, those of checksums left out, and there is none for no entries. */
  ghost predicate MirrorsListing(env: Env, disk: World, web: Web, place: Place, listing: Listing, depth: nat)
    decreases depth, 1, 0
  {
    && depth > 0 && place in disk.dirs && listing != Listing([])
    && MirrorsEntries(env, disk, web, place, env.children(disk.files, disk.dirs, place), ItemsOf(listing), depth)
  }

  function ItemsOf(listing: Listing): seq<Value> {
    if listing.Unlisted? then [] else listing.items
  }

  ghost predicate MirrorsEntries(env: Env, disk: World, web: Web, place: Place, names: seq<string>, items: seq<Value>,
                                 depth: nat)
    requires depth > 0
    decreases depth, 0, |names|
  {
    if names == [] then items == []
    else if HasSuffix(names[0], ".md5") then MirrorsEntries(env, disk, web, place, names[1..], items, depth)
    else
      && items != [] && MirrorsEntry(env, disk, web, place + [names[0]], items[0], depth)
      && MirrorsEntries(env, disk, web, place, names[1..], items[1..], depth)
  }

  // ----- Later posts do not matter -----

  lemma {:induction false} EntryLater(env: Env, disk: World, web: Web, web': Web, place: Place, v: Value, depth: nat)
    requires MirrorsEntry(env, disk, web, place, v, depth) && Grows(web, web')
    ensures MirrorsEntry(env, disk, web', place, v, depth)
    decreases depth, 0, 0
  {
    if place in disk.dirs { ListingLater(env, disk, web, web', place, v.listing, depth - 1); }
  }

  lemma {:induction false} ListingLater(env: Env, disk: World, web: Web, web': Web, place: Place, listing: Listing,
                                        depth: nat)
    requires MirrorsListing(env, disk, web, place, listing, depth) && Grows(web, web')
    ensures MirrorsListing(env, disk, web', place, listing, depth)
    decreases depth, 1, 0
  {
    var names := env.children(disk.files, disk.dirs, place);
    EntriesLater(env, disk, web, web', place, names, ItemsOf(listing), depth);
  }

  lemma {:induction false} EntriesLater(env: Env, disk: World, web: Web, web': Web, place: Place, names: seq<string>,
                                        items: seq<Value>, depth: nat)
    requires depth > 0 && MirrorsEntries(env, disk, web, place, names, items, depth) && Grows(web, web')
    ensures MirrorsEntries(env, disk, web', place, names, items, depth)
    decreases depth, 0, |names|
  {
    hide MirrorsEntry, HasSuffix, Grows;
    if names != [] {
      if HasSuffix(names[0], ".md5") {
        EntriesLater(env, disk, web, web', place, names[1..], items, depth);
      } else {
        EntryLater(env, disk, web, web', place + [names[0]], items[0], depth);
        EntriesLater(env, disk, web, web', place, names[1..], items[1..], depth);
      }
    }
  }

  // ----- The upload of a directory -----

  lemma UploadedFields(env: Env, w: World, f: FileData, current: string)
    ensures var r := UploadFile(env, w, f, current);
            r.Done? ==>
              r.value.id == f.id && r.value.contents == "" && (f.basename != "" ==> r.value.basename == f.basename)
  {
    hide Locate, FullPath, NodeUrl, Base, Index, TrimPrefix;
  }

  lemma DiskDirs(w: World)
    ensures Disk(w).dirs == w.dirs
  {}

  lemma LastOf(place: Place, name: string)
    ensures NameAt(place + [name]) == name
  {}

  lemma {:induction false} FileMirrors(env: Env, w: World, current: string, path: string, name: string, depth: nat)
    requires ShockServes(env) && Reaches(env.cwd, current, path) && Plain(name) && depth > 0
    requires Locate(env.cwd, Join(current, path)) + [name] !in w.dirs
    ensures var r := UploadEntry(env, w, EntryAt(current, path, name), WithSlash(current), depth);
            r.Done? ==>
              && Posted(w, r.world)
              && MirrorsEntry(env, Disk(w), r.world.web, Locate(env.cwd, Join(current, path)) + [name], r.value, depth)
  {
    var relative := RelativeAt(current, path, name);
    var place, s := Locate(env.cwd, Join(current, path)) + [name], WithSlash(current);
    LastOf(Locate(env.cwd, Join(current, path)), name);
    hide Join, Locate, Base, UploadFile, UploadDirectory, UploadEntry, ShockServes, Plain, Reaches, EntryAt,
         RelativeAt, WithSlash, Posted, Lookup, NameAt;
    EntryParts(env, w, current, path, name, depth);
    if place in w.files {
      FileShown(env, w, current, path, name);
      UploadedFields(env, w, FileData("", "", relative, Base(relative), ""), s);
    }
  }

  lemma FolderMirrors(env: Env, disk: World, web: Web, place: Place, d: DirData, listing: Listing, depth: nat)
    requires depth > 0 && place in disk.dirs && MirrorsListing(env, disk, web, place, listing, depth - 1)
    requires d.basename == NameAt(place) && d.location == "" && Locate(env.cwd, d.path) == place
    ensures MirrorsEntry(env, disk, web, place, Directory(d, listing), depth)
  {
    hide Locate, NameAt, MirrorsListing;
  }

  lemma {:induction false} EntryMirrors(env: Env, w: World, current: string, path: string, name: string, depth: nat)
    requires ShockServes(env) && ListsPlain(env, w) && Reaches(env.cwd, current, path) && Plain(name) && depth > 0
    ensures var r := UploadEntry(env, w, EntryAt(current, path, name), WithSlash(current), depth);
            r.Done? ==>
              && Posted(w, r.world)
              && MirrorsEntry(env, Disk(w), r.world.web, Locate(env.cwd, Join(current, path)) + [name], r.value, depth)
    decreases depth, 0, 0
  {
    hide Join, Locate, Base, UploadFile, UploadDirectory, UploadEntry, ShockServes, ListsPlain, Plain, Reaches,
         EntryAt, RelativeAt, WithSlash, Posted, Lookup, NameAt, MirrorsListing, MirrorsEntry, Disk;
    var relative, s, entry := RelativeAt(current, path, name), WithSlash(current), EntryAt(current, path, name);
    var place := Locate(env.cwd, Join(current, path)) + [name];
    LastOf(Locate(env.cwd, Join(current, path)), name);
    DiskDirs(w);
    if place in w.dirs {
      EntryParts(env, w, current, path, name, depth);
      ReachesNext(env.cwd, current, path, name);
      DirectoryMirrors(env, w, relative, s, depth - 1);
      var r := UploadDirectory(env, w, relative, s, depth - 1);
      if r.Done? {
        FolderMirrors(env, Disk(w), r.world.web, place, DirData("", entry, name), r.value, depth);
      }
    } else {
      FileMirrors(env, w, current, path, name, depth);
    }
  }

  lemma {:induction false} EntriesMirror(env: Env, w: World, names: seq<string>, current: string, path: string,
                                         depth: nat)
    requires ShockServes(env) && ListsPlain(env, w) && Reaches(env.cwd, current, path) && AllPlain(names) && depth > 0
    ensures var r := UploadEntries(env, w, names, Join(current, path), WithSlash(current), depth);
            r.Done? ==>
              && Posted(w, r.world)
              && MirrorsEntries(env, Disk(w), r.world.web, Locate(env.cwd, Join(current, path)), names, r.value, depth)
    decreases depth, 0, |names|
  {
    var dir, s, place := Join(current, path), WithSlash(current), Locate(env.cwd, Join(current, path));
    if names != [] { assert EntryAt(current, path, names[0]) == Join(dir, names[0]); }
    hide Join, Locate, UploadEntry, Disk, ShockServes, ListsPlain, Plain, HasSuffix, Reaches, WithSlash, EntryAt,
         Posted, MirrorsEntry;
    PostedSelf(w);
    if names != [] {
      if HasSuffix(names[0], ".md5") {
        EntriesMirror(env, w, names[1..], current, path, depth);
      } else {
        EntryMirrors(env, w, current, path, names[0], depth);
        var r := UploadEntry(env, w, Join(dir, names[0]), s, depth);
        if r.Done? {
          PostedDisk(w, r.world);
          SameLists(env, w, r.world);
          EntriesMirror(env, r.world, names[1..], current, path, depth);
          var r2 := UploadEntries(env, r.world, names[1..], dir, s, depth);
          if r2.Done? {
            PostedTwice(w, r.world, r2.world);
            PostedDisk(r.world, r2.world);
            EntryLater(env, Disk(w), r.world.web, r2.world.web, place + [names[0]], r.value, depth);
            assert ([r.value] + r2.value)[1..] == r2.value;
          }
        }
      }
    }
  }

  lemma PostedDisk(w: World, w': World)
    requires Posted(w, w')
    ensures Disk(w') == Disk(w) && w'.files == w.files && w'.dirs == w.dirs && Grows(w.web, w'.web)
  {}

  /** The listing of a directory on disk mirrors it, level by level. */
  lemma {:induction false} DirectoryMirrors(env: Env, w: World, path: string, current: string, depth: nat)
    requires ShockServes(env) && ListsPlain(env, w) && Reaches(env.cwd, current, path)
    ensures var r := UploadDirectory(env, w, path, current, depth);
            r.Done? ==>
              && Posted(w, r.world)
              && MirrorsListing(env, Disk(w), r.world.web, Locate(env.cwd, Join(current, path)), r.value, depth)
    decreases depth, 1, 0
  {
    var place := Locate(env.cwd, Join(current, path));
    assert Disk(w).dirs == w.dirs && Disk(w).files == w.files;
    if depth > 0 && place in w.dirs {
      var names := env.children(w.files, w.dirs, place);
      assert AllPlain(names);
      EntriesMirror(env, w, names, current, path, depth);
      hide Join, Locate, UploadEntries, Disk, MirrorsEntries, Reaches, ShockServes, ListsPlain, Posted;
    }
  }

  // ----- Trees -----

  /** Uploading the File alone, with the same disk, gives this File. */
  ghost predicate ComesFrom(env: Env, disk: World, f: FileData, f': FileData, current: string) {
    exists w: World ::
      Disk(w) == disk && UploadFile(env, w, f, current).Done? && UploadFile(env, w, f, current).value == f'
  }

  /**
    * The same tree with every File uploaded. A listed Directory keeps all its fields; one without a listing
    * gets the path it was read from, from its location if it had none, and a listing from the disk.
    */
  ghost predicate Uploaded(env: Env, disk: World, v: Value, v': Value, current: string)
    decreases v
  {
    match v
    case Scalar(_) => v' == v
    case File(f, secondary) =>
      v'.File? && ComesFrom(env, disk, f, v'.file, current) && AllUploaded(env, disk, secondary, v'.secondary, current)
    case Array(items) => v'.Array? && AllUploaded(env, disk, items, v'.items, current)
    case Record(keys, fields) => v'.Record? && v'.keys == keys && AllUploaded(env, disk, fields, v'.fields, current)
    case Directory(d, Listing(items)) =>
      && v'.Directory? && v'.dir == d && v'.listing.Listing?
      && AllUploaded(env, disk, items, v'.listing.items, current)
    case Directory(d, Unlisted) =>
      && v'.Directory? && v'.dir.location == d.location && v'.dir.basename == d.basename
      && (d.path != "" ==> v'.dir.path == d.path)
      && (d.path == "" ==> d.location != "" && env.urlPath(d.location) == Some(v'.dir.path))
  }

  ghost predicate AllUploaded(env: Env, disk: World, vs: seq<Value>, vs': seq<Value>, current: string)
    decreases vs
  {
    if vs == [] then vs' == []
    else vs' != [] && Uploaded(env, disk, vs[0], vs'[0], current) && AllUploaded(env, disk, vs[1..], vs'[1..], current)
  }

  /** An upload that succeeds keeps the tree, the keys of its records and the fields of its Directories. */
  lemma {:induction false} UploadKeepsShape(env: Env, w: World, v: Value, current: string, depth: nat)
    requires Upload(env, w, v, current, depth).Done?
    ensures Uploaded(env, Disk(w), v, Upload(env, w, v, current, depth).value, current)
    decreases v
  {
    hide Disk, UploadFile, UploadDirectory;
    match v
    case Scalar(_) =>
    case File(f, secondary) =>
      FileKeepsDisk(env, w, f, current);
      AllUploadKeepShape(env, UploadFile(env, w, f, current).world, secondary, current, depth);
    case Array(items) => AllUploadKeepShape(env, w, items, current, depth);
    case Record(_, fields) => AllUploadKeepShape(env, w, fields, current, depth);
    case Directory(_, Listing(items)) => AllUploadKeepShape(env, w, items, current, depth);
    case Directory(_, Unlisted) =>
  }

  lemma {:induction false} AllUploadKeepShape(env: Env, w: World, vs: seq<Value>, current: string, depth: nat)
    requires UploadAll(env, w, vs, current, depth).Done?
    ensures AllUploaded(env, Disk(w), vs, UploadAll(env, w, vs, current, depth).value, current)
    decreases vs
  {
    hide Disk, Uploaded;
    if vs != [] {
      UploadKeepsShape(env, w, vs[0], current, depth);
      ListedIffPopulated(env, w, vs[0], current, depth);
      var r := Upload(env, w, vs[0], current, depth);
      AllUploadKeepShape(env, r.world, vs[1..], current, depth);
      var rest := UploadAll(env, r.world, vs[1..], current, depth).value;
      assert ([r.value] + rest)[1..] == rest;
    }
  }
}
