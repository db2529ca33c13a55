/** What uploading any tree counts, and that uploading it again does nothing. */
module DataMoverRepeat {
  import opened GoPath
  import opened DataMover
  import opened DataMoverUpload

  // ----- Counts -----

  /** How many of the Files were remote already. */
  function Remotes(fs: seq<FileData>): nat {
    if fs == [] then 0 else (if SourceOf(fs[0]).Remote? then 1 else 0) + Remotes(fs[1..])
  }

  lemma {:induction false} RemotesConcat(a: seq<FileData>, b: seq<FileData>)
    ensures Remotes(a + b) == Remotes(a) + Remotes(b)
  {
    hide SourceOf;
    if a == [] {
      assert a + b == b;
    } else {
      assert (a + b)[1..] == a[1..] + b;
      RemotesConcat(a[1..], b);
    }
  }

  /** No File that was remote already comes with a path. */
  ghost predicate RemotesPathless(fs: seq<FileData>) {
    forall i :: 0 <= i < |fs| && SourceOf(fs[i]).Remote? ==> fs[i].path == ""
  }

  ghost predicate AllSettled(current: string, fs: seq<FileData>) {
    forall i :: 0 <= i < |fs| ==> Settled(current, fs[i])
  }

  ghost predicate AllEmptied(fs: seq<FileData>) {
    forall i :: 0 <= i < |fs| ==> fs[i].contents == "" && fs[i].path == ""
  }

  /** Every File was made remote and emptied, and `n` of them were not remote before. */
  ghost predicate Shipped(fs: seq<FileData>, fs': seq<FileData>, n: nat, current: string) {
    && AllSettled(current, fs') && |fs'| == n + Remotes(fs)
    && (AllEmptied(fs') <==> RemotesPathless(fs))
  }

  lemma ShippedConcat(a: seq<FileData>, a': seq<FileData>, n: nat, b: seq<FileData>, b': seq<FileData>, m: nat,
                      current: string)
    requires Shipped(a, a', n, current) && Shipped(b, b', m, current)
    ensures Shipped(a + b, a' + b', n + m, current)
  {
    hide Remotes, SourceOf, Settled;
    RemotesConcat(a, b);
    assert AllSettled(current, a' + b');
    EmptiedConcat(a', b');
    PathlessConcat(a, b);
  }

  lemma EmptiedConcat(a: seq<FileData>, b: seq<FileData>)
    ensures AllEmptied(a + b) <==> AllEmptied(a) && AllEmptied(b)
  {
    assert forall i :: 0 <= i < |a| ==> a[i] == (a + b)[i];
    assert forall i :: 0 <= i < |b| ==> b[i] == (a + b)[|a| + i];
  }

  lemma PathlessConcat(a: seq<FileData>, b: seq<FileData>)
    ensures RemotesPathless(a + b) <==> RemotesPathless(a) && RemotesPathless(b)
  {
    hide SourceOf;
    assert forall i :: 0 <= i < |a| ==> a[i] == (a + b)[i];
    assert forall i :: 0 <= i < |b| ==> b[i] == (a + b)[|a| + i];
  }

  lemma {:induction false} ShippedFile(env: Env, w: World, f: FileData, current: string)
    requires ShockServes(env) && UploadFile(env, w, f, current).Done?
    ensures Shipped([f], [UploadFile(env, w, f, current).value], UploadFile(env, w, f, current).count, current)
  {
    UploadFileCarries(env, w, f, current);
    var f' := UploadFile(env, w, f, current).value;
    assert f'.contents == "";
    hide UploadFile, Meaning, NodeUrl, Plain, SourceOf, UploadName;
    assert [f][1..] == [] && Remotes([f][1..]) == 0;
    assert [f][0] == f && [f'][0] == f';
  }

  lemma ShippedNone(current: string)
    ensures Shipped([], [], 0, current)
  {}

  /** A File that is remote under an empty path is so under the path `file://`, and keeps it. */
  lemma RemoteKeepsPath(env: Env, w: World, f: FileData, current: string, depth: nat)
    requires SourceOf(f.(path := "")).Remote? && f.path == "file://" && !("file:" <= current)
    ensures Upload(env, w, File(f, []), current, depth) == Done(File(f, []), w, 0)
    ensures !AllEmptied(Files(File(f, [])))
  {
    hide Index;
    assert Files(File(f, []))[0] == f;
  }

  /** For every tree: the count is the number of Files that were not remote, and all are remote after. */
  lemma {:induction false} UploadShips(env: Env, w: World, v: Value, current: string, depth: nat)
    requires ShockServes(env) && Upload(env, w, v, current, depth).Done?
    ensures var r := Upload(env, w, v, current, depth); Shipped(Files(v), Files(r.value), r.count, current)
    decreases v
  {
    hide Shipped, ShockServes;
    match v
    case Scalar(_) => ShippedNone(current);
    case File(f, secondary) =>
      ShippedFile(env, w, f, current);
      var r := UploadFile(env, w, f, current);
      UploadAllShips(env, r.world, secondary, current, depth);
      var r2 := UploadAll(env, r.world, secondary, current, depth);
      ShippedConcat([f], [r.value], r.count, FilesAll(secondary), FilesAll(r2.value), r2.count, current);
    case Array(items) => UploadAllShips(env, w, items, current, depth);
    case Record(_, fields) => UploadAllShips(env, w, fields, current, depth);
    case Directory(_, Listing(listing)) => UploadAllShips(env, w, listing, current, depth);
    case Directory(d, Unlisted) => DirectoryShips(env, w, DirPath(env, d), current, depth);
  }

  lemma {:induction false} UploadAllShips(env: Env, w: World, vs: seq<Value>, current: string, depth: nat)
    requires ShockServes(env) && UploadAll(env, w, vs, current, depth).Done?
    ensures var r := UploadAll(env, w, vs, current, depth); Shipped(FilesAll(vs), FilesAll(r.value), r.count, current)
    decreases vs
  {
    hide Shipped, ShockServes;
    if vs == [] {
      ShippedNone(current);
    } else {
      UploadShips(env, w, vs[0], current, depth);
      var r := Upload(env, w, vs[0], current, depth);
      UploadAllShips(env, r.world, vs[1..], current, depth);
      var r2 := UploadAll(env, r.world, vs[1..], current, depth);
      ShippedConcat(Files(vs[0]), Files(r.value), r.count, FilesAll(vs[1..]), FilesAll(r2.value), r2.count, current);
    }
  }

  function ListingFiles(listing: Listing): seq<FileData> {
    if listing.Listing? then FilesAll(listing.items) else []
  }

  lemma FilePrefix(current: string)
    ensures "file:" <= current <==> "file:" <= TrimSuffix(current, "/") + "/"
  {
    var t := TrimSuffix(current, "/");
    if t != current { assert current == t + "/"; }
    if "file:" <= t + "/" {
      assert (t + "/")[4] == ':';
      assert |t| >= 5 && t[..5] == (t + "/")[..5] == "file:";
    }
  }

  lemma {:induction false} DirectoryShips(env: Env, w: World, path: string, current: string, depth: nat)
    requires ShockServes(env) && UploadDirectory(env, w, path, current, depth).Done?
    ensures var r := UploadDirectory(env, w, path, current, depth); Shipped([], ListingFiles(r.value), r.count, current)
    decreases depth, 1, 0
  {
    var fixed, slashed := Join(current, path), TrimSuffix(current, "/") + "/";
    hide Shipped, ShockServes, TrimSuffix, Join, Locate;
    var names := env.children(w.files, w.dirs, Locate(env.cwd, fixed));
    EntriesShip(env, w, names, fixed, slashed, depth);
    FilePrefix(current);
    SameSettled([], ListingFiles(UploadDirectory(env, w, path, current, depth).value),
                UploadDirectory(env, w, path, current, depth).count, slashed, current);
  }

  lemma SameSettled(fs: seq<FileData>, fs': seq<FileData>, n: nat, a: string, b: string)
    requires Shipped(fs, fs', n, a) && ("file:" <= a <==> "file:" <= b)
    ensures Shipped(fs, fs', n, b)
  {
    hide SourceOf, Remotes;
  }

  lemma {:induction false} EntriesShip(env: Env, w: World, names: seq<string>, dir: string, current: string, depth: nat)
    requires ShockServes(env) && depth > 0 && UploadEntries(env, w, names, dir, current, depth).Done?
    ensures var r := UploadEntries(env, w, names, dir, current, depth); Shipped([], FilesAll(r.value), r.count, current)
    decreases depth, 0, |names|
  {
    hide Shipped, ShockServes, HasSuffix, Join, UploadEntry;
    if names == [] {
      ShippedNone(current);
    } else if HasSuffix(names[0], ".md5") {
      EntriesShip(env, w, names[1..], dir, current, depth);
    } else {
      EntryShips(env, w, Join(dir, names[0]), current, depth);
      var r := UploadEntry(env, w, Join(dir, names[0]), current, depth);
      EntriesShip(env, r.world, names[1..], dir, current, depth);
      var r2 := UploadEntries(env, r.world, names[1..], dir, current, depth);
      var none: seq<FileData> := [];
      ShippedConcat(none, Files(r.value), r.count, none, FilesAll(r2.value), r2.count, current);
      assert none + none == none;
    }
  }

  lemma {:induction false} EntryShips(env: Env, w: World, entry: string, current: string, depth: nat)
    requires ShockServes(env) && depth > 0 && UploadEntry(env, w, entry, current, depth).Done?
    ensures var r := UploadEntry(env, w, entry, current, depth); Shipped([], Files(r.value), r.count, current)
    decreases depth, 0, 0
  {
    hide Shipped, ShockServes, UploadFile, Base, TrimPrefix, Locate;
    var place, relative := Locate(env.cwd, entry), TrimPrefix(entry, current);
    if place in w.dirs {
      DirectoryShips(env, w, relative, current, depth - 1);
    } else {
      FoundShips(env, w, relative, Base(relative), Base(entry), current);
      var f := UploadEntry(env, w, entry, current, depth).value.file;
      assert [f] + FilesAll([]) == [f];
    }
  }

  lemma {:induction false} FoundShips(env: Env, w: World, path: string, name: string, name': string, current: string)
    requires ShockServes(env) && UploadFile(env, w, FileData("", "", path, name, ""), current).Done?
    ensures var r := UploadFile(env, w, FileData("", "", path, name, ""), current);
            Shipped([], [r.value.(path := "", basename := name')], r.count, current)
  {
    var f := FileData("", "", path, name, "");
    UploadFileCarries(env, w, f, current);
    assert !SourceOf(f).Remote?;
    hide UploadFile, Meaning, NodeUrl, Plain, UploadName;
  }

  // ----- Uploading again -----

  /** A tree of listed directories and remote Files is left as it is. */
  lemma {:induction false} UploadSettled(env: Env, w: World, v: Value, current: string, depth: nat)
    requires Listed(v) && AllSettled(current, Files(v))
    ensures Upload(env, w, v, current, depth) == Done(v, w, 0)
    decreases v
  {
    hide Settled;
    match v
    case Scalar(_) =>
    case File(f, secondary) =>
      SettledConcat(current, [f], FilesAll(secondary));
      UploadFileSettled(env, w, f, current);
      UploadAllSettled(env, w, secondary, current, depth);
    case Array(items) => UploadAllSettled(env, w, items, current, depth);
    case Record(_, fields) => UploadAllSettled(env, w, fields, current, depth);
    case Directory(_, Listing(listing)) => UploadAllSettled(env, w, listing, current, depth);
  }

  lemma {:induction false} UploadAllSettled(env: Env, w: World, vs: seq<Value>, current: string, depth: nat)
    requires ListedAll(vs) && AllSettled(current, FilesAll(vs))
    ensures UploadAll(env, w, vs, current, depth) == Done(vs, w, 0)
    decreases vs
  {
    hide Settled;
    if vs != [] {
      SettledConcat(current, Files(vs[0]), FilesAll(vs[1..]));
      UploadSettled(env, w, vs[0], current, depth);
      UploadAllSettled(env, w, vs[1..], current, depth);
      assert [vs[0]] + vs[1..] == vs;
    }
  }

  lemma UploadFileSettled(env: Env, w: World, f: FileData, current: string)
    requires AllSettled(current, [f])
    ensures UploadFile(env, w, f, current) == Done(f, w, 0)
  {
    assert Settled(current, [f][0]);
  }

  lemma SettledConcat(current: string, a: seq<FileData>, b: seq<FileData>)
    requires AllSettled(current, a + b)
    ensures AllSettled(current, a) && AllSettled(current, b)
  {
    hide Settled;
    assert forall i :: 0 <= i < |a| ==> a[i] == (a + b)[i];
    assert forall i :: 0 <= i < |b| ==> b[i] == (a + b)[|a| + i];
  }

  // ----- Directories that come out listed -----

  /** Some entry is more than a checksum file. */
  predicate AnyEntry(names: seq<string>) {
    exists i :: 0 <= i < |names| && !HasSuffix(names[i], ".md5")
  }

  /** On disk, neither the directory nor any below it is without entries. */
  predicate PopulatedDir(env: Env, w: World, path: string, current: string, depth: nat)
    decreases depth, 1, 0
  {
    var fixed := Join(current, path);
    var names := env.children(w.files, w.dirs, Locate(env.cwd, fixed));
    depth > 0 && AnyEntry(names) && PopulatedEntries(env, w, names, fixed, TrimSuffix(current, "/") + "/", depth)
  }

  predicate PopulatedEntries(env: Env, w: World, names: seq<string>, dir: string, current: string, depth: nat)
    requires depth > 0
    decreases depth, 0, |names|
  {
    names == [] || (PopulatedEntries(env, w, names[1..], dir, current, depth)
                    && (HasSuffix(names[0], ".md5") || PopulatedEntry(env, w, Join(dir, names[0]), current, depth)))
  }

  predicate PopulatedEntry(env: Env, w: World, entry: string, current: string, depth: nat)
    requires depth > 0
    decreases depth, 0, 0
  {
    Locate(env.cwd, entry) in w.dirs ==> PopulatedDir(env, w, TrimPrefix(entry, current), current, depth - 1)
  }

  /** Every unlisted directory of the tree is populated on disk. */
  predicate Populated(env: Env, w: World, v: Value, current: string, depth: nat)
    decreases v
  {
    match v
    case Scalar(_) => true
    case File(_, secondary) => PopulatedAll(env, w, secondary, current, depth)
    case Array(items) => PopulatedAll(env, w, items, current, depth)
    case Record(_, fields) => PopulatedAll(env, w, fields, current, depth)
    case Directory(_, Listing(listing)) => PopulatedAll(env, w, listing, current, depth)
    case Directory(d, Unlisted) => PopulatedDir(env, w, DirPath(env, d), current, depth)
  }

  predicate PopulatedAll(env: Env, w: World, vs: seq<Value>, current: string, depth: nat)
    decreases vs
  {
    vs == [] || (Populated(env, w, vs[0], current, depth) && PopulatedAll(env, w, vs[1..], current, depth))
  }

  /** The world as far as the disk goes. */
  function Disk(w: World): World {
    w.(web := map[], tick := 0)
  }

  lemma {:induction false} FileKeepsDisk(env: Env, w: World, f: FileData, current: string)
    ensures Disk(UploadFile(env, w, f, current).world) == Disk(w)
  {
    hide SourceOf, UploadName, Locate, FullPath, NodeUrl;
  }

  /** Exactly the trees that are populated come out with every directory listed. */
  lemma {:induction false} ListedIffPopulated(env: Env, w: World, v: Value, current: string, depth: nat)
    requires Upload(env, w, v, current, depth).Done?
    ensures var r := Upload(env, w, v, current, depth);
            Disk(r.world) == Disk(w) && (Listed(r.value) <==> Populated(env, Disk(w), v, current, depth))
    decreases v
  {
    hide Disk, UploadFile, DirPath, UploadDirectory, PopulatedDir;
    match v
    case Scalar(_) =>
    case File(f, secondary) =>
      FileKeepsDisk(env, w, f, current);
      AllListedIffPopulated(env, UploadFile(env, w, f, current).world, secondary, current, depth);
    case Array(items) => AllListedIffPopulated(env, w, items, current, depth);
    case Record(_, fields) => AllListedIffPopulated(env, w, fields, current, depth);
    case Directory(_, Listing(listing)) => AllListedIffPopulated(env, w, listing, current, depth);
    case Directory(d, Unlisted) => DirListedIffPopulated(env, w, DirPath(env, d), current, depth);
  }

  lemma {:induction false} AllListedIffPopulated(env: Env, w: World, vs: seq<Value>, current: string, depth: nat)
    requires UploadAll(env, w, vs, current, depth).Done?
    ensures var r := UploadAll(env, w, vs, current, depth);
            Disk(r.world) == Disk(w) && (ListedAll(r.value) <==> PopulatedAll(env, Disk(w), vs, current, depth))
    decreases vs
  {
    hide Disk;
    if vs != [] {
      ListedIffPopulated(env, w, vs[0], current, depth);
      AllListedIffPopulated(env, Upload(env, w, vs[0], current, depth).world, vs[1..], current, depth);
    }
  }

  lemma {:induction false} DirListedIffPopulated(env: Env, w: World, path: string, current: string, depth: nat)
    requires UploadDirectory(env, w, path, current, depth).Done?
    ensures var r := UploadDirectory(env, w, path, current, depth);
            Disk(r.world) == Disk(w)
            && (r.value.Listing? && ListedAll(r.value.items) <==> PopulatedDir(env, Disk(w), path, current, depth))
    decreases depth, 1, 0
  {
    var fixed := Join(current, path);
    var names := env.children(w.files, w.dirs, Locate(env.cwd, fixed));
    assert names == env.children(Disk(w).files, Disk(w).dirs, Locate(env.cwd, fixed));
    EntriesListedIffPopulated(env, w, names, fixed, TrimSuffix(current, "/") + "/", depth);
    hide Disk, Join, Locate, AnyEntry, TrimSuffix, ListedAll;
  }

  lemma {:induction false} EntriesListedIffPopulated(env: Env, w: World, names: seq<string>, dir: string,
                                                     current: string, depth: nat)
    requires depth > 0 && UploadEntries(env, w, names, dir, current, depth).Done?
    ensures var r := UploadEntries(env, w, names, dir, current, depth);
            && Disk(r.world) == Disk(w) && (r.value != [] <==> AnyEntry(names))
            && (ListedAll(r.value) <==> PopulatedEntries(env, Disk(w), names, dir, current, depth))
    decreases depth, 0, |names|
  {
    hide Disk, Join, HasSuffix, UploadEntry, PopulatedEntry, AnyEntry;
    if names == [] {
      NoEntry();
    } else {
      EntryAdds(names);
      if HasSuffix(names[0], ".md5") {
        EntriesListedIffPopulated(env, w, names[1..], dir, current, depth);
      } else {
        EntryListedIffPopulated(env, w, Join(dir, names[0]), current, depth);
        var w1 := UploadEntry(env, w, Join(dir, names[0]), current, depth).world;
        EntriesListedIffPopulated(env, w1, names[1..], dir, current, depth);
      }
    }
  }

  lemma NoEntry()
    ensures !AnyEntry([])
  {}

  lemma EntryAdds(names: seq<string>)
    requires names != []
    ensures AnyEntry(names) <==> !HasSuffix(names[0], ".md5") || AnyEntry(names[1..])
  {
    hide HasSuffix;
    assert names == [names[0]] + names[1..];
  }

  lemma {:induction false} EntryListedIffPopulated(env: Env, w: World, entry: string, current: string, depth: nat)
    requires depth > 0 && UploadEntry(env, w, entry, current, depth).Done?
    ensures var r := UploadEntry(env, w, entry, current, depth);
            Disk(r.world) == Disk(w) && (Listed(r.value) <==> PopulatedEntry(env, Disk(w), entry, current, depth))
    decreases depth, 0, 0
  {
    var place, relative := Locate(env.cwd, entry), TrimPrefix(entry, current);
    assert Disk(w).dirs == w.dirs;
    hide Disk, UploadFile, Base, TrimPrefix, Locate, UploadDirectory, PopulatedDir;
    if place in w.dirs {
      DirListedIffPopulated(env, w, relative, current, depth - 1);
    } else {
      FileKeepsDisk(env, w, FileData("", "", relative, Base(relative), ""), current);
    }
  }

  /** A second upload of what an upload returned counts nothing and changes nothing. */
  lemma {:induction false} UploadTwice(env: Env, w: World, v: Value, current: string, depth: nat)
    requires ShockServes(env) && Upload(env, w, v, current, depth).Done? && Populated(env, Disk(w), v, current, depth)
    ensures var r := Upload(env, w, v, current, depth);
            forall w' :: Upload(env, w', r.value, current, depth) == Done(r.value, w', 0)
  {
    var r := Upload(env, w, v, current, depth);
    UploadShips(env, w, v, current, depth);
    ListedIffPopulated(env, w, v, current, depth);
    hide Upload, Files, Listed, Populated, AllSettled, Disk;
    forall w' ensures Upload(env, w', r.value, current, depth) == Done(r.value, w', 0) {
      UploadSettled(env, w', r.value, current, depth);
    }
  }
}
