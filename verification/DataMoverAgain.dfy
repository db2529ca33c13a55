/** Exactly when an upload can be repeated: directories without entries, and where the second upload looks for them. */
module DataMoverAgain {
  import opened GoPath
  import opened DataMover
  import opened DataMoverPaths
  import opened DataMoverUpload
  import opened DataMoverRepeat

  /** A directory without entries other than checksum files. */
  ghost predicate Bare(env: Env, w: World, place: Place) {
    place in w.dirs && !AnyEntry(env.children(w.files, w.dirs, place))
  }

  // ----- An upload that changes nothing -----

  // No count, no change.
  lemma {:induction false} ZeroKeeps(env: Env, w: World, v: Value, current: string, depth: nat)
    ensures var r := Upload(env, w, v, current, depth); r.Done? && r.count == 0 ==> r.world == w
    decreases v
  {
    hide UploadDirectory, DirPath;
    match v
    case Scalar(_) =>
    case File(f, secondary) =>
      FileZeroKeeps(env, w, f, current);
      var r := UploadFile(env, w, f, current);
      hide UploadFile;
      if r.Done? { AllZeroKeeps(env, r.world, secondary, current, depth); }
    case Array(items) => AllZeroKeeps(env, w, items, current, depth);
    case Record(_, fields) => AllZeroKeeps(env, w, fields, current, depth);
    case Directory(_, Listing(listing)) => AllZeroKeeps(env, w, listing, current, depth);
    case Directory(d, Unlisted) => DirZeroKeeps(env, w, DirPath(env, d), current, depth);
  }

  lemma {:induction false} AllZeroKeeps(env: Env, w: World, vs: seq<Value>, current: string, depth: nat)
    ensures var r := UploadAll(env, w, vs, current, depth); r.Done? && r.count == 0 ==> r.world == w
    decreases vs
  {
    if vs != [] {
      ZeroKeeps(env, w, vs[0], current, depth);
      var r := Upload(env, w, vs[0], current, depth);
      hide Upload;
      if r.Done? { AllZeroKeeps(env, r.world, vs[1..], current, depth); }
    }
  }

  lemma FileZeroKeeps(env: Env, w: World, f: FileData, current: string)
    ensures var r := UploadFile(env, w, f, current); r.Done? && r.count == 0 ==> r.world == w
  {
    hide SourceOf, UploadName, Locate, FullPath, NodeUrl;
  }

  lemma {:induction false} DirZeroKeeps(env: Env, w: World, path: string, current: string, depth: nat)
    ensures var r := UploadDirectory(env, w, path, current, depth); r.Done? && r.count == 0 ==> r.world == w
    decreases depth, 1, 0
  {
    hide Join, Locate, TrimSuffix;
    if depth > 0 {
      var fixed := Join(current, path);
      EntriesZeroKeep(env, w, env.children(w.files, w.dirs, Locate(env.cwd, fixed)), fixed,
                      TrimSuffix(current, "/") + "/", depth);
    }
  }

  lemma {:induction false} EntriesZeroKeep(env: Env, w: World, names: seq<string>, dir: string, s: string, depth: nat)
    requires depth > 0
    ensures var r := UploadEntries(env, w, names, dir, s, depth); r.Done? && r.count == 0 ==> r.world == w
    decreases depth, 0, |names|
  {
    hide Join, HasSuffix, UploadEntry;
    if names != [] {
      if HasSuffix(names[0], ".md5") {
        EntriesZeroKeep(env, w, names[1..], dir, s, depth);
      } else {
        EntryZeroKeeps(env, w, Join(dir, names[0]), s, depth);
        var r := UploadEntry(env, w, Join(dir, names[0]), s, depth);
        if r.Done? { EntriesZeroKeep(env, r.world, names[1..], dir, s, depth); }
      }
    }
  }

  lemma {:induction false} EntryZeroKeeps(env: Env, w: World, entry: string, s: string, depth: nat)
    requires depth > 0
    ensures var r := UploadEntry(env, w, entry, s, depth); r.Done? && r.count == 0 ==> r.world == w
    decreases depth, 0, 0
  {
    hide Locate, TrimPrefix, Base, UploadFile, UploadDirectory;
    var relative := TrimPrefix(entry, s);
    DirZeroKeeps(env, w, relative, s, depth - 1);
    FileZeroKeeps(env, w, FileData("", "", relative, Base(relative), ""), s);
  }

  // ----- Directories without entries -----

  lemma {:induction false} NoEntries(env: Env, w: World, names: seq<string>, dir: string, s: string, depth: nat)
    requires depth > 0 && !AnyEntry(names)
    ensures UploadEntries(env, w, names, dir, s, depth) == Done([], w, 0)
    decreases |names|
  {
    hide Join, HasSuffix, UploadEntry, AnyEntry;
    if names != [] {
      EntryAdds(names);
      NoEntries(env, w, names[1..], dir, s, depth);
    }
  }

  /** A directory comes out unlisted exactly if it is bare. */
  lemma {:induction false} UnlistedIffBare(env: Env, w: World, path: string, current: string, depth: nat)
    requires depth > 0
    ensures UploadDirectory(env, w, path, current, depth) == Done(Unlisted, w, 0)
       <==> Bare(env, w, Locate(env.cwd, Join(current, path)))
    ensures var r := UploadDirectory(env, w, path, current, depth);
            r.Done? ==> (r.value.Unlisted? <==> Bare(env, w, Locate(env.cwd, Join(current, path))))
  {
    var fixed, s := Join(current, path), TrimSuffix(current, "/") + "/";
    var place := Locate(env.cwd, fixed);
    hide Join, Locate, TrimSuffix, AnyEntry, PopulatedEntries, ListedAll;
    if place in w.dirs {
      var names := env.children(w.files, w.dirs, place);
      if !AnyEntry(names) { NoEntries(env, w, names, fixed, s, depth); }
      if UploadEntries(env, w, names, fixed, s, depth).Done? {
        EntriesListedIffPopulated(env, w, names, fixed, s, depth);
      }
    }
  }

  // ----- Trees that are left alone -----

  /** Every unlisted directory of the tree has a path, and is bare where that path is looked for. */
  ghost predicate Still(env: Env, w: World, v: Value, current: string)
    decreases v
  {
    match v
    case Scalar(_) => true
    case File(_, secondary) => AllStill(env, w, secondary, current)
    case Array(items) => AllStill(env, w, items, current)
    case Record(_, fields) => AllStill(env, w, fields, current)
    case Directory(_, Listing(listing)) => AllStill(env, w, listing, current)
    case Directory(d, Unlisted) => d.path != "" && Bare(env, w, Locate(env.cwd, Join(current, d.path)))
  }

  ghost predicate AllStill(env: Env, w: World, vs: seq<Value>, current: string)
    decreases vs
  {
    vs == [] || (Still(env, w, vs[0], current) && AllStill(env, w, vs[1..], current))
  }

  /** A tree of remote Files is left as it is exactly if its unlisted directories are bare. */
  lemma {:induction false} StillIff(env: Env, w: World, v: Value, current: string, depth: nat)
    requires AllSettled(current, Files(v)) && depth > 0
    ensures Upload(env, w, v, current, depth) == Done(v, w, 0) <==> Still(env, w, v, current)
    decreases v
  {
    hide Settled, UploadDirectory, Bare, Locate, Join, UploadFile;
    match v
    case Scalar(_) =>
    case File(f, secondary) =>
      SettledConcat(current, [f], FilesAll(secondary));
      UploadFileSettled(env, w, f, current);
      AllStillIff(env, w, secondary, current, depth);
    case Array(items) => AllStillIff(env, w, items, current, depth);
    case Record(_, fields) => AllStillIff(env, w, fields, current, depth);
    case Directory(_, Listing(listing)) => AllStillIff(env, w, listing, current, depth);
    case Directory(d, Unlisted) => UnlistedIffBare(env, w, d.path, current, depth);
  }

  lemma {:induction false} AllStillIff(env: Env, w: World, vs: seq<Value>, current: string, depth: nat)
    requires AllSettled(current, FilesAll(vs)) && depth > 0
    ensures UploadAll(env, w, vs, current, depth) == Done(vs, w, 0) <==> AllStill(env, w, vs, current)
    decreases vs
  {
    hide Settled, AllSettled;
    if vs != [] {
      SettledConcat(current, Files(vs[0]), FilesAll(vs[1..]));
      StillIff(env, w, vs[0], current, depth);
      AllStillIff(env, w, vs[1..], current, depth);
      ZeroKeeps(env, w, vs[0], current, depth);
      hide Upload, Files, FilesAll, Still, AllStill;
      HeadUnchanged(env, w, vs, current, depth);
    }
  }

  lemma HeadUnchanged(env: Env, w: World, vs: seq<Value>, current: string, depth: nat)
    requires vs != []
    requires var r := Upload(env, w, vs[0], current, depth); r.Done? && r.count == 0 ==> r.world == w
    ensures UploadAll(env, w, vs, current, depth) == Done(vs, w, 0) <==>
            Upload(env, w, vs[0], current, depth) == Done(vs[0], w, 0)
            && UploadAll(env, w, vs[1..], current, depth) == Done(vs[1..], w, 0)
  {
    hide Upload;
    assert [vs[0]] + vs[1..] == vs;
    var r := Upload(env, w, vs[0], current, depth);
    if UploadAll(env, w, vs, current, depth) == Done(vs, w, 0) {
      var r2 := UploadAll(env, r.world, vs[1..], current, depth);
      assert ([r.value] + r2.value)[0] == r.value && ([r.value] + r2.value)[1..] == r2.value;
    }
  }

  // ----- What the second upload will meet, from the first tree and the disk -----

  /** Every bare directory below the one at `path` is bare where its full path, joined to `top`, leads. */
  ghost predicate RepeatableDir(env: Env, w: World, path: string, s: string, top: string, depth: nat)
    decreases depth, 1, 0
  {
    var fixed := Join(s, path);
    depth > 0 ==>
      RepeatableEntries(env, w, env.children(w.files, w.dirs, Locate(env.cwd, fixed)), fixed,
                        TrimSuffix(s, "/") + "/", top, depth)
  }

  ghost predicate RepeatableEntries(env: Env, w: World, names: seq<string>, dir: string, s: string, top: string,
                                    depth: nat)
    requires depth > 0
    decreases depth, 0, |names|
  {
    names == [] || (RepeatableEntries(env, w, names[1..], dir, s, top, depth)
                    && (HasSuffix(names[0], ".md5") || RepeatableEntry(env, w, Join(dir, names[0]), s, top, depth)))
  }

  ghost predicate RepeatableEntry(env: Env, w: World, entry: string, s: string, top: string, depth: nat)
    requires depth > 0
    decreases depth, 0, 0
  {
    Locate(env.cwd, entry) in w.dirs ==>
      if Bare(env, w, Locate(env.cwd, Join(s, TrimPrefix(entry, s))))
        then Bare(env, w, Locate(env.cwd, Join(top, entry)))
      else RepeatableDir(env, w, TrimPrefix(entry, s), s, top, depth - 1)
  }

  ghost predicate Repeatable(env: Env, w: World, v: Value, current: string, depth: nat)
    decreases v
  {
    match v
    case Scalar(_) => true
    case File(_, secondary) => AllRepeatable(env, w, secondary, current, depth)
    case Array(items) => AllRepeatable(env, w, items, current, depth)
    case Record(_, fields) => AllRepeatable(env, w, fields, current, depth)
    case Directory(_, Listing(listing)) => AllRepeatable(env, w, listing, current, depth)
    case Directory(d, Unlisted) => RepeatableDir(env, w, DirPath(env, d), current, current, depth)
  }

  ghost predicate AllRepeatable(env: Env, w: World, vs: seq<Value>, current: string, depth: nat)
    decreases vs
  {
    vs == [] || (Repeatable(env, w, vs[0], current, depth) && AllRepeatable(env, w, vs[1..], current, depth))
  }

  // ----- The first upload leaves such a tree -----

  lemma {:induction false} NoEntriesRepeatable(env: Env, w: World, names: seq<string>, dir: string, s: string,
                                               top: string, depth: nat)
    requires depth > 0 && !AnyEntry(names)
    ensures RepeatableEntries(env, w, names, dir, s, top, depth)
    decreases |names|
  {
    hide Join, HasSuffix, RepeatableEntry, AnyEntry;
    if names != [] {
      EntryAdds(names);
      NoEntriesRepeatable(env, w, names[1..], dir, s, top, depth);
    }
  }

  lemma {:induction false} EntryStill(env: Env, w: World, entry: string, s: string, top: string, depth: nat)
    requires depth > 0 && entry != "" && UploadEntry(env, w, entry, s, depth).Done?
    ensures Still(env, Disk(w), UploadEntry(env, w, entry, s, depth).value, top)
            <==> RepeatableEntry(env, Disk(w), entry, s, top, depth)
    decreases depth, 0, 0
  {
    var relative := TrimPrefix(entry, s);
    assert Disk(w).dirs == w.dirs && Disk(w).files == w.files;
    hide Locate, TrimPrefix, Base, UploadFile, UploadDirectory, Join, AnyEntry, RepeatableDir, Disk;
    if Locate(env.cwd, entry) in w.dirs {
      DirStill(env, w, relative, s, top, depth - 1);
      if depth > 1 { UnlistedIffBare(env, w, relative, s, depth - 1); } else { NoDepth(env, w, relative, s); }
    }
  }

  lemma NoDepth(env: Env, w: World, path: string, s: string)
    ensures UploadDirectory(env, w, path, s, 0).Failed?
  {}

  lemma {:induction false} EntriesStill(env: Env, w: World, names: seq<string>, dir: string, s: string, top: string,
                                        depth: nat)
    requires depth > 0 && dir != "" && UploadEntries(env, w, names, dir, s, depth).Done?
    ensures AllStill(env, Disk(w), UploadEntries(env, w, names, dir, s, depth).value, top)
       <==> RepeatableEntries(env, Disk(w), names, dir, s, top, depth)
    decreases depth, 0, |names|
  {
    hide Join, HasSuffix, UploadEntry, Disk, RepeatableEntry, Still;
    if names != [] {
      if HasSuffix(names[0], ".md5") {
        EntriesStill(env, w, names[1..], dir, s, top, depth);
      } else {
        var entry := Join(dir, names[0]);
        JoinNotEmpty(dir, names[0]);
        EntryStill(env, w, entry, s, top, depth);
        EntryListedIffPopulated(env, w, entry, s, depth);
        var r := UploadEntry(env, w, entry, s, depth);
        EntriesStill(env, r.world, names[1..], dir, s, top, depth);
        var items := UploadEntries(env, r.world, names[1..], dir, s, depth).value;
        assert ([r.value] + items)[1..] == items;
      }
    }
  }

  lemma {:induction false} JoinNotEmpty(a: string, b: string)
    requires a != "" || b != ""
    ensures Join(a, b) != ""
  {
    CleanNotEmpty(a);
    CleanNotEmpty(b);
    CleanNotEmpty(a + "/" + b);
  }

  lemma {:induction false} DirStill(env: Env, w: World, path: string, s: string, top: string, depth: nat)
    requires (s != "" || path != "")
    ensures var r := UploadDirectory(env, w, path, s, depth);
            r.Done? ==> ((r.value.Listing? ==> AllStill(env, Disk(w), r.value.items, top))
                         <==> RepeatableDir(env, Disk(w), path, s, top, depth))
    decreases depth, 1, 0
  {
    var fixed, slashed := Join(s, path), TrimSuffix(s, "/") + "/";
    var place := Locate(env.cwd, fixed);
    assert Disk(w).dirs == w.dirs && Disk(w).files == w.files;
    JoinNotEmpty(s, path);
    hide Join, Locate, TrimSuffix, AnyEntry, Disk, RepeatableEntries;
    if depth > 0 && place in w.dirs {
      var names := env.children(w.files, w.dirs, place);
      var r := UploadEntries(env, w, names, fixed, slashed, depth);
      if r.Done? {
        EntriesStill(env, w, names, fixed, slashed, top, depth);
        EntriesListedIffPopulated(env, w, names, fixed, slashed, depth);
        if !AnyEntry(names) { NoEntriesRepeatable(env, Disk(w), names, fixed, slashed, top, depth); }
      }
    }
  }

  lemma {:induction false} UploadStill(env: Env, w: World, v: Value, current: string, depth: nat)
    requires Upload(env, w, v, current, depth).Done?
    ensures Still(env, Disk(w), Upload(env, w, v, current, depth).value, current)
            <==> Repeatable(env, Disk(w), v, current, depth)
    decreases v
  {
    hide Disk, UploadFile, DirPath, UploadDirectory, RepeatableDir, Locate, Join, Bare;
    match v
    case Scalar(_) =>
    case File(f, secondary) =>
      FileKeepsDisk(env, w, f, current);
      AllUploadStill(env, UploadFile(env, w, f, current).world, secondary, current, depth);
    case Array(items) => AllUploadStill(env, w, items, current, depth);
    case Record(_, fields) => AllUploadStill(env, w, fields, current, depth);
    case Directory(_, Listing(listing)) => AllUploadStill(env, w, listing, current, depth);
    case Directory(d, Unlisted) =>
      DirStill(env, w, DirPath(env, d), current, current, depth);
      FolderBare(env, w, DirPath(env, d), current, depth);
  }

  lemma FolderBare(env: Env, w: World, path: string, current: string, depth: nat)
    ensures var r := UploadDirectory(env, w, path, current, depth);
            r.Done? && r.value.Unlisted? ==> Bare(env, Disk(w), Locate(env.cwd, Join(current, path)))
  {
    if depth > 0 { UnlistedIffBare(env, w, path, current, depth); }
    assert Disk(w).dirs == w.dirs && Disk(w).files == w.files;
    hide Join, Locate, AnyEntry, UploadEntries;
  }

  lemma {:induction false} AllUploadStill(env: Env, w: World, vs: seq<Value>, current: string, depth: nat)
    requires UploadAll(env, w, vs, current, depth).Done?
    ensures AllStill(env, Disk(w), UploadAll(env, w, vs, current, depth).value, current)
            <==> AllRepeatable(env, Disk(w), vs, current, depth)
    decreases vs
  {
    hide Disk;
    if vs != [] {
      UploadStill(env, w, vs[0], current, depth);
      ListedIffPopulated(env, w, vs[0], current, depth);
      var r := Upload(env, w, vs[0], current, depth);
      AllUploadStill(env, r.world, vs[1..], current, depth);
      var rest := UploadAll(env, r.world, vs[1..], current, depth).value;
      assert ([r.value] + rest)[1..] == rest;
    }
  }

  lemma {:induction false} StillOnDisk(env: Env, w: World, w': World, v: Value, current: string)
    requires Disk(w') == Disk(w)
    ensures Still(env, w', v, current) <==> Still(env, Disk(w), v, current)
    decreases v
  {
    assert Disk(w).dirs == w.dirs && Disk(w).files == w.files && Disk(w').dirs == w'.dirs && Disk(w').files == w'.files;
    hide Disk, Locate, Join, AnyEntry;
    match v
    case Scalar(_) =>
    case File(_, secondary) => AllStillOnDisk(env, w, w', secondary, current);
    case Array(items) => AllStillOnDisk(env, w, w', items, current);
    case Record(_, fields) => AllStillOnDisk(env, w, w', fields, current);
    case Directory(_, Listing(listing)) => AllStillOnDisk(env, w, w', listing, current);
    case Directory(_, Unlisted) =>
  }

  lemma {:induction false} AllStillOnDisk(env: Env, w: World, w': World, vs: seq<Value>, current: string)
    requires Disk(w') == Disk(w)
    ensures AllStill(env, w', vs, current) <==> AllStill(env, Disk(w), vs, current)
    decreases vs
  {
    hide Disk;
    if vs != [] {
      StillOnDisk(env, w, w', vs[0], current);
      AllStillOnDisk(env, w, w', vs[1..], current);
    }
  }

  /**
    * For every tree and every current path: the second upload, in any world with the same disk, returns 0
    * and changes nothing exactly if every bare directory below an unlisted one is bare also where its full
    * path, joined to the current path once more, leads.
    */
  lemma {:induction false} SecondUploadIff(env: Env, w: World, v: Value, current: string, depth: nat, w': World)
    requires ShockServes(env) && Upload(env, w, v, current, depth).Done? && depth > 0 && Disk(w') == Disk(w)
    ensures var r := Upload(env, w, v, current, depth);
            Upload(env, w', r.value, current, depth) == Done(r.value, w', 0)
            <==> Repeatable(env, Disk(w), v, current, depth)
  {
    var r := Upload(env, w, v, current, depth);
    UploadShips(env, w, v, current, depth);
    hide Upload, Files, Still, Repeatable, AllSettled, Disk, ShockServes;
    StillIff(env, w', r.value, current, depth);
    StillOnDisk(env, w, w', r.value, current);
    UploadStill(env, w, v, current, depth);
  }
}
