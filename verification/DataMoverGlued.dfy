/** The same condition in places: no paths, only where directories are on disk. */
module DataMoverGlued {
  import opened GoPath
  import opened GoPathRelative
  import opened DataMover
  import opened DataMoverPaths
  import opened DataMoverUpload
  import opened DataMoverDownload
  import opened DataMoverRepeat
  import opened DataMoverDisk
  import opened DataMoverScope
  import opened DataMoverAgain

  /** A bare directory strictly below the place, no name on the way being that of a checksum file. */
  ghost predicate BareBelow(env: Env, w: World, place: Place, q: Place) {
    Bare(env, w, q) && place < q && forall i :: |place| <= i < |q| ==> !HasSuffix(q[i], ".md5")
  }

  /** Where the full path of a directory leads when joined to `top`. */
  function GluedPlace(cwd: Place, top: string, dir: string): Place {
    if top == "" then Locate(cwd, dir) else Reduce(true, Locate(cwd, top), Parse(dir).parts)
  }

  /** Every bare directory below the place is bare at the glued place too. */
  ghost predicate AllGlued(env: Env, w: World, place: Place, glued: Place) {
    forall q :: BareBelow(env, w, place, q) ==> Bare(env, w, glued + q[|place|..])
  }

  ghost predicate SomeGlued(env: Env, w: World, place: Place, glued: Place, names: seq<string>) {
    forall q :: BareBelow(env, w, place, q) && q[|place|] in names ==> Bare(env, w, glued + q[|place|..])
  }

  // ----- Paths -----

  lemma {:induction false} GluedNext(cwd: Place, top: string, s: string, path: string, name: string)
    requires (s != "" || path != "") && Plain(name)
    ensures var dir := Join(s, path);
            && Locate(cwd, Join(top, Join(dir, name))) == GluedPlace(cwd, top, dir) + [name]
            && GluedPlace(cwd, top, Join(dir, name)) == GluedPlace(cwd, top, dir) + [name]
  {
    EntryIsBelow(cwd, s, path, name);
    var dir := Join(s, path);
    var f := Parse(dir);
    var q := Path(f.rooted, f.parts + [name]);
    NormalAppend(f, [name]);
    ParseRender(q);
    JoinIsClean(dir, name);
    if top == "" {
      assert Join("", Join(dir, name)) == Clean(Join(dir, name));
      ParseClean(Join(dir, name));
    } else {
      hide Locate, Join, Parse, Render, Split, Reduce, Normal, Plain;
      var base := Locate(cwd, top);
      ReduceRendered(true, base, q);
      LocateJoined(cwd, top, Render(q));
      ReduceConcat(true, base, f.parts, [name]);
      ReducePlain(true, Reduce(true, base, f.parts), name);
    }
  }

  // ----- One name -----

  // Below a bare directory only checksum names go on.
  lemma BareEnds(env: Env, w: World, p: Place, q: Place)
    requires Tidy(w) && Lists(env, w) && Bare(env, w, p) && q in w.dirs && p < q
    ensures HasSuffix(q[|p|], ".md5")
  {
    hide HasSuffix, AnyEntry, Tidy, Lists;
    NextListed(env, w, p, q);
    OnlyChecksums(env.children(w.files, w.dirs, p), q[|p|]);
  }

  lemma OnlyChecksums(names: seq<string>, n: string)
    requires !AnyEntry(names) && n in names
    ensures HasSuffix(n, ".md5")
  {
    hide HasSuffix;
  }

  lemma BareStep(env: Env, w: World, place: Place, n: string, q: Place)
    requires Tidy(w) && Lists(env, w) && !HasSuffix(n, ".md5")
    ensures place + [n] !in w.dirs ==> !(BareBelow(env, w, place, q) && q[|place|] == n)
    ensures Bare(env, w, place + [n]) ==> (BareBelow(env, w, place, q) && q[|place|] == n <==> q == place + [n])
    ensures place + [n] in w.dirs && !Bare(env, w, place + [n]) ==>
              (BareBelow(env, w, place, q) && q[|place|] == n <==> BareBelow(env, w, place + [n], q))
  {
    hide HasSuffix, AnyEntry, Tidy, Lists;
    var p := place + [n];
    if BareBelow(env, w, place, q) && q[|place|] == n {
      assert q[..|p|] == p;
      if p != q {
        DirsAbove(w, p, q);
        if Bare(env, w, p) { BareEnds(env, w, p, q); }
      }
    }
    if BareBelow(env, w, p, q) { assert q[|place|] == p[|place|] == n && place <= p < q; }
  }

  lemma GluedNowhere(env: Env, w: World, place: Place, glued: Place, n: string)
    requires Tidy(w) && Lists(env, w) && !HasSuffix(n, ".md5") && place + [n] !in w.dirs
    ensures SomeGlued(env, w, place, glued, [n])
  {
    hide HasSuffix, Bare, Tidy, Lists;
    forall q ensures !(BareBelow(env, w, place, q) && q[|place|] == n) { BareStep(env, w, place, n, q); }
  }

  lemma GluedBare(env: Env, w: World, place: Place, glued: Place, n: string)
    requires Tidy(w) && Lists(env, w) && !HasSuffix(n, ".md5") && Bare(env, w, place + [n])
    ensures SomeGlued(env, w, place, glued, [n]) <==> Bare(env, w, glued + [n])
  {
    hide HasSuffix, Bare, Tidy, Lists;
    var p := place + [n];
    forall q ensures BareBelow(env, w, place, q) && q[|place|] == n <==> q == p { BareStep(env, w, place, n, q); }
    assert p[|place|..] == [n];
    assert BareBelow(env, w, place, p) && p[|place|] in [n];
  }

  lemma GluedOn(env: Env, w: World, place: Place, glued: Place, n: string)
    requires Tidy(w) && Lists(env, w) && !HasSuffix(n, ".md5") && place + [n] in w.dirs && !Bare(env, w, place + [n])
    ensures SomeGlued(env, w, place, glued, [n]) <==> AllGlued(env, w, place + [n], glued + [n])
  {
    hide HasSuffix, Bare, Tidy, Lists;
    forall q
      ensures BareBelow(env, w, place, q) && q[|place|] == n <==> BareBelow(env, w, place + [n], q)
      ensures BareBelow(env, w, place + [n], q) ==> glued + [n] + q[|place + [n]|..] == glued + q[|place|..]
    {
      BareStep(env, w, place, n, q);
      if BareBelow(env, w, place + [n], q) { assert q[|place|..] == [n] + q[|place + [n]|..]; }
    }
    if SomeGlued(env, w, place, glued, [n]) {
      forall q | BareBelow(env, w, place + [n], q) ensures Bare(env, w, glued + [n] + q[|place + [n]|..]) {
        assert q[|place|] in [n];
      }
    }
  }

  lemma GluedSkipped(env: Env, w: World, place: Place, glued: Place, n: string)
    requires HasSuffix(n, ".md5")
    ensures SomeGlued(env, w, place, glued, [n])
  {
    hide HasSuffix, Bare;
  }

  lemma GluedBoth(env: Env, w: World, place: Place, glued: Place, names: seq<string>)
    requires names != []
    ensures SomeGlued(env, w, place, glued, names) <==>
            SomeGlued(env, w, place, glued, [names[0]]) && SomeGlued(env, w, place, glued, names[1..])
  {
    hide Bare, HasSuffix;
    assert forall n :: n in names <==> n in [names[0]] || n in names[1..];
  }

  lemma GluedListed(env: Env, w: World, place: Place, glued: Place)
    requires Tidy(w) && Lists(env, w) && place in w.dirs
    ensures SomeGlued(env, w, place, glued, env.children(w.files, w.dirs, place)) <==> AllGlued(env, w, place, glued)
  {
    hide AnyEntry, HasSuffix, Tidy, Lists;
    forall q | BareBelow(env, w, place, q) ensures q[|place|] in env.children(w.files, w.dirs, place) {
      NextListed(env, w, place, q);
    }
  }

  // ----- All the way down -----

  /** What the walk down a directory needs of the disk and of the paths. */
  ghost predicate Walkable(env: Env, w: World, path: string, s: string, top: string, depth: nat) {
    && Tidy(w) && Lists(env, w) && ListsPlain(env, w)
    && Reaches(env.cwd, s, path) && (top == "" || Anchored(s, Parse(Join(s, path))))
    && Deep(w, Locate(env.cwd, Join(s, path)), depth)
  }

  // Down to a directory with entries.
  lemma {:induction false} WalkOn(env: Env, w: World, path: string, s: string, top: string, name: string, depth: nat)
    requires Walkable(env, w, path, s, top, depth) && Plain(name) && depth > 0
    ensures var dir, slashed, relative := Join(s, path), WithSlash(s), RelativeAt(s, path, name);
            && Walkable(env, w, relative, slashed, top, depth - 1)
            && Locate(env.cwd, Join(dir, name))
               == Locate(env.cwd, Join(slashed, relative)) == Locate(env.cwd, dir) + [name]
            && GluedPlace(env.cwd, top, Join(slashed, relative)) == GluedPlace(env.cwd, top, dir) + [name]
            && Locate(env.cwd, Join(top, Join(dir, name))) == GluedPlace(env.cwd, top, dir) + [name]
            && TrimPrefix(Join(dir, name), slashed) == relative && WithSlash(slashed) == slashed
  {
    ReachesNext(env.cwd, s, path, name);
    GluedNext(env.cwd, top, s, path, name);
    DeepNext(w, Locate(env.cwd, Join(s, path)), name, depth);
    hide Tidy, Lists, ListsPlain, Reaches, Anchored, Deep, Locate, Join, Parse, Plain, Reduce, WithSlash;
  }

  lemma {:induction false} EntryGlued(env: Env, w: World, path: string, s: string, top: string, name: string,
                                      depth: nat)
    requires Walkable(env, w, path, s, top, depth) && Plain(name) && depth > 0 && !HasSuffix(name, ".md5")
    ensures var dir := Join(s, path);
            RepeatableEntry(env, w, Join(dir, name), WithSlash(s), top, depth) <==>
            SomeGlued(env, w, Locate(env.cwd, dir), GluedPlace(env.cwd, top, dir), [name])
    decreases depth, 0, 0
  {
    var dir, slashed, relative := Join(s, path), WithSlash(s), RelativeAt(s, path, name);
    var place, glued := Locate(env.cwd, dir), GluedPlace(env.cwd, top, dir);
    assert Tidy(w) && Lists(env, w);
    hide Walkable, Tidy, Lists, Locate, Join, Plain, Bare, SomeGlued, AllGlued, GluedPlace, RepeatableDir, WithSlash,
         RelativeAt, HasSuffix, TrimPrefix;
    WalkOn(env, w, path, s, top, name, depth);
    if place + [name] !in w.dirs {
      GluedNowhere(env, w, place, glued, name);
    } else if Bare(env, w, place + [name]) {
      GluedBare(env, w, place, glued, name);
    } else {
      GluedOn(env, w, place, glued, name);
      DirGlued(env, w, relative, slashed, top, depth - 1);
    }
  }

  lemma {:induction false} EntriesGlued(env: Env, w: World, names: seq<string>, path: string, s: string, top: string,
                                        depth: nat)
    requires Walkable(env, w, path, s, top, depth) && AllPlain(names) && depth > 0
    ensures var dir := Join(s, path);
            RepeatableEntries(env, w, names, dir, WithSlash(s), top, depth) <==>
            SomeGlued(env, w, Locate(env.cwd, dir), GluedPlace(env.cwd, top, dir), names)
    decreases depth, 0, |names|
  {
    var place, glued := Locate(env.cwd, Join(s, path)), GluedPlace(env.cwd, top, Join(s, path));
    hide Walkable, Locate, Join, Plain, GluedPlace, RepeatableEntry, WithSlash, HasSuffix, BareBelow;
    if names != [] {
      GluedBoth(env, w, place, glued, names);
      EntriesGlued(env, w, names[1..], path, s, top, depth);
      if HasSuffix(names[0], ".md5") {
        GluedSkipped(env, w, place, glued, names[0]);
      } else {
        EntryGlued(env, w, path, s, top, names[0], depth);
      }
      hide SomeGlued;
    }
  }

  /** The condition on paths is the condition on places. */
  lemma {:induction false} DirGlued(env: Env, w: World, path: string, s: string, top: string, depth: nat)
    requires Walkable(env, w, path, s, top, depth) && Locate(env.cwd, Join(s, path)) in w.dirs
    ensures var dir := Join(s, path);
            RepeatableDir(env, w, path, s, top, depth) <==>
            AllGlued(env, w, Locate(env.cwd, dir), GluedPlace(env.cwd, top, dir))
    decreases depth, 1, 0
  {
    var place := Locate(env.cwd, Join(s, path));
    var names := env.children(w.files, w.dirs, place);
    assert depth > 0 && AllPlain(names) && Tidy(w) && Lists(env, w);
    assert WithSlash(s) == TrimSuffix(s, "/") + "/";
    hide Walkable, Locate, Join, AllPlain, SomeGlued, AllGlued, GluedPlace, RepeatableEntries, Tidy, Lists, WithSlash;
    EntriesGlued(env, w, names, path, s, top, depth);
    GluedListed(env, w, place, GluedPlace(env.cwd, top, Join(s, path)));
  }

  /**
    * A directory on disk, uploaded under any current path: the second upload returns 0 and changes nothing
    * exactly if every bare directory strictly below it is bare also at its glued place, the current path's
    * place followed by the path of the directory.
    */
  lemma {:induction false} DirectoryTwiceIff(env: Env, w: World, d: DirData, current: string, depth: nat, w': World)
    requires ShockServes(env) && Tidy(w) && Lists(env, w) && PlainDisk(w) && Disk(w') == Disk(w)
    requires Reaches(env.cwd, current, DirPath(env, d))
    requires Deep(w, Locate(env.cwd, Join(current, DirPath(env, d))), depth)
    requires Upload(env, w, Directory(d, Unlisted), current, depth).Done?
    ensures var r := Upload(env, w, Directory(d, Unlisted), current, depth);
            var dir := Join(current, DirPath(env, d));
            Upload(env, w', r.value, current, depth) == Done(r.value, w', 0) <==>
            AllGlued(env, w, Locate(env.cwd, dir), GluedPlace(env.cwd, current, dir))
  {
    hide *;
    var path := DirPath(env, d);
    FolderOf(env, w, d, current, depth);
    WalkableOnDisk(env, w, path, current, depth);
    GluedOnDisk(env, w, Locate(env.cwd, Join(current, path)), GluedPlace(env.cwd, current, Join(current, path)));
    SecondUploadIff(env, w, Directory(d, Unlisted), current, depth, w');
    DirGlued(env, Disk(w), path, current, current, depth);
  }

  lemma FolderOf(env: Env, w: World, d: DirData, current: string, depth: nat)
    requires Upload(env, w, Directory(d, Unlisted), current, depth).Done?
    ensures Locate(env.cwd, Join(current, DirPath(env, d))) in Disk(w).dirs && depth > 0
    ensures Repeatable(env, Disk(w), Directory(d, Unlisted), current, depth)
       <==> RepeatableDir(env, Disk(w), DirPath(env, d), current, current, depth)
  {
    hide RepeatableDir, Locate, Join, DirPath, UploadEntries;
  }

  lemma WalkableOnDisk(env: Env, w: World, path: string, current: string, depth: nat)
    requires Tidy(w) && Lists(env, w) && PlainDisk(w)
    requires Reaches(env.cwd, current, path) && Deep(w, Locate(env.cwd, Join(current, path)), depth)
    ensures Walkable(env, Disk(w), path, current, current, depth)
  {
    hide Tidy, Lists, PlainDisk, ListsPlain, Reaches, Anchored, Locate, Join, Parse, Deep, Disk;
    PlainDiskListsPlain(env, w);
    DiskIsSame(env, w);
    SameLists(env, w, Disk(w));
    SameDeep(w, Disk(w), Locate(env.cwd, Join(current, path)), depth);
    ReachesAnchored(env.cwd, current, path);
  }

  lemma ReachesAnchored(cwd: Place, current: string, path: string)
    requires Reaches(cwd, current, path)
    ensures current == "" || Anchored(current, Parse(Join(current, path)))
  {
    hide Anchored, Parse, Join, Neat;
  }

  lemma GluedOnDisk(env: Env, w: World, place: Place, glued: Place)
    ensures AllGlued(env, Disk(w), place, glued) <==> AllGlued(env, w, place, glued)
  {
    hide AnyEntry, HasSuffix;
    assert Disk(w).dirs == w.dirs && Disk(w).files == w.files;
    assert forall q :: Bare(env, Disk(w), q) <==> Bare(env, w, q);
  }

  // ----- Which current paths glue -----

  /** Under an absolute current path the glued place is that path followed by the place itself. */
  lemma {:induction false} GluedUnderAbsolute(cwd: Place, current: string, dir: string)
    requires Rooted(current) && Rooted(dir)
    ensures GluedPlace(cwd, current, dir) == Locate(cwd, current) + Locate(cwd, dir)
  {
    LocateRooted(cwd, dir);
    ParseIsNormal(dir);
    var parts := Parse(dir).parts;
    assert AllPlain(parts);
    hide Locate, Parse, Reduce, Normal;
    ReducePlains(true, Locate(cwd, current), parts);
  }

  // Under the empty path, the working directory and the root a directory is its own glued place.
  lemma {:induction false} OwnGluedPlace(cwd: Place, current: string, path: string)
    requires current == "" || current == "." || current == "/"
    ensures GluedPlace(cwd, current, Join(current, path)) == Locate(cwd, Join(current, path))
  {
    if current != "" {
      JoinRooted(current, path);
      LocateIs(cwd, Join(current, path));
      CurrentPlace(cwd, current);
      hide Locate, Join;
    }
  }

  /** The working directory and the root reach every directory. */
  lemma {:induction false} DotAndRootReach(cwd: Place, current: string, path: string)
    requires current == "." || current == "/"
    ensures Reaches(cwd, current, path)
  {
    JoinRooted(current, path);
    ParseRoots();
    SlashedNone();
    RenderRoot();
    assert "/" + "" == "/";
    hide Join, Parse, Locate;
  }

  /**
    * Under the current paths `.` and `/`, and under the empty one where it reaches the directory, the second
    * upload of a directory on disk returns 0 and changes nothing.
    */
  lemma {:induction false} UploadsRepeat(env: Env, w: World, d: DirData, current: string, depth: nat, w': World)
    requires ShockServes(env) && Tidy(w) && Lists(env, w) && PlainDisk(w) && Disk(w') == Disk(w)
    requires current == "." || current == "/" || (current == "" && Reaches(env.cwd, current, DirPath(env, d)))
    requires Deep(w, Locate(env.cwd, Join(current, DirPath(env, d))), depth)
    requires Upload(env, w, Directory(d, Unlisted), current, depth).Done?
    ensures var r := Upload(env, w, Directory(d, Unlisted), current, depth);
            Upload(env, w', r.value, current, depth) == Done(r.value, w', 0)
  {
    hide *;
    var path := DirPath(env, d);
    if current != "" { DotAndRootReach(env.cwd, current, path); }
    OwnGluedPlace(env.cwd, current, path);
    OwnGlued(env, w, Locate(env.cwd, Join(current, path)));
    DirectoryTwiceIff(env, w, d, current, depth, w');
  }

  lemma {:induction false} CurrentPlace(cwd: Place, current: string)
    requires current == "." || current == "/"
    ensures Locate(cwd, current) == if Rooted(current) then [] else cwd
  {
    LocateRoot(cwd);
    if current == "." {
      ParseRoots();
      hide Locate, Parse;
      LocateIs(cwd, ".");
    }
  }

  lemma OwnGlued(env: Env, w: World, place: Place)
    ensures AllGlued(env, w, place, place)
  {
    hide Bare;
    forall q | BareBelow(env, w, place, q) ensures Bare(env, w, place + q[|place|..]) {
      assert place + q[|place|..] == q;
    }
  }

  // ----- An upload that does not repeat -----

  /** Under an absolute current path: a directory `d` that lists only the bare directory `s`. */
  ghost predicate HoldsBare(env: Env, w: World, current: string, d: string, s: string) {
    var c := Locate(env.cwd, current);
    && Neat(current) && Rooted(current) && Plain(d) && Plain(s) && !HasSuffix(s, ".md5")
    && c + [d] in w.dirs && env.children(w.files, w.dirs, c + [d]) == [s] && Bare(env, w, c + [d] + [s])
  }

  lemma {:induction false} HoldsBarePaths(env: Env, w: World, current: string, d: string, s: string)
    requires HoldsBare(env, w, current, d, s)
    ensures var c := Locate(env.cwd, current);
            && Reaches(env.cwd, current, d) && Locate(env.cwd, Join(current, d)) == c + [d]
            && Locate(env.cwd, Join(current, Join(Join(current, d), s))) == c + (c + [d] + [s])
            && Join(Join(current, d), s) != ""
  {
    ParseJoin(current, d);
    ParseRooted(current);
    LocateIs(env.cwd, current);
    LocateIs(env.cwd, Join(current, d));
    PlaceAppend(env.cwd, Parse(current), d);
    var c, dir := Locate(env.cwd, current), Join(current, d);
    assert Anchored(current, Parse(dir));
    JoinRooted(current, d);
    ParseRooted(dir);
    hide Locate, Join, Parse, Plain, HasSuffix, Bare, PlaceOf, Render, Neat;
    GluedNext(env.cwd, current, current, d, s);
    GluedUnderAbsolute(env.cwd, current, dir);
    JoinNotEmpty(dir, s);
    assert c + (c + [d]) + [s] == c + (c + [d] + [s]);
  }

  lemma {:induction false} FirstEntry(env: Env, w: World, current: string, d: string, s: string, depth: nat)
    requires HoldsBare(env, w, current, d, s) && depth >= 2
    ensures var entry := Join(Join(current, d), s);
            UploadEntry(env, w, entry, WithSlash(current), depth) ==
            Done(Directory(DirData("", entry, s), Unlisted), w, 0)
  {
    hide HoldsBare, Locate, Join, Plain, Reaches, UploadEntry, UploadDirectory, UploadFile, RelativeAt, WithSlash,
         Bare, Base, HasSuffix;
    HoldsBarePaths(env, w, current, d, s);
    HoldsBareFacts(env, w, current, d, s);
    EntryParts(env, w, current, d, s, depth);
    UnlistedIffBare(env, w, RelativeAt(current, d, s), WithSlash(current), depth - 1);
  }

  lemma HoldsBareFacts(env: Env, w: World, current: string, d: string, s: string)
    requires HoldsBare(env, w, current, d, s)
    ensures var c := Locate(env.cwd, current);
            && Plain(s) && d != "" && !HasSuffix(s, ".md5") && Bare(env, w, c + [d] + [s]) && c + [d] + [s] in w.dirs
            && c + [d] in w.dirs && env.children(w.files, w.dirs, c + [d]) == [s]
  {
    hide Locate, HasSuffix, AnyEntry, Neat;
  }

  lemma {:induction false} FirstUpload(env: Env, w: World, current: string, d: string, s: string, depth: nat)
    requires HoldsBare(env, w, current, d, s) && depth >= 2
    ensures var inner := Directory(DirData("", Join(Join(current, d), s), s), Unlisted);
            UploadDirectory(env, w, d, current, depth) == Done(Listing([inner]), w, 0)
  {
    hide HoldsBare, Locate, Join, Plain, Reaches, UploadEntry, UploadDirectory, Bare, WithSlash, HasSuffix;
    HoldsBarePaths(env, w, current, d, s);
    HoldsBareFacts(env, w, current, d, s);
    FirstEntry(env, w, current, d, s, depth);
    OneListed(env, w, d, current, Locate(env.cwd, current) + [d], s, depth);
  }

  /**
    * A directory that holds an empty one, with no directory at the glued place: the first upload succeeds and
    * posts nothing, and the second one fails.
    */
  lemma {:induction false} EmptyDirectoryFails(env: Env, w: World, current: string, d: string, s: string, depth: nat)
    requires HoldsBare(env, w, current, d, s) && depth >= 2
    requires var c := Locate(env.cwd, current); c + (c + [d] + [s]) !in w.dirs
    ensures var inner := Directory(DirData("", Join(Join(current, d), s), s), Unlisted);
            var v := Directory(DirData("", d, ""), Listing([inner]));
            && Upload(env, w, Directory(DirData("", d, ""), Unlisted), current, depth) == Done(v, w, 0)
            && Upload(env, w, v, current, depth) == Failed(w)
  {
    hide HoldsBare, Locate, Join, UploadDirectory, Reaches, Plain, Bare, HasSuffix;
    HoldsBarePaths(env, w, current, d, s);
    HoldsBareFacts(env, w, current, d, s);
    FirstUpload(env, w, current, d, s, depth);
    var entry := Join(Join(current, d), s);
    var inner := Directory(DirData("", entry, s), Unlisted);
    NotThere(env, w, entry, current, depth);
    assert Upload(env, w, inner, current, depth) == Failed(w);
    assert UploadAll(env, w, [inner], current, depth) == Failed(w);
  }

  lemma NotThere(env: Env, w: World, path: string, current: string, depth: nat)
    requires Locate(env.cwd, Join(current, path)) !in w.dirs
    ensures UploadDirectory(env, w, path, current, depth) == Failed(w)
  {}
}
