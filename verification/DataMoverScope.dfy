/** What the walk over a directory on disk meets: everything in it, once, if it goes deep enough. */
module DataMoverScope {
  import opened Wrappers
  import opened GoPath
  import opened GoPathRelative
  import opened DataMover
  import opened DataMoverPaths
  import opened DataMoverDownload
  import opened DataMoverRepeat
  import opened DataMoverDisk

  /** A file below the place, neither it nor a directory on the way named as a checksum file. */
  ghost predicate InScope(w: World, place: Place, q: Place) {
    q in w.files && place < q && forall i :: |place| <= i < |q| ==> !HasSuffix(q[i], ".md5")
  }

  ghost predicate Has(found: seq<Found>, q: Place) {
    exists i :: 0 <= i < |found| && found[i].place == q
  }

  ghost predicate NoRepeat(found: seq<Found>) {
    forall i, j :: 0 <= i < j < |found| ==> found[i].place != found[j].place
  }

  /** Each file is there with its own content. */
  ghost predicate Right(w: World, found: seq<Found>) {
    forall i :: 0 <= i < |found| ==> found[i].place in w.files && found[i].content == w.files[found[i].place]
  }

  lemma HasConcat(x: seq<Found>, y: seq<Found>, q: Place)
    ensures Has(x + y, q) <==> Has(x, q) || Has(y, q)
  {
    if Has(x, q) {
      var i :| 0 <= i < |x| && x[i].place == q;
      assert (x + y)[i] == x[i];
    }
    if Has(y, q) {
      var i :| 0 <= i < |y| && y[i].place == q;
      assert (x + y)[|x| + i] == y[i];
    }
  }

  lemma NoRepeatConcat(x: seq<Found>, y: seq<Found>)
    requires NoRepeat(x) && NoRepeat(y) && forall q :: Has(x, q) ==> !Has(y, q)
    ensures NoRepeat(x + y)
  {
    forall i, j | 0 <= i < |x| && 0 <= j < |y| ensures x[i].place != y[j].place {
      assert Has(x, x[i].place) && Has(y, y[j].place);
    }
  }

  // Whatever is on disk lies in directories all the way up.
  lemma {:induction false} DirsAbove(w: World, p: Place, q: Place)
    requires Tidy(w) && Exists(w, q) && p < q
    ensures p in w.dirs
    decreases |q|
  {
    var up := q[..|q| - 1];
    assert up in w.dirs;
    if p != up {
      assert p == up[..|p|];
      DirsAbove(w, p, up);
    }
  }

  // One name further down.
  lemma ScopeStep(w: World, place: Place, n: string, q: Place)
    requires Tidy(w) && !HasSuffix(n, ".md5")
    ensures place + [n] in w.dirs ==> (InScope(w, place, q) && q[|place|] == n <==> InScope(w, place + [n], q))
    ensures place + [n] in w.files ==> (InScope(w, place, q) && q[|place|] == n <==> q == place + [n])
  {
    hide HasSuffix;
    var p := place + [n];
    if InScope(w, place, q) && q[|place|] == n {
      assert q[..|p|] == p;
      if p != q { DirsAbove(w, p, q); }
    }
    if InScope(w, p, q) { assert q[|place|] == p[|place|] == n && place <= p < q; }
  }

  /** Exactly the files in scope that go on with one of these names, each once. */
  ghost predicate SomeFound(w: World, place: Place, names: seq<string>, found: seq<Found>) {
    && (forall q :: Has(found, q) ==> InScope(w, place, q) && q[|place|] in names)
    && (forall q :: InScope(w, place, q) && q[|place|] in names ==> Has(found, q))
    && NoRepeat(found) && Right(w, found)
  }

  /** Exactly the files in scope, each once. */
  ghost predicate AllFound(w: World, place: Place, found: seq<Found>) {
    && (forall q :: Has(found, q) ==> InScope(w, place, q))
    && (forall q :: InScope(w, place, q) ==> Has(found, q))
    && NoRepeat(found) && Right(w, found)
  }

  /** The depth goes beyond every directory below the place. */
  ghost predicate Deep(w: World, place: Place, depth: nat) {
    forall q :: q in w.dirs ==> |q| < |place| + depth
  }

  lemma FromDir(w: World, place: Place, n: string, found: seq<Found>)
    requires Tidy(w) && !HasSuffix(n, ".md5") && place + [n] in w.dirs && AllFound(w, place + [n], found)
    ensures SomeFound(w, place, [n], found)
  {
    hide HasSuffix, Tidy, NoRepeat, Right, Has;
    forall q ensures InScope(w, place, q) && q[|place|] == n <==> InScope(w, place + [n], q) {
      ScopeStep(w, place, n, q);
    }
  }

  lemma FromFile(w: World, place: Place, n: string)
    requires Tidy(w) && !HasSuffix(n, ".md5") && place + [n] in w.files
    ensures SomeFound(w, place, [n], [Found(place + [n], w.files[place + [n]])])
  {
    var found := [Found(place + [n], w.files[place + [n]])];
    assert found[0].place == place + [n];
    assert Has(found, place + [n]);
    hide HasSuffix, Tidy;
    forall q ensures InScope(w, place, q) && q[|place|] == n <==> q == place + [n] { ScopeStep(w, place, n, q); }
  }

  lemma Skipped(w: World, place: Place, n: string)
    requires HasSuffix(n, ".md5")
    ensures SomeFound(w, place, [n], [])
  {
    hide HasSuffix;
  }

  lemma BothFound(w: World, place: Place, names: seq<string>, x: seq<Found>, y: seq<Found>)
    requires names != [] && names[0] !in names[1..] && SomeFound(w, place, [names[0]], x)
    requires SomeFound(w, place, names[1..], y)
    ensures SomeFound(w, place, names, x + y)
  {
    hide InScope, Has, NoRepeat;
    assert forall n :: n in names <==> n == names[0] || n in names[1..];
    forall q ensures Has(x + y, q) <==> Has(x, q) || Has(y, q) { HasConcat(x, y, q); }
    NoRepeatConcat(x, y);
  }

  lemma NoneFound(w: World, place: Place)
    ensures SomeFound(w, place, [], [])
  {}

  lemma ListedIsAll(env: Env, w: World, place: Place, found: seq<Found>)
    requires Tidy(w) && Lists(env, w) && place in w.dirs
    requires SomeFound(w, place, env.children(w.files, w.dirs, place), found)
    ensures AllFound(w, place, found)
  {
    hide Has, NoRepeat, Right, Tidy, Lists, HasSuffix;
    forall q | InScope(w, place, q) ensures q[|place|] in env.children(w.files, w.dirs, place) {
      NextListed(env, w, place, q);
    }
  }

  // The first name on the way to something below a directory is listed there.
  lemma NextExists(w: World, place: Place, q: Place)
    requires Tidy(w) && Exists(w, q) && place < q
    ensures Exists(w, place + [q[|place|]])
  {
    hide Tidy;
    var p := place + [q[|place|]];
    assert q[..|p|] == p;
    if p != q { DirsAbove(w, p, q); }
  }

  lemma NextListed(env: Env, w: World, place: Place, q: Place)
    requires Tidy(w) && Lists(env, w) && place in w.dirs && Exists(w, q) && place < q
    ensures q[|place|] in env.children(w.files, w.dirs, place)
  {
    NextExists(w, place, q);
    hide Tidy, Distinct;
  }

  // The walk at one name, at some names, at all of a directory.
  lemma {:induction false} AtIsAll(env: Env, w: World, place: Place, n: string, depth: nat)
    requires Tidy(w) && Lists(env, w) && depth > 0 && !HasSuffix(n, ".md5") && Exists(w, place + [n])
    requires Deep(w, place, depth)
    ensures SomeFound(w, place, [n], FilesAt(env, w, place + [n], depth))
    decreases depth, 0, 0
  {
    assert Deep(w, place + [n], depth - 1);
    hide HasSuffix, Lists, FilesBelow, SomeFound, AllFound, Tidy, Deep;
    if place + [n] in w.dirs {
      BelowIsAll(env, w, place + [n], depth - 1);
      FromDir(w, place, n, FilesBelow(env, w, place + [n], depth - 1));
    } else {
      FromFile(w, place, n);
    }
  }

  lemma {:induction false} AmongIsAll(env: Env, w: World, place: Place, names: seq<string>, depth: nat)
    requires Tidy(w) && Lists(env, w) && depth > 0 && Deep(w, place, depth)
    requires Distinct(names) && forall n :: n in names ==> Exists(w, place + [n])
    ensures SomeFound(w, place, names, FilesAmong(env, w, place, names, depth))
    decreases depth, 0, |names|
  {
    hide HasSuffix, Lists, FilesAt, SomeFound, Tidy, Deep;
    if names == [] {
      NoneFound(w, place);
    } else {
      var n, rest := names[0], names[1..];
      assert n in names && n !in rest;
      AmongIsAll(env, w, place, rest, depth);
      if HasSuffix(n, ".md5") { Skipped(w, place, n); } else { AtIsAll(env, w, place, n, depth); }
      BothFound(w, place, names, if HasSuffix(n, ".md5") then [] else FilesAt(env, w, place + [n], depth),
                FilesAmong(env, w, place, rest, depth));
    }
  }

  /**
    * With a depth beyond the longest directory path, the files found below a place are exactly the files
    * of the disk below it that no checksum name hides, each once and with its content.
    */
  lemma {:induction false} BelowIsAll(env: Env, w: World, place: Place, depth: nat)
    requires Tidy(w) && Lists(env, w) && place in w.dirs && Deep(w, place, depth)
    ensures AllFound(w, place, FilesBelow(env, w, place, depth))
    decreases depth, 1, 0
  {
    var names := env.children(w.files, w.dirs, place);
    assert depth > 0 && Distinct(names);
    assert forall n :: n in names ==> Exists(w, place + [n]);
    hide Lists, FilesAmong, SomeFound, AllFound, Tidy, Deep;
    AmongIsAll(env, w, place, names, depth);
    ListedIsAll(env, w, place, FilesAmong(env, w, place, names, depth));
  }

  // ----- Depth -----

  /** Beyond the longest directory path the depth makes no difference to an upload. */
  lemma {:induction false} DepthIsEnough(env: Env, w: World, path: string, current: string, depth: nat, more: nat)
    requires ListsPlain(env, w) && Reaches(env.cwd, current, path) && depth <= more
    requires Deep(w, Locate(env.cwd, Join(current, path)), depth)
    ensures UploadDirectory(env, w, path, current, more) == UploadDirectory(env, w, path, current, depth)
    decreases depth, 1, 0
  {
    var place := Locate(env.cwd, Join(current, path));
    if place in w.dirs {
      var names := env.children(w.files, w.dirs, place);
      assert AllPlain(names) && depth > 0;
      DepthOfEntries(env, w, names, current, path, depth, more);
    }
    hide Join, Locate, UploadEntries, Reaches, ListsPlain, Deep, AllPlain;
  }

  lemma {:induction false} DepthOfEntries(env: Env, w: World, names: seq<string>, current: string, path: string,
                                          depth: nat, more: nat)
    requires ListsPlain(env, w) && Reaches(env.cwd, current, path) && AllPlain(names) && 0 < depth <= more
    requires Deep(w, Locate(env.cwd, Join(current, path)), depth)
    ensures UploadEntries(env, w, names, Join(current, path), WithSlash(current), more)
         == UploadEntries(env, w, names, Join(current, path), WithSlash(current), depth)
    decreases depth, 0, |names|
  {
    hide Join, Locate, UploadEntry, ListsPlain, Plain, HasSuffix, Reaches, WithSlash, Deep;
    if names != [] && HasSuffix(names[0], ".md5") {
      DepthOfEntries(env, w, names[1..], current, path, depth, more);
    } else if names != [] {
      DepthOfEntry(env, w, current, path, names[0], depth, more);
      var r := UploadEntry(env, w, Join(Join(current, path), names[0]), WithSlash(current), depth);
      if r.Done? {
        EntryKeepsDisk(env, w, Join(Join(current, path), names[0]), WithSlash(current), depth);
        SameLists(env, w, r.world);
        SameDeep(w, r.world, Locate(env.cwd, Join(current, path)), depth);
        DepthOfEntries(env, r.world, names[1..], current, path, depth, more);
      }
    }
  }

  lemma SameDeep(w: World, w': World, place: Place, depth: nat)
    requires Deep(w, place, depth) && w'.dirs == w.dirs
    ensures Deep(w', place, depth)
  {}

  lemma EntryKeepsDisk(env: Env, w: World, entry: string, current: string, depth: nat)
    requires depth > 0 && UploadEntry(env, w, entry, current, depth).Done?
    ensures var w' := UploadEntry(env, w, entry, current, depth).world; w'.files == w.files && w'.dirs == w.dirs
  {
    EntryListedIffPopulated(env, w, entry, current, depth);
    var w' := UploadEntry(env, w, entry, current, depth).world;
    assert Disk(w').files == w'.files && Disk(w').dirs == w'.dirs && Disk(w).files == w.files && Disk(w).dirs == w.dirs;
    hide UploadEntry, PopulatedEntry, Disk;
  }

  lemma DeepNext(w: World, place: Place, name: string, depth: nat)
    requires Deep(w, place, depth) && depth > 0
    ensures Deep(w, place + [name], depth - 1)
  {}

  lemma {:induction false} DepthOfEntry(env: Env, w: World, current: string, path: string, name: string, depth: nat,
                                        more: nat)
    requires ListsPlain(env, w) && Reaches(env.cwd, current, path) && Plain(name) && 0 < depth <= more
    requires Deep(w, Locate(env.cwd, Join(current, path)), depth)
    ensures UploadEntry(env, w, Join(Join(current, path), name), WithSlash(current), more)
         == UploadEntry(env, w, Join(Join(current, path), name), WithSlash(current), depth)
    decreases depth, 0, 0
  {
    hide Join, Locate, UploadEntry, UploadFile, UploadDirectory, Base, ListsPlain, Plain, Reaches, WithSlash,
         RelativeAt, Deep;
    var place := Locate(env.cwd, Join(current, path)) + [name];
    DeepNext(w, Locate(env.cwd, Join(current, path)), name, depth);
    EntryParts(env, w, current, path, name, depth);
    EntryParts(env, w, current, path, name, more);
    if place in w.dirs {
      DepthIsEnough(env, w, RelativeAt(current, path, name), WithSlash(current), depth - 1, more - 1);
    }
  }
}
