/** What uploads and downloads make of the fields of Files and Directories, and of the shape of the tree. */
module DataMoverFields {
  import opened Wrappers
  import opened GoPath
  import opened GoPathRelative
  import opened DataMover

  // ----- Names -----

  /** The path ends in this name. */
  ghost predicate EndsIn(path: string, name: string) {
    Plain(name) && (path == name || exists dir: string :: path == dir + "/" + name)
  }

  lemma {:induction false} BaseIsLast(path: string, name: string)
    requires EndsIn(path, name)
    ensures Base(path) == name
  {
    if path == name {
      BaseOfWhole(name);
    } else {
      var dir: string :| path == dir + "/" + name;
      BaseOfName(dir, name);
    }
  }

  // Cleaning keeps a plain last name.
  lemma {:induction false} CleanKeepsLast(dir: string, name: string)
    requires dir != "" && Plain(name)
    ensures Base(Clean(dir + "/" + name)) == name
  {
    hide Split, Reduce, Base, Render;
    SplitWhole(name);
    ParseSlash(dir, name);
    ReducePlain(Rooted(dir), Parse(dir).parts, name);
    assert Rooted(dir + "/" + name) == Rooted(dir);
    BaseOfRender(Rooted(dir), Parse(dir).parts, name);
  }

  lemma {:induction false} CleanKeepsName(name: string)
    requires Plain(name)
    ensures Base(Clean(name)) == name
  {
    hide Split, Reduce, Base, Render;
    SplitWhole(name);
    ReducePlain(false, [], name);
    assert !Rooted(name) by { assert name[0] in name; }
    assert [] + [name] == [name];
    BaseOfRender(false, [], name);
  }

  /** Joining a path to another keeps its last name. */
  lemma {:induction false} JoinKeepsLast(current: string, path: string, name: string)
    requires EndsIn(path, name) && !Rooted(path)
    ensures Base(Join(current, path)) == name
  {
    hide Clean, Base;
    assert path != "";
    if path == name {
      if current == "" { CleanKeepsName(name); } else { CleanKeepsLast(current, name); }
    } else {
      var dir: string :| path == dir + "/" + name;
      assert dir != "";
      CleanKeepsLast(dir, name);
      if current != "" {
        CleanKeepsLast(current + "/" + dir, name);
        assert current + "/" + path == (current + "/" + dir) + "/" + name;
      }
    }
  }

  // ----- Uploading a File -----

  /** The URL of a node, without a path to the API and with one of one part. */
  lemma {:induction false} NodeUrlIs(host: Host, id: string)
    ensures host.api == [] ==> NodeUrl(host, id) == host.scheme + "://" + host.authority + "/node/" + id + "?download"
    ensures |host.api| == 1 ==>
              NodeUrl(host, id)
              == host.scheme + "://" + host.authority + "/" + host.api[0] + "/node/" + id + "?download"
  {
    var a := ["node", id];
    assert a[1..] == [id] && Slashed(a) == "node" + "/" + id;
    if host.api == [] {
      assert host.api + a == a;
    } else if |host.api| == 1 {
      assert (host.api + a)[1..] == a && Slashed(host.api + a) == host.api[0] + "/" + Slashed(a);
    }
  }

  /** The content is posted, and the File is then remote, with this name and nothing else changed. */
  ghost predicate Ships(env: Env, w: World, f: FileData, content: Content, name: string, r: Step<FileData>) {
    match env.post(w, content)
    case None => r.Failed? && r.world.(tick := w.tick) == w
    case Some(id) =>
      var url := NodeUrl(env.host, id);
      && r.Done? && r.count == 1 && r.value == FileData(f.id, url, "", name, "")
      && r.world.(tick := w.tick) == w.(web := w.web[url := content])
  }

  /** The content of the file at a path is posted, under the File's name or the last part of the path. */
  ghost predicate ShipsFileAt(env: Env, w: World, f: FileData, current: string, path: string, r: Step<FileData>) {
    var full := if "/" <= path then path else Join(current, path);
    var place := Locate(env.cwd, full);
    if place in w.files && place !in w.dirs then
      Ships(env, w, f, w.files[place], if f.basename == "" then Base(full) else f.basename, r)
    else r == Failed(w)
  }

  /** A location with a scheme. */
  ghost predicate Schemed(location: string, scheme: string, rest: string) {
    && scheme != "" && location == scheme + "://" + rest
    && forall k :: 0 <= k < |scheme| ==> !("://" <= location[k..])
  }

  lemma {:induction false} IndexIs(s: string, sub: string, n: nat)
    requires n <= |s| && sub <= s[n..] && forall k :: 0 <= k < n ==> !(sub <= s[k..])
    ensures Index(s, sub) == n
    decreases n
  {
    assert s[0..] == s;
    if n > 0 {
      assert forall k :: 0 <= k < n - 1 ==> s[1..][k..] == s[k + 1..];
      assert s[1..][n - 1..] == s[n..];
      IndexIs(s[1..], sub, n - 1);
    }
  }

  lemma {:induction false} IndexFinds(s: string, sub: string)
    ensures var i := Index(s, sub);
            i >= 0 ==> sub <= s[i..] && forall k :: 0 <= k < i ==> !(sub <= s[k..])
  {
    assert s[0..] == s;
    if !(sub <= s) && s != "" {
      IndexFinds(s[1..], sub);
      var i := Index(s, sub);
      forall k | 0 <= k < i ensures !(sub <= s[k..]) {
        if k > 0 { assert s[1..][k - 1..] == s[k..]; }
      }
      if i >= 0 { assert s[1..][i - 1..] == s[i..]; }
    }
  }

  lemma {:induction false} SchemeIs(location: string, scheme: string, rest: string)
    requires Schemed(location, scheme, rest)
    ensures Index(location, "://") == |scheme| > 0 && location[..|scheme|] == scheme
    ensures scheme == "file" ==> TrimPrefix(location, "file://") == rest
  {
    assert location[|scheme|..] == "://" + rest;
    IndexIs(location, "://", |scheme|);
    if scheme == "file" {
      assert location == "file://" + rest;
      assert location[7..] == rest;
    }
  }

  lemma {:induction false} NoScheme(location: string)
    requires forall scheme, rest :: !Schemed(location, scheme, rest)
    ensures Index(location, "://") <= 0
  {
    var i := Index(location, "://");
    IndexFinds(location, "://");
    if i > 0 {
      var rest := location[i + 3..];
      assert location == location[..i] + "://" + rest;
      assert Schemed(location, location[..i], rest);
    }
  }

  lemma UploadsAt(env: Env, w: World, f: FileData, current: string, path: string)
    requires !("file:" <= current) && SourceOf(f) == Local(path) && path != ""
    ensures ShipsFileAt(env, w, f, current, path, UploadFile(env, w, f, current))
  {
    hide SourceOf, Locate, Join, Base, NodeUrl;
    assert Rooted(path) <==> "/" <= path;
  }

  /** Literal contents are posted, under the File's name or its id, whatever the path and the location. */
  lemma LiteralIsPosted(env: Env, w: World, f: FileData, current: string)
    requires !("file:" <= current) && f.contents != ""
    ensures Ships(env, w, f, f.contents, if f.basename == "" then f.id else f.basename, UploadFile(env, w, f, current))
  {
    hide NodeUrl;
  }

  /** Without contents a path decides, with or without `file://`, whatever the location. */
  lemma PathIsPosted(env: Env, w: World, f: FileData, current: string, path: string)
    requires !("file:" <= current) && f.contents == "" && path != ""
    requires f.path == "file://" + path || (f.path == path && !("file://" <= path))
    ensures ShipsFileAt(env, w, f, current, path, UploadFile(env, w, f, current))
  {
    assert TrimPrefix(f.path, "file://") == path;
    UploadsAt(env, w, f, current, path);
  }

  /** Without either the location decides: a path, with or without `file://`, or a URL, which is left alone. */
  lemma {:induction false} LocationIsPosted(env: Env, w: World, f: FileData, current: string)
    requires !("file:" <= current) && f.contents == "" && (f.path == "" || f.path == "file://")
    ensures var r := UploadFile(env, w, f, current);
            && (f.location == "" ==> r == Failed(w))
            && (f.location != "" && (forall scheme, rest :: !Schemed(f.location, scheme, rest)) ==>
                  ShipsFileAt(env, w, f, current, f.location, r))
    ensures forall scheme, rest :: Schemed(f.location, scheme, rest) ==>
              var r := UploadFile(env, w, f, current);
              if scheme == "file" && rest != "" then ShipsFileAt(env, w, f, current, rest, r)
              else if scheme == "http" || scheme == "https" || scheme == "ftp" then r == Done(f, w, 0)
              else r == Failed(w)
  {
    hide Index, Join, Base, Locate, ShipsFileAt, NodeUrl, Schemed;
    assert TrimPrefix(f.path, "file://") == "";
    if f.location == "" {
      IndexFinds("", "://");
    } else if forall scheme, rest :: !Schemed(f.location, scheme, rest) {
      NoScheme(f.location);
      UploadsAt(env, w, f, current, f.location);
    }
    forall scheme, rest | Schemed(f.location, scheme, rest)
      ensures var r := UploadFile(env, w, f, current);
              if scheme == "file" && rest != "" then ShipsFileAt(env, w, f, current, rest, r)
              else if scheme == "http" || scheme == "https" || scheme == "ftp" then r == Done(f, w, 0)
              else r == Failed(w)
    {
      SchemeIs(f.location, scheme, rest);
      if scheme == "file" && rest != "" { UploadsAt(env, w, f, current, rest); }
    }
  }

  // ----- Downloading a tree -----

  /** A downloaded File keeps its name, or takes the last part of its URL; its id, path and contents stay. */
  ghost predicate FileRewritten(f: FileData, f': FileData) {
    && f'.basename == (if f.basename == "" then Base(BeforeQuery(f.location)) else f.basename)
    && f'.id == f.id && f'.path == f.path && f'.contents == f.contents == ""
  }

  /** The name a Directory is downloaded under. */
  function FolderName(d: DirData): string {
    if d.basename == "" then Base(d.path) else d.basename
  }

  /**
    * A downloaded Directory keeps its basename and loses its path. A location it had becomes its name, and
    * that names a directory on the disk, in the one it was downloaded to.
    */
  ghost predicate DirRewritten(env: Env, dirs: set<Place>, d: DirData, d': DirData, current: string) {
    && d'.basename == d.basename && d'.path == ""
    && if d.location == "" then d'.location == ""
       else d'.location == FolderName(d) && Locate(env.cwd, Join(current, d'.location)) in dirs
  }

  /** A Directory with a location alone goes by the name `.`: it is downloaded into the directory at hand. */
  lemma NamelessFolder(d: DirData)
    requires d.basename == "" && d.path == ""
    ensures FolderName(d) == "."
  {}

  /** The same tree, with every File and Directory rewritten. */
  ghost predicate Rewritten(env: Env, dirs: set<Place>, v: Value, v': Value, current: string)
    decreases v
  {
    match v
    case Scalar(_) => v' == v
    case File(f, secondary) =>
      v'.File? && FileRewritten(f, v'.file) && AllRewritten(env, dirs, secondary, v'.secondary, current)
    case Array(items) => v'.Array? && AllRewritten(env, dirs, items, v'.items, current)
    case Record(keys, fields) => v'.Record? && v'.keys == keys && AllRewritten(env, dirs, fields, v'.fields, current)
    case Directory(d, Unlisted) =>
      v'.Directory? && DirRewritten(env, dirs, d, v'.dir, current) && v'.listing == Unlisted
    case Directory(d, Listing(items)) =>
      && v'.Directory? && DirRewritten(env, dirs, d, v'.dir, current) && v'.listing.Listing?
      && AllRewritten(env, dirs, items, v'.listing.items, Join(current, FolderName(d)))
  }

  ghost predicate AllRewritten(env: Env, dirs: set<Place>, vs: seq<Value>, vs': seq<Value>, current: string)
    decreases vs
  {
    if vs == [] then vs' == []
    else
      && vs' != [] && Rewritten(env, dirs, vs[0], vs'[0], current)
      && AllRewritten(env, dirs, vs[1..], vs'[1..], current)
  }

  lemma {:induction false} RewrittenLater(env: Env, dirs: set<Place>, dirs': set<Place>, v: Value, v': Value,
                                          current: string)
    requires Rewritten(env, dirs, v, v', current) && dirs <= dirs'
    ensures Rewritten(env, dirs', v, v', current)
    decreases v
  {
    hide Join, Locate, Base, BeforeQuery;
    match v
    case Scalar(_) =>
    case File(_, secondary) => AllRewrittenLater(env, dirs, dirs', secondary, v'.secondary, current);
    case Array(items) => AllRewrittenLater(env, dirs, dirs', items, v'.items, current);
    case Record(_, fields) => AllRewrittenLater(env, dirs, dirs', fields, v'.fields, current);
    case Directory(_, Unlisted) =>
    case Directory(d, Listing(items)) =>
      AllRewrittenLater(env, dirs, dirs', items, v'.listing.items, Join(current, FolderName(d)));
  }

  lemma {:induction false} AllRewrittenLater(env: Env, dirs: set<Place>, dirs': set<Place>, vs: seq<Value>,
                                             vs': seq<Value>, current: string)
    requires AllRewritten(env, dirs, vs, vs', current) && dirs <= dirs'
    ensures AllRewritten(env, dirs', vs, vs', current)
    decreases vs
  {
    if vs != [] {
      RewrittenLater(env, dirs, dirs', vs[0], vs'[0], current);
      AllRewrittenLater(env, dirs, dirs', vs[1..], vs'[1..], current);
    }
  }

  lemma FileRewrites(env: Env, w: World, f: FileData, path: string, base: string)
    ensures var r := DownloadFile(env, w, f, path, base);
            w.dirs <= r.world.dirs && (r.Done? ==> FileRewritten(f, r.value))
  {
    hide Locate, Join, Base, BeforeQuery, Relative, FileAbove;
  }

  lemma PlaceMade(w: World, p: Place)
    ensures w.dirs <= MakeDirs(w, p).dirs && p in MakeDirs(w, p).dirs
  {
    assert p[..|p|] == p;
  }

  lemma ConsRewritten(env: Env, dirs: set<Place>, vs: seq<Value>, v': Value, rest: seq<Value>, current: string)
    requires vs != [] && Rewritten(env, dirs, vs[0], v', current) && AllRewritten(env, dirs, vs[1..], rest, current)
    ensures AllRewritten(env, dirs, vs, [v'] + rest, current)
  {
    hide Rewritten;
    assert ([v'] + rest)[1..] == rest;
  }

  /** Whatever the names and paths, a download that succeeds gives the same tree, rewritten field by field. */
  lemma {:induction false} DownloadRewrites(env: Env, w: World, v: Value, current: string, base: string)
    ensures var r := Download(env, w, v, current, base);
            w.dirs <= r.world.dirs && (r.Done? ==> Rewritten(env, r.world.dirs, v, r.value, current))
    decreases v
  {
    hide Locate, Join, Base, DownloadFile, FileAbove, MakeDirs, FileRewritten;
    match v
    case Scalar(_) =>
    case File(f, secondary) =>
      FileRewrites(env, w, f, current, base);
      var r := DownloadFile(env, w, f, current, base);
      if r.Done? { AllDownloadRewrite(env, r.world, secondary, current, base); }
    case Array(items) => AllDownloadRewrite(env, w, items, current, base);
    case Record(_, fields) => AllDownloadRewrite(env, w, fields, current, base);
    case Directory(d, listing) =>
      var inside := Join(current, FolderName(d));
      var place := Locate(env.cwd, inside);
      PlaceMade(w, place);
      var w1 := if d.location != "" then MakeDirs(w, place) else w;
      if listing.Listing? { AllDownloadRewrite(env, w1, listing.items, inside, base); }
  }

  lemma {:induction false} AllDownloadRewrite(env: Env, w: World, vs: seq<Value>, current: string, base: string)
    ensures var r := DownloadAll(env, w, vs, current, base);
            w.dirs <= r.world.dirs && (r.Done? ==> AllRewritten(env, r.world.dirs, vs, r.value, current))
    decreases vs
  {
    hide Rewritten, AllRewritten;
    if vs == [] {
      NoneRewritten(env, w.dirs, current);
    } else {
      DownloadRewrites(env, w, vs[0], current, base);
      var r := Download(env, w, vs[0], current, base);
      if r.Done? {
        AllDownloadRewrite(env, r.world, vs[1..], current, base);
        var r2 := DownloadAll(env, r.world, vs[1..], current, base);
        if r2.Done? {
          RewrittenLater(env, r.world.dirs, r2.world.dirs, vs[0], r.value, current);
          ConsRewritten(env, r2.world.dirs, vs, r.value, r2.value, current);
        }
      }
    }
  }

  lemma NoneRewritten(env: Env, dirs: set<Place>, current: string)
    ensures AllRewritten(env, dirs, [], [], current)
  {}
}
