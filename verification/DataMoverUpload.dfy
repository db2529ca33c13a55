/** What uploading a tree does: content, counts, and what a second upload finds. */
module DataMoverUpload {
  import opened Wrappers
  import opened GoPath
  import opened DataMover

  /** Ids answer as posted, and the host is a web address. */
  ghost predicate ShockServes(env: Env) {
    && PostsHold(env)
    && (env.host.scheme == "http" || env.host.scheme == "https")
  }

  // ----- One file -----

  /** The content a File stands for. */
  function Meaning(env: Env, w: World, f: FileData, current: string): Option<Content> {
    match SourceOf(f)
    case Literal => Some(f.contents)
    case Remote => Lookup(w.web, f.location)
    case Local(path) => Lookup(w.files, Locate(env.cwd, FullPath(current, path)))
    case Unknown => None
  }

  function Lookup<K, V>(m: map<K, V>, k: K): Option<V> {
    if k in m then Some(m[k]) else None
  }

  ghost predicate Grows<K, V>(m: map<K, V>, m': map<K, V>) {
    forall k :: k in m ==> k in m' && m'[k] == m[k]
  }

  /** Uploads leave the disk alone and lose nothing from the web. */
  ghost predicate Posted(w: World, w': World) {
    w'.files == w.files && w'.dirs == w.dirs && Grows(w.web, w'.web)
  }

  /** A File that needs no upload. */
  ghost predicate Settled(current: string, f: FileData) {
    !("file:" <= current) && SourceOf(f).Remote?
  }

  /** An uploaded File is remote, has what the File had, and its name. */
  ghost predicate CarriedFile(env: Env, w: World, f: FileData, w': World, f': FileData, current: string) {
    && Settled(current, f')
    && (Meaning(env, w, f, current).Some? ==> Lookup(w'.web, f'.location) == Meaning(env, w, f, current))
    && (if SourceOf(f).Remote? then f' == f
        else f'.path == "" && f'.basename == UploadName(f, current)
             && exists id :: f'.location == NodeUrl(env.host, id) && Plain(id) && '?' !in id)
  }

  lemma {:induction false} IndexAfter(a: string, sub: string, b: string)
    requires sub != "" && sub[0] !in a
    ensures Index(a + (sub + b), sub) == |a|
  {
    var s := a + (sub + b);
    if a == "" {
      assert s == sub + b;
    } else {
      assert s[0] == a[0] && a[0] in a;
      assert s[1..] == a[1..] + (sub + b);
      IndexAfter(a[1..], sub, b);
    }
  }

  lemma {:induction false} UrlIsRemote(host: Host, id: string, f: FileData)
    requires host.scheme == "http" || host.scheme == "https"
    requires f.contents == "" && f.path == "" && f.location == NodeUrl(host, id)
    ensures SourceOf(f) == Remote
  {
    hide Slashed, Index;
    var rest := host.authority + "/" + Slashed(host.api + ["node", id]) + "?download";
    assert f.location == host.scheme + ("://" + rest);
    IndexAfter(host.scheme, "://", rest);
    assert f.location[..|host.scheme|] == host.scheme;
  }

  lemma {:induction false} PostFacts(env: Env, w: World, f: FileData, content: Content, name: string)
    requires ShockServes(env)
    ensures var r := Post(env, w, f, content, name);
            && Posted(w, r.world)
            && (r.Done? ==> r.count == 1 && SourceOf(r.value).Remote? && r.value.path == "" && r.value.basename == name
                            && Lookup(r.world.web, r.value.location) == Some(content)
                            && exists id :: r.value.location == NodeUrl(env.host, id) && Plain(id) && '?' !in id)
  {
    hide NodeUrl, SourceOf;
    if env.post(w, content).Some? {
      UrlIsRemote(env.host, env.post(w, content).value, Post(env, w, f, content, name).value);
    }
  }

  /** Uploading a File keeps its content, and counts it unless it was remote. */
  lemma {:induction false} UploadFileCarries(env: Env, w: World, f: FileData, current: string)
    requires ShockServes(env)
    ensures var r := UploadFile(env, w, f, current);
            && Posted(w, r.world)
            && (r.Done? ==> CarriedFile(env, w, f, r.world, r.value, current)
                            && r.count == if SourceOf(f).Remote? then 0 else 1)
  {
    hide NodeUrl, Post, UploadName, PostsHold, Locate;
    match SourceOf(f)
    case Literal => PostFacts(env, w, f, f.contents, UploadName(f, current));
    case Local(path) =>
      var place := Locate(env.cwd, FullPath(current, path));
      if place in w.files { PostFacts(env, w, f, w.files[place], UploadName(f, current)); }
    case _ =>
  }

  // ----- A tree: content -----

  ghost predicate Carried(env: Env, w: World, fs: seq<FileData>, w': World, fs': seq<FileData>, current: string) {
    |fs'| == |fs| && forall i :: 0 <= i < |fs| ==> CarriedFile(env, w, fs[i], w', fs'[i], current)
  }

  lemma {:induction false} CarriedLater(env: Env, w0: World, w: World, f: FileData, w': World, w1: World,
                                        f': FileData, current: string)
    requires Posted(w0, w) && CarriedFile(env, w, f, w', f', current) && Posted(w', w1)
    ensures CarriedFile(env, w0, f, w1, f', current)
  {
    hide NodeUrl, Plain, UploadName, Locate;
  }

  lemma {:induction false} PostedTwice(w: World, w1: World, w2: World)
    requires Posted(w, w1) && Posted(w1, w2)
    ensures Posted(w, w2)
  {}

  lemma {:induction false} CarriedConcat(env: Env, w: World, a: seq<FileData>, w1: World, a': seq<FileData>,
                                         b: seq<FileData>, w2: World, b': seq<FileData>, current: string)
    requires Posted(w, w1) && Carried(env, w, a, w1, a', current)
    requires Posted(w1, w2) && Carried(env, w1, b, w2, b', current)
    ensures Carried(env, w, a + b, w2, a' + b', current)
  {
    hide CarriedFile, Posted;
    forall i | 0 <= i < |a| ensures CarriedFile(env, w, a[i], w2, a'[i], current) {
      PostedSelf(w);
      CarriedLater(env, w, w, a[i], w1, w2, a'[i], current);
    }
    forall i | 0 <= i < |b| ensures CarriedFile(env, w, b[i], w2, b'[i], current) {
      PostedSelf(w2);
      CarriedLater(env, w, w1, b[i], w2, w2, b'[i], current);
    }
  }

  lemma PostedSelf(w: World)
    ensures Posted(w, w)
  {}

  /** Names of directories, which uploading keeps. */
  predicate DirsNamed(named: DirData -> bool, v: Value)
    decreases v
  {
    match v
    case Scalar(_) => true
    case File(_, secondary) => AllDirsNamed(named, secondary)
    case Array(items) => AllDirsNamed(named, items)
    case Record(_, fields) => AllDirsNamed(named, fields)
    case Directory(d, Listing(listing)) => named(d) && AllDirsNamed(named, listing)
    case Directory(d, Unlisted) => named(d)
  }

  predicate AllDirsNamed(named: DirData -> bool, vs: seq<Value>)
    decreases vs
  {
    vs == [] || (DirsNamed(named, vs[0]) && AllDirsNamed(named, vs[1..]))
  }

  /**
    * Uploading a tree whose directories are listed keeps its shape, leaves the disk alone, and makes
    * every File remote with the content it had.
    */
  lemma {:induction false} UploadCarries(env: Env, w: World, v: Value, current: string, depth: nat)
    requires ShockServes(env) && Listed(v)
    ensures var r := Upload(env, w, v, current, depth);
            && Posted(w, r.world)
            && (r.Done? ==> Carried(env, w, Files(v), r.world, Files(r.value), current)
                            && Listed(r.value) && forall named :: DirsNamed(named, v) ==> DirsNamed(named, r.value))
    decreases v
  {
    hide Carried, CarriedFile, Posted, ShockServes;
    match v
    case Scalar(_) =>
      PostedSelf(w);
      CarriedNone(env, w, current);
    case File(f, secondary) =>
      UploadFileCarries(env, w, f, current);
      var r := UploadFile(env, w, f, current);
      if r.Done? {
        UploadAllCarries(env, r.world, secondary, current, depth);
        var r2 := UploadAll(env, r.world, secondary, current, depth);
        PostedTwice(w, r.world, r2.world);
        if r2.Done? {
          CarriedOne(env, w, f, r.world, r.value, current);
          CarriedConcat(env, w, [f], r.world, [r.value], FilesAll(secondary), r2.world, FilesAll(r2.value), current);
        }
      }
    case Array(items) => UploadAllCarries(env, w, items, current, depth);
    case Record(_, fields) => UploadAllCarries(env, w, fields, current, depth);
    case Directory(_, Listing(listing)) => UploadAllCarries(env, w, listing, current, depth);
  }

  lemma {:induction false} UploadAllCarries(env: Env, w: World, vs: seq<Value>, current: string, depth: nat)
    requires ShockServes(env) && ListedAll(vs)
    ensures var r := UploadAll(env, w, vs, current, depth);
            && Posted(w, r.world)
            && (r.Done? ==> Carried(env, w, FilesAll(vs), r.world, FilesAll(r.value), current)
                            && ListedAll(r.value)
                            && forall named :: AllDirsNamed(named, vs) ==> AllDirsNamed(named, r.value))
    decreases vs
  {
    hide Carried, CarriedFile, Posted, ShockServes;
    if vs == [] {
      PostedSelf(w);
      CarriedNone(env, w, current);
    } else {
      UploadCarries(env, w, vs[0], current, depth);
      var r := Upload(env, w, vs[0], current, depth);
      if r.Done? {
        UploadAllCarries(env, r.world, vs[1..], current, depth);
        var r2 := UploadAll(env, r.world, vs[1..], current, depth);
        PostedTwice(w, r.world, r2.world);
        if r2.Done? {
          CarriedConcat(env, w, Files(vs[0]), r.world, Files(r.value), FilesAll(vs[1..]), r2.world,
                        FilesAll(r2.value), current);
        }
      }
    }
  }

  lemma CarriedNone(env: Env, w: World, current: string)
    ensures Carried(env, w, [], w, [], current)
  {}

  lemma CarriedOne(env: Env, w: World, f: FileData, w': World, f': FileData, current: string)
    requires CarriedFile(env, w, f, w', f', current)
    ensures Carried(env, w, [f], w', [f'], current)
  {}
}
