/** The tree as the objects it is made of, whose fields uploading and downloading rewrite. */
module DataMoverObjects {
  import opened GoPath
  import opened GoPathRelative
  import opened DataMover

  class FileObject {
    const id: string
    var location: string
    var path: string
    var basename: string
    var contents: string

    constructor (id: string, location: string, path: string, basename: string, contents: string)
      ensures Data() == FileData(id, location, path, basename, contents)
    {
      this.id, this.location, this.path, this.basename, this.contents := id, location, path, basename, contents;
    }

    ghost function Data(): FileData
      reads this
    {
      FileData(id, location, path, basename, contents)
    }

    /** Post the content of the File, and leave it remote. */
    method Upload(env: Env, w: World, inputPath: string) returns (ok: bool, w': World, count: nat)
      modifies this
      ensures if ok then UploadFile(env, w, old(Data()), inputPath) == Done(Data(), w', count)
              else UploadFile(env, w, old(Data()), inputPath) == Failed(w')
    {
      hide Locate, Join, Base, Index, NodeUrl;
      ok, w', count := false, w, 0;
      if "file:" <= inputPath { return; }
      var newName, content;
      if contents == "" {
        var filePath := TrimPrefix(path, "file://");
        if filePath == "" {
          var pos := Index(location, "://");
          if pos > 0 {
            match location[..pos] {
              case "file" => filePath := TrimPrefix(location, "file://");
              case "http" => ok := true; return;
              case "https" => ok := true; return;
              case "ftp" => ok := true; return;
              case _ => return;
            }
          } else {
            filePath := location;
          }
          if filePath == "" { return; }
        }
        if !Rooted(filePath) { filePath := Join(inputPath, filePath); }
        var place := Locate(env.cwd, filePath);
        if !Exists(w, place) || place in w.dirs { return; }
        newName := if basename != "" then basename else Base(filePath);
        content := w.files[place];
      } else {
        if basename == "" { basename := id; }
        newName := basename;
        content := contents;
      }
      var node := env.post(w, content);
      w' := w.(tick := w.tick + 1);
      if node.None? { return; }
      contents := "";
      location := NodeUrl(env.host, node.value);
      w' := w'.(web := w'.web[location := content]);
      path := "";
      basename := newName;
      ok, count := true, 1;
    }

    /** Fetch the File to a place of its own, and leave its location relative to the base path. */
    method Download(env: Env, w: World, downloadPath: string, basePath: string) returns (ok: bool, w': World)
      modifies this
      ensures if ok then DownloadFile(env, w, old(Data()), downloadPath, basePath) == Done(Data(), w', 1)
              else DownloadFile(env, w, old(Data()), downloadPath, basePath) == Failed(w')
    {
      hide Locate, Join, Base, BeforeQuery, Relative, FetchTo, TempDir;
      ok, w' := false, w;
      if contents != "" || location == "" { return; }
      var name := basename;
      if name == "" {
        name := Base(BeforeQuery(location));
        basename := name;
      }
      var filePath := Join(downloadPath, name);
      if Exists(w', Locate(env.cwd, filePath)) {
        var newDir := TempDir(env, w', downloadPath);
        w' := newDir.world;
        if newDir.Failed? { return; }
        filePath := Join(newDir.value, name);
      }
      var dir := Locate(env.cwd, downloadPath);
      if !Exists(w', dir) {
        if FileAbove(w', dir) { return; }
        w' := MakeDirs(w', dir);
      }
      var fetched := FetchTo(env, w', Locate(env.cwd, filePath), location);
      w' := fetched.1;
      if !fetched.0 { return; }
      location := Relative(basePath, filePath);
      ok := true;
    }
  }

  class DirObject {
    var location: string
    var path: string
    var basename: string

    constructor (location: string, path: string, basename: string)
      ensures Data() == DirData(location, path, basename)
    {
      this.location, this.path, this.basename := location, path, basename;
    }

    ghost function Data(): DirData
      reads this
    {
      DirData(location, path, basename)
    }
  }

  datatype Node =
    | ScalarNode(text: string)
    | FileNode(file: FileObject, secondary: seq<Node>)
    | ArrayNode(items: seq<Node>)
    | RecordNode(keys: seq<string>, fields: seq<Node>)
    | DirNode(dir: DirObject, listing: NodeListing)

  datatype NodeListing = NoNodes | Nodes(items: seq<Node>)

  // ----- The value a tree of objects has -----

  ghost function Objects(n: Node): set<object>
    decreases n
  {
    match n
    case ScalarNode(_) => {}
    case FileNode(f, secondary) => {f} + ObjectsAll(secondary)
    case ArrayNode(items) => ObjectsAll(items)
    case RecordNode(_, fields) => ObjectsAll(fields)
    case DirNode(d, Nodes(items)) => {d} + ObjectsAll(items)
    case DirNode(d, NoNodes) => {d}
  }

  ghost function ObjectsAll(ns: seq<Node>): set<object>
    decreases ns
  {
    if ns == [] then {} else Objects(ns[0]) + ObjectsAll(ns[1..])
  }

  ghost function ValueOf(n: Node): Value
    reads Objects(n)
    decreases n
  {
    match n
    case ScalarNode(t) => Scalar(t)
    case FileNode(f, secondary) => File(f.Data(), ValuesOf(secondary))
    case ArrayNode(items) => Array(ValuesOf(items))
    case RecordNode(keys, fields) => Record(keys, ValuesOf(fields))
    case DirNode(d, Nodes(items)) => Directory(d.Data(), Listing(ValuesOf(items)))
    case DirNode(d, NoNodes) => Directory(d.Data(), Unlisted)
  }

  ghost function ValuesOf(ns: seq<Node>): seq<Value>
    reads ObjectsAll(ns)
    decreases ns
  {
    if ns == [] then [] else [ValueOf(ns[0])] + ValuesOf(ns[1..])
  }

  /** No object occurs twice. */
  ghost predicate Separate(n: Node)
    decreases n
  {
    match n
    case ScalarNode(_) => true
    case FileNode(f, secondary) => f !in ObjectsAll(secondary) && SeparateAll(secondary)
    case ArrayNode(items) => SeparateAll(items)
    case RecordNode(_, fields) => SeparateAll(fields)
    case DirNode(d, Nodes(items)) => d !in ObjectsAll(items) && SeparateAll(items)
    case DirNode(_, NoNodes) => true
  }

  ghost predicate SeparateAll(ns: seq<Node>)
    decreases ns
  {
    ns == [] || (Objects(ns[0]) !! ObjectsAll(ns[1..]) && Separate(ns[0]) && SeparateAll(ns[1..]))
  }

  lemma {:induction false} Allocated(n: Node)
    ensures forall o :: o in Objects(n) ==> allocated(o)
    decreases n
  {
    match n
    case ScalarNode(_) =>
    case FileNode(_, secondary) => AllAllocated(secondary);
    case ArrayNode(items) => AllAllocated(items);
    case RecordNode(_, fields) => AllAllocated(fields);
    case DirNode(_, Nodes(items)) => AllAllocated(items);
    case DirNode(_, NoNodes) =>
  }

  lemma {:induction false} AllAllocated(ns: seq<Node>)
    ensures forall o :: o in ObjectsAll(ns) ==> allocated(o)
    decreases ns
  {
    if ns != [] {
      Allocated(ns[0]);
      AllAllocated(ns[1..]);
    }
  }

  lemma {:induction false} Apart(ns: seq<Node>)
    requires SeparateAll(ns)
    ensures forall j :: 0 <= j < |ns| ==> Separate(ns[j]) && Objects(ns[j]) <= ObjectsAll(ns)
    ensures forall j, k :: 0 <= j < k < |ns| ==> Objects(ns[j]) !! Objects(ns[k])
    decreases ns
  {
    hide Objects, Separate;
    if ns != [] {
      Apart(ns[1..]);
      assert forall j :: 1 <= j < |ns| ==> ns[j] == ns[1..][j - 1];
    }
  }

  lemma {:induction false} ValuesAt(ns: seq<Node>)
    ensures |ValuesOf(ns)| == |ns| && forall j :: 0 <= j < |ns| ==> ValuesOf(ns)[j] == ValueOf(ns[j])
    decreases ns
  {
    hide ValueOf;
    if ns != [] {
      ValuesAt(ns[1..]);
      assert forall j :: 1 <= j < |ns| ==> ns[j] == ns[1..][j - 1];
    }
  }

  /** What is done already in front of what is still to come. */
  function After(done: seq<Value>, n: nat, rest: Step<seq<Value>>): Step<seq<Value>> {
    if rest.Failed? then rest else Done(done + rest.value, rest.world, n + rest.count)
  }

  // ----- Downloading -----

  lemma {:induction false} DownloadAllStep(env: Env, w: World, vs: seq<Value>, i: nat, current: string, base: string,
                                           done: seq<Value>, n: nat, r: Step<Value>)
    requires i < |vs| && DataMover.Download(env, w, vs[i], current, base) == r
    ensures r.Failed? ==> After(done, n, DownloadAll(env, w, vs[i..], current, base)) == Failed(r.world)
    ensures r.Done? ==>
              After(done, n, DownloadAll(env, w, vs[i..], current, base)) ==
              After(done + [r.value], n + r.count, DownloadAll(env, r.world, vs[i + 1..], current, base))
  {
    hide DataMover.Download;
    assert vs[i..][0] == vs[i] && vs[i..][1..] == vs[i + 1..];
    if r.Done? {
      var rest := DownloadAll(env, r.world, vs[i + 1..], current, base);
      if rest.Done? { assert done + ([r.value] + rest.value) == done + [r.value] + rest.value; }
    }
  }

  method DownloadNodes(env: Env, w: World, ns: seq<Node>, current: string, base: string)
    returns (ok: bool, w': World, count: nat)
    requires SeparateAll(ns)
    modifies ObjectsAll(ns)
    ensures if ok then DownloadAll(env, w, old(ValuesOf(ns)), current, base) == Done(ValuesOf(ns), w', count)
            else DownloadAll(env, w, old(ValuesOf(ns)), current, base) == Failed(w')
    decreases ns
  {
    hide Objects, ObjectsAll, Separate, SeparateAll, ValueOf, ValuesOf, DownloadAll, After;
    AllAllocated(ns);
    Apart(ns);
    ValuesAt(ns);
    ghost var vs, done := ValuesOf(ns), [];
    ok, w', count := true, w, 0;
    var i := 0;
    AfterNothing(DownloadAll(env, w, vs, current, base));
    assert vs[0..] == vs;
    while i < |ns|
      invariant 0 <= i <= |ns| == |vs| && |done| == i
      invariant forall j :: 0 <= j < i ==> ValueOf(ns[j]) == done[j]
      invariant forall j :: i <= j < |ns| ==> ValueOf(ns[j]) == vs[j]
      invariant DownloadAll(env, w, vs, current, base)
                == After(done, count, DownloadAll(env, w', vs[i..], current, base))
    {
      DownloadAllStep(env, w', vs, i, current, base, done, count, DataMover.Download(env, w', vs[i], current, base));
      var subcount;
      label before:
      ok, w', subcount := DownloadNode(env, w', ns[i], current, base);
      if !ok { return; }
      assert forall j :: 0 <= j < |ns| && j != i ==> ValueOf(ns[j]) == old@before(ValueOf(ns[j]));
      done, count := done + [ValueOf(ns[i])], count + subcount;
      i := i + 1;
    }
    DownloadAllEnd(env, w', vs[i..], current, base, done, count);
    ValuesAt(ns);
    assert done == ValuesOf(ns);
  }

  lemma AfterNothing(r: Step<seq<Value>>)
    ensures After([], 0, r) == r
  {
    if r.Done? { assert [] + r.value == r.value; }
  }

  lemma {:induction false} DownloadAllEnd(env: Env, w: World, vs: seq<Value>, current: string, base: string,
                                          done: seq<Value>, n: nat)
    requires vs == []
    ensures After(done, n, DownloadAll(env, w, vs, current, base)) == Done(done, w, n)
  {
    assert done + [] == done;
  }

  method DownloadNode(env: Env, w: World, n: Node, current: string, base: string)
    returns (ok: bool, w': World, count: nat)
    requires Separate(n)
    modifies Objects(n)
    ensures if ok then DataMover.Download(env, w, old(ValueOf(n)), current, base) == Done(ValueOf(n), w', count)
            else DataMover.Download(env, w, old(ValueOf(n)), current, base) == Failed(w')
    decreases n
  {
    hide DownloadFile, DownloadAll, ValuesOf, SeparateAll, ObjectsAll, Join, Locate, FileAbove, MakeDirs, Base;
    ok, w', count := true, w, 0;
    match n
    case ScalarNode(_) =>
    case FileNode(f, secondary) =>
      AllAllocated(secondary);
      ok, w' := f.Download(env, w, current, base);
      if ok { ok, w', count := DownloadNodes(env, w', secondary, current, base); }
      count := count + 1;
    case ArrayNode(items) =>
      ok, w', count := DownloadNodes(env, w, items, current, base);
    case RecordNode(_, fields) =>
      ok, w', count := DownloadNodes(env, w, fields, current, base);
    case DirNode(d, listing) =>
      if listing.Nodes? { AllAllocated(listing.items); }
      if listing.NoNodes? && d.location == "" && d.path == "" { ok := false; return; }
      var name := if d.basename != "" then d.basename else Base(d.path);
      var inside := Join(current, name);
      d.path := "";
      if d.location != "" {
        d.location := name;
        if FileAbove(w, Locate(env.cwd, inside)) { ok := false; return; }
        w' := MakeDirs(w, Locate(env.cwd, inside));
      }
      if listing.Nodes? { ok, w', count := DownloadNodes(env, w', listing.items, inside, base); }
  }

  // ----- Uploading -----

  lemma {:induction false} UploadAllStep(env: Env, w: World, vs: seq<Value>, i: nat, current: string, depth: nat,
                                         done: seq<Value>, n: nat, r: Step<Value>)
    requires i < |vs| && DataMover.Upload(env, w, vs[i], current, depth) == r
    ensures r.Failed? ==> After(done, n, UploadAll(env, w, vs[i..], current, depth)) == Failed(r.world)
    ensures r.Done? ==>
              After(done, n, UploadAll(env, w, vs[i..], current, depth)) ==
              After(done + [r.value], n + r.count, UploadAll(env, r.world, vs[i + 1..], current, depth))
  {
    hide DataMover.Upload;
    assert vs[i..][0] == vs[i] && vs[i..][1..] == vs[i + 1..];
    if r.Done? {
      var rest := UploadAll(env, r.world, vs[i + 1..], current, depth);
      if rest.Done? { assert done + ([r.value] + rest.value) == done + [r.value] + rest.value; }
    }
  }

  lemma {:induction false} UploadAllEnd(env: Env, w: World, vs: seq<Value>, current: string, depth: nat,
                                        done: seq<Value>, n: nat)
    requires vs == []
    ensures After(done, n, UploadAll(env, w, vs, current, depth)) == Done(done, w, n)
  {
    assert done + [] == done;
  }

  lemma {:induction false} Within(ns: seq<Node>)
    ensures forall j :: 0 <= j < |ns| ==> Objects(ns[j]) <= ObjectsAll(ns)
    ensures forall o :: o in ObjectsAll(ns) ==> exists j :: 0 <= j < |ns| && o in Objects(ns[j])
    decreases ns
  {
    hide Objects;
    if ns != [] {
      Within(ns[1..]);
      assert forall j :: 1 <= j < |ns| ==> ns[j] == ns[1..][j - 1];
      forall o | o in ObjectsAll(ns) ensures exists j :: 0 <= j < |ns| && o in Objects(ns[j]) {
        if o in ObjectsAll(ns[1..]) {
          var j :| 0 <= j < |ns[1..]| && o in Objects(ns[1..][j]);
          assert ns[j + 1] == ns[1..][j];
        }
      }
    }
  }

  method UploadNodes(env: Env, w: World, ns: seq<Node>, current: string, depth: nat)
    returns (ok: bool, ns': seq<Node>, w': World, count: nat)
    requires SeparateAll(ns)
    modifies ObjectsAll(ns)
    ensures if ok then UploadAll(env, w, old(ValuesOf(ns)), current, depth) == Done(ValuesOf(ns'), w', count)
            else UploadAll(env, w, old(ValuesOf(ns)), current, depth) == Failed(w')
    ensures forall o :: o in ObjectsAll(ns') ==> o in ObjectsAll(ns) || fresh(o)
    decreases ns, 0
  {
    hide Objects, ObjectsAll, Separate, SeparateAll, ValueOf, ValuesOf, UploadAll, After;
    AllAllocated(ns);
    Apart(ns);
    ValuesAt(ns);
    ghost var vs, done := ValuesOf(ns), [];
    ok, ns', w', count := true, [], w, 0;
    var i := 0;
    AfterNothing(UploadAll(env, w, vs, current, depth));
    assert vs[0..] == vs;
    while i < |ns|
      invariant 0 <= i <= |ns| == |vs| && |done| == |ns'| == i
      invariant forall j :: 0 <= j < i ==> ValueOf(ns'[j]) == done[j]
      invariant forall j, o :: 0 <= j < i && o in Objects(ns'[j]) ==> o in Objects(ns[j]) || fresh(o)
      invariant forall j :: i <= j < |ns| ==> ValueOf(ns[j]) == vs[j]
      invariant UploadAll(env, w, vs, current, depth) == After(done, count, UploadAll(env, w', vs[i..], current, depth))
    {
      UploadAllStep(env, w', vs, i, current, depth, done, count, DataMover.Upload(env, w', vs[i], current, depth));
      AllAllocated(ns');
      Within(ns');
      var n', subcount;
      label before:
      ok, n', w', subcount := UploadNode(env, w', ns[i], current, depth);
      if !ok { return; }
      assert forall j :: i < j < |ns| ==> ValueOf(ns[j]) == old@before(ValueOf(ns[j]));
      assert forall j :: 0 <= j < i ==> ValueOf(ns'[j]) == old@before(ValueOf(ns'[j]));
      ns', done, count := ns' + [n'], done + [ValueOf(n')], count + subcount;
      i := i + 1;
    }
    UploadAllEnd(env, w', vs[i..], current, depth, done, count);
    ValuesAt(ns');
    Within(ns');
    assert done == ValuesOf(ns');
  }

  method UploadNode(env: Env, w: World, n: Node, current: string, depth: nat)
    returns (ok: bool, n': Node, w': World, count: nat)
    requires Separate(n)
    modifies Objects(n)
    ensures if ok then DataMover.Upload(env, w, old(ValueOf(n)), current, depth) == Done(ValueOf(n'), w', count)
            else DataMover.Upload(env, w, old(ValueOf(n)), current, depth) == Failed(w')
    ensures forall o :: o in Objects(n') ==> o in Objects(n) || fresh(o)
    decreases n, 0
  {
    hide UploadFile, UploadAll, UploadDirectory, ValuesOf, SeparateAll, ObjectsAll;
    ok, n', w', count := true, n, w, 0;
    match n
    case ScalarNode(_) =>
    case FileNode(f, secondary) =>
      AllAllocated(secondary);
      var own;
      ok, w', own := f.Upload(env, w, current);
      if ok {
        var secondary';
        ok, secondary', w', count := UploadNodes(env, w', secondary, current, depth);
        n', count := FileNode(f, secondary'), own + count;
      }
    case ArrayNode(items) =>
      var items';
      ok, items', w', count := UploadNodes(env, w, items, current, depth);
      n' := ArrayNode(items');
    case RecordNode(keys, fields) =>
      var fields';
      ok, fields', w', count := UploadNodes(env, w, fields, current, depth);
      n' := RecordNode(keys, fields');
    case DirNode(d, Nodes(items)) =>
      AllAllocated(items);
      var items';
      ok, items', w', count := UploadNodes(env, w, items, current, depth);
      n' := DirNode(d, Nodes(items'));
    case DirNode(d, NoNodes) =>
      if d.path == "" {
        if d.location == "" { ok := false; return; }
        var path := env.urlPath(d.location);
        if path.Some? { d.path := path.value; }
      }
      if d.path == "" { ok := false; return; }
      var items;
      ok, items, w', count := UploadFolder(env, w, d.path, current, depth);
      n' := DirNode(d, if items == [] then NoNodes else Nodes(items));
  }

  // ----- Uploading a directory on disk -----

  lemma {:induction false} EntriesStep(env: Env, w: World, names: seq<string>, i: nat, dir: string, current: string,
                                       depth: nat, done: seq<Value>, n: nat)
    requires i < |names| && depth > 0
    ensures After(done, n, UploadEntries(env, w, names[i..], dir, current, depth)) ==
            if HasSuffix(names[i], ".md5")
              then After(done, n, UploadEntries(env, w, names[i + 1..], dir, current, depth))
            else
              var r := UploadEntry(env, w, Join(dir, names[i]), current, depth);
              if r.Failed? then Failed(r.world)
              else After(done + [r.value], n + r.count,
                         UploadEntries(env, r.world, names[i + 1..], dir, current, depth))
  {
    hide UploadEntry, HasSuffix, Join;
    assert names[i..][0] == names[i] && names[i..][1..] == names[i + 1..];
    var r := UploadEntry(env, w, Join(dir, names[i]), current, depth);
    if !HasSuffix(names[i], ".md5") && r.Done? {
      var rest := UploadEntries(env, r.world, names[i + 1..], dir, current, depth);
      if rest.Done? { assert done + ([r.value] + rest.value) == done + [r.value] + rest.value; }
    }
  }

  lemma {:induction false} EntriesEnd(env: Env, w: World, names: seq<string>, dir: string, current: string, depth: nat,
                                      done: seq<Value>, n: nat)
    requires names == [] && depth > 0
    ensures After(done, n, UploadEntries(env, w, names, dir, current, depth)) == Done(done, w, n)
  {
    assert done + [] == done;
  }

  ghost function ListingOf(items: seq<Node>): Listing
    reads ObjectsAll(items)
  {
    if items == [] then Unlisted else Listing(ValuesOf(items))
  }

  method UploadFolder(env: Env, w: World, path: string, current: string, depth: nat)
    returns (ok: bool, items: seq<Node>, w': World, count: nat)
    ensures if ok then UploadDirectory(env, w, path, current, depth) == Done(ListingOf(items), w', count)
            else UploadDirectory(env, w, path, current, depth) == Failed(w')
    ensures forall o :: o in ObjectsAll(items) ==> fresh(o)
    decreases depth, 1
  {
    hide Objects, ObjectsAll, ValueOf, ValuesOf, UploadEntries, UploadEntry, After, Join, Locate, TrimSuffix;
    ok, items, w', count := false, [], w, 0;
    var fixed, slashed := Join(current, path), TrimSuffix(current, "/") + "/";
    var place := Locate(env.cwd, fixed);
    Within([]);
    if depth == 0 || place !in w.dirs { return; }
    var names := env.children(w.files, w.dirs, place);
    ghost var done := [];
    var i := 0;
    AfterNothing(UploadEntries(env, w, names, fixed, slashed, depth));
    assert names[0..] == names;
    while i < |names|
      invariant 0 <= i <= |names| && |done| == |items|
      invariant forall j :: 0 <= j < |items| ==> ValueOf(items[j]) == done[j]
      invariant forall j, o :: 0 <= j < |items| && o in Objects(items[j]) ==> fresh(o)
      invariant UploadEntries(env, w, names, fixed, slashed, depth)
             == After(done, count, UploadEntries(env, w', names[i..], fixed, slashed, depth))
    {
      EntriesStep(env, w', names, i, fixed, slashed, depth, done, count);
      if !HasSuffix(names[i], ".md5") {
        AllAllocated(items);
        Within(items);
        var item, subcount;
        label before:
        ok, item, w', subcount := UploadFound(env, w', Join(fixed, names[i]), slashed, depth);
        if !ok { return; }
        assert forall j :: 0 <= j < |items| ==> ValueOf(items[j]) == old@before(ValueOf(items[j]));
        items, done, count := items + [item], done + [ValueOf(item)], count + subcount;
      }
      i := i + 1;
    }
    ok := true;
    EntriesEnd(env, w', names[i..], fixed, slashed, depth, done, count);
    ValuesAt(items);
    Within(items);
    assert done == ValuesOf(items);
  }

  method UploadFound(env: Env, w: World, entry: string, current: string, depth: nat)
    returns (ok: bool, item: Node, w': World, count: nat)
    requires depth > 0
    ensures if ok then UploadEntry(env, w, entry, current, depth) == Done(ValueOf(item), w', count)
            else UploadEntry(env, w, entry, current, depth) == Failed(w')
    ensures forall o :: o in Objects(item) ==> fresh(o)
    decreases depth, 0
  {
    hide UploadFile, UploadDirectory, ValuesOf, ObjectsAll, Base, TrimPrefix, Locate;
    ok, item, w', count := false, ScalarNode(""), w, 0;
    var relative, place := TrimPrefix(entry, current), Locate(env.cwd, entry);
    if !Exists(w, place) { return; }
    if place in w.dirs {
      var items;
      ok, items, w', count := UploadFolder(env, w, relative, current, depth - 1);
      AllAllocated(items);
      var subdir := new DirObject("", entry, Base(entry));
      item := DirNode(subdir, if items == [] then NoNodes else Nodes(items));
    } else {
      var file := new FileObject("", "", relative, Base(relative), "");
      ok, w', count := file.Upload(env, w, current);
      file.path := "";
      file.basename := Base(entry);
      item := FileNode(file, []);
      Within([]);
      ValuesAt([]);
    }
  }
}
