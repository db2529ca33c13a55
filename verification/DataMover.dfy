/**
  * Moving the files of a CWL value tree to a Shock store and back to a local directory. The disk, the
  * web and the answers of the network are values: a world, and an environment of answers not known
  * beforehand.
  */
module DataMover {
  import opened Wrappers
  import opened GoPath
  import opened GoPathRelative

  /** What a request for a URL returns. */
  type Web = map<string, Content>

  datatype World = World(files: map<Place, Content>, dirs: set<Place>, web: Web, tick: nat)

  // ----- The value tree -----

  datatype FileData = FileData(id: string, location: string, path: string, basename: string, contents: string)

  datatype DirData = DirData(location: string, path: string, basename: string)

  datatype Value =
    | Scalar(text: string)
    | File(file: FileData, secondary: seq<Value>)
    | Array(items: seq<Value>)
    | Record(keys: seq<string>, fields: seq<Value>)
    | Directory(dir: DirData, listing: Listing)

  /** A Directory may leave its listing out, which is not the same as an empty one. */
  datatype Listing = Unlisted | Listing(items: seq<Value>)

  // ----- The environment -----

  /** The URL of a Shock server: scheme, authority, and the parts of the path to its API. */
  datatype Host = Host(scheme: string, authority: string, api: seq<string>)

  /** How a fetch ends: with all of the file, or broken off with part of it written or none. */
  datatype Fetch = Whole | Broken(part: Option<Content>)

  /** The working directory, and the answers of the outside: ids of posts, fates of fetches, new names, listings. */
  datatype Env = Env(
    cwd: Place,
    tempRoot: string,
    host: Host,
    post: (World, Content) -> Option<string>,
    fetch: (World, string) -> Fetch,
    tempName: (World, Place) -> Option<string>,
    children: (map<Place, Content>, set<Place>, Place) -> seq<string>,
    urlPath: string -> Option<string>)

  function NodeUrl(host: Host, id: string): string {
    host.scheme + "://" + host.authority + "/" + Slashed(host.api + ["node", id]) + "?download"
  }

  /** A post gives a plain id that holds the posted content, and disturbs no other. */
  ghost predicate PostsHold(env: Env) {
    forall w: World, c: Content :: env.post(w, c).Some? ==>
      var id := env.post(w, c).value;
      Plain(id) && '?' !in id && (NodeUrl(env.host, id) in w.web ==> w.web[NodeUrl(env.host, id)] == c)
  }

  /** A new temporary directory has a plain name with the given prefix, not in use. */
  ghost predicate TempNamesFree(env: Env) {
    forall w: World, p: Place :: env.tempName(w, p).Some? ==>
      var name := env.tempName(w, p).value;
      Plain(name) && "input_" <= name && !Exists(w, p + [name])
  }

  function Locate(cwd: Place, path: string): Place {
    Reduce(true, if Rooted(path) then [] else cwd, Split(path))
  }

  predicate Exists(w: World, p: Place) {
    p in w.files || p in w.dirs
  }

  // ----- Uploading a file -----

  datatype Step<+T> = Done(value: T, world: World, count: nat) | Failed(world: World)

  /** Where the content of a File is. */
  datatype Source = Literal | Remote | Local(path: string) | Unknown

  function SourceOf(f: FileData): Source {
    if f.contents != "" then Literal
    else
      var path := TrimPrefix(f.path, "file://");
      if path != "" then Local(path)
      else
        var pos := Index(f.location, "://");
        if pos > 0 then
          var scheme := f.location[..pos];
          if scheme == "file" then NonEmpty(TrimPrefix(f.location, "file://"))
          else if scheme == "http" || scheme == "https" || scheme == "ftp" then Remote
          else Unknown
        else NonEmpty(f.location)
  }

  function NonEmpty(path: string): Source {
    if path == "" then Unknown else Local(path)
  }

  function FullPath(inputPath: string, path: string): string {
    if Rooted(path) then path else Join(inputPath, path)
  }

  /** The name an uploaded File goes by. */
  function UploadName(f: FileData, inputPath: string): string {
    if f.basename != "" then f.basename
    else if SourceOf(f).Local? then Base(FullPath(inputPath, SourceOf(f).path))
    else f.id
  }

  function UploadFile(env: Env, w: World, f: FileData, inputPath: string): Step<FileData> {
    if "file:" <= inputPath then Failed(w)
    else
      match SourceOf(f)
      case Remote => Done(f, w, 0)
      case Unknown => Failed(w)
      case Literal => Post(env, w, f, f.contents, UploadName(f, inputPath))
      case Local(path) =>
        var place := Locate(env.cwd, FullPath(inputPath, path));
        if place in w.dirs || place !in w.files then Failed(w)
        else Post(env, w, f, w.files[place], UploadName(f, inputPath))
  }

  function Post(env: Env, w: World, f: FileData, content: Content, name: string): Step<FileData> {
    match env.post(w, content)
    case None => Failed(w.(tick := w.tick + 1))
    case Some(id) =>
      var url := NodeUrl(env.host, id);
      Done(f.(contents := "", location := url, path := "", basename := name),
           w.(web := w.web[url := content], tick := w.tick + 1), 1)
  }

  // ----- Downloading a file -----

  /** The part before the first question mark. */
  function BeforeQuery(s: string): string {
    if s == "" || s[0] == '?' then "" else [s[0]] + BeforeQuery(s[1..])
  }

  function DownloadName(f: FileData): string {
    if f.basename != "" then f.basename else Base(BeforeQuery(f.location))
  }

  predicate FileAbove(w: World, p: Place) {
    exists k :: 0 <= k <= |p| && p[..k] in w.files
  }

  function MakeDirs(w: World, p: Place): World {
    w.(dirs := w.dirs + set k | 0 <= k <= |p| :: p[..k])
  }

  /** Write what the URL holds to a path in an existing directory. */
  function FetchTo(env: Env, w: World, p: Place, url: string): (bool, World) {
    var w1 := w.(tick := w.tick + 1);
    if p == [] || p[..|p| - 1] !in w.dirs || p in w.dirs || url !in w.web then (false, w1)
    else
      match env.fetch(w, url)
      case Whole => (true, w1.(files := w1.files[p := w.web[url]]))
      case Broken(None) => (false, w1)
      case Broken(Some(part)) => (false, w1.(files := w1.files[p := part]))
  }

  /** A fresh directory for a file whose place is taken. */
  function TempDir(env: Env, w: World, path: string): Step<string> {
    var dir := if path == "" then env.tempRoot else path;
    var place := Locate(env.cwd, dir);
    var name := env.tempName(w, place);
    if place !in w.dirs || name.None? then Failed(w.(tick := w.tick + 1))
    else Done(Join(dir, name.value), w.(dirs := w.dirs + {place + [name.value]}, tick := w.tick + 1), 0)
  }

  /** The path to download to. */
  function Target(env: Env, w: World, name: string, path: string): Step<string> {
    var wanted := Join(path, name);
    if Exists(w, Locate(env.cwd, wanted)) then
      match TempDir(env, w, path)
      case Failed(w1) => Failed(w1)
      case Done(dir, w1, _) => Done(Join(dir, name), w1, 0)
    else Done(wanted, w, 0)
  }

  function DownloadFile(env: Env, w: World, f: FileData, path: string, base: string): Step<FileData> {
    if f.contents != "" || f.location == "" then Failed(w)
    else
      var name := DownloadName(f);
      match Target(env, w, name, path)
      case Failed(w1) => Failed(w1)
      case Done(target, w1, _) =>
        var dir := Locate(env.cwd, path);
        if !Exists(w1, dir) && FileAbove(w1, dir) then Failed(w1)
        else
          var w2 := if Exists(w1, dir) then w1 else MakeDirs(w1, dir);
          var (ok, w3) := FetchTo(env, w2, Locate(env.cwd, target), f.location);
          if !ok then Failed(w3) else Done(f.(basename := name, location := Relative(base, target)), w3, 1)
  }

  // ----- Uploading a directory on disk -----

  function UploadDirectory(env: Env, w: World, path: string, current: string, depth: nat): Step<Listing>
    decreases depth, 1, 0
  {
    var fixed := Join(current, path);
    var place := Locate(env.cwd, fixed);
    if depth == 0 || place !in w.dirs then Failed(w)
    else
      match UploadEntries(env, w, env.children(w.files, w.dirs, place), fixed, TrimSuffix(current, "/") + "/", depth)
      case Failed(w1) => Failed(w1)
      case Done(items, w1, n) => Done(if items == [] then Unlisted else Listing(items), w1, n)
  }

  function UploadEntries(env: Env, w: World, names: seq<string>, dir: string, current: string,
                         depth: nat): Step<seq<Value>>
    requires depth > 0
    decreases depth, 0, |names|
  {
    if names == [] then Done([], w, 0)
    else if HasSuffix(names[0], ".md5") then UploadEntries(env, w, names[1..], dir, current, depth)
    else
      match UploadEntry(env, w, Join(dir, names[0]), current, depth)
      case Failed(w1) => Failed(w1)
      case Done(item, w1, n) =>
        match UploadEntries(env, w1, names[1..], dir, current, depth)
        case Failed(w2) => Failed(w2)
        case Done(items, w2, m) => Done([item] + items, w2, n + m)
  }

  function UploadEntry(env: Env, w: World, entry: string, current: string, depth: nat): Step<Value>
    requires depth > 0
    decreases depth, 0, 0
  {
    var place, relative := Locate(env.cwd, entry), TrimPrefix(entry, current);
    if place in w.dirs then
      match UploadDirectory(env, w, relative, current, depth - 1)
      case Failed(w1) => Failed(w1)
      case Done(listing, w1, n) => Done(Directory(DirData("", entry, Base(entry)), listing), w1, n)
    else if place in w.files then
      match UploadFile(env, w, FileData("", "", relative, Base(relative), ""), current)
      case Failed(w1) => Failed(w1)
      case Done(f, w1, n) => Done(File(f.(path := "", basename := Base(entry)), []), w1, n)
    else Failed(w)
  }

  // ----- Walking the tree -----

  function Upload(env: Env, w: World, v: Value, current: string, depth: nat): Step<Value>
    decreases v
  {
    match v
    case Scalar(_) => Done(v, w, 0)
    case File(f, secondary) =>
      (match UploadFile(env, w, f, current)
       case Failed(w1) => Failed(w1)
       case Done(f', w1, n) =>
         match UploadAll(env, w1, secondary, current, depth)
         case Failed(w2) => Failed(w2)
         case Done(secondary', w2, m) => Done(File(f', secondary'), w2, n + m))
    case Array(items) =>
      (match UploadAll(env, w, items, current, depth)
       case Failed(w1) => Failed(w1)
       case Done(items', w1, n) => Done(Array(items'), w1, n))
    case Record(keys, fields) =>
      (match UploadAll(env, w, fields, current, depth)
       case Failed(w1) => Failed(w1)
       case Done(fields', w1, n) => Done(Record(keys, fields'), w1, n))
    case Directory(d, Listing(listing)) =>
      (match UploadAll(env, w, listing, current, depth)
       case Failed(w1) => Failed(w1)
       case Done(listing', w1, n) => Done(Directory(d, Listing(listing')), w1, n))
    case Directory(d, Unlisted) =>
      var path := DirPath(env, d);
      if path == "" then Failed(w)
      else
        match UploadDirectory(env, w, path, current, depth)
        case Failed(w1) => Failed(w1)
        case Done(listing, w1, n) => Done(Directory(d.(path := path), listing), w1, n)
  }

  function UploadAll(env: Env, w: World, vs: seq<Value>, current: string, depth: nat): Step<seq<Value>>
    decreases vs
  {
    if vs == [] then Done([], w, 0)
    else
      match Upload(env, w, vs[0], current, depth)
      case Failed(w1) => Failed(w1)
      case Done(v, w1, n) =>
        match UploadAll(env, w1, vs[1..], current, depth)
        case Failed(w2) => Failed(w2)
        case Done(rest, w2, m) => Done([v] + rest, w2, n + m)
  }

  /** The path of a Directory on disk, from its location if need be. */
  function DirPath(env: Env, d: DirData): string {
    if d.path != "" then d.path
    else if d.location != "" && env.urlPath(d.location).Some? then env.urlPath(d.location).value
    else ""
  }

  function DirName(d: DirData): string {
    if d.basename != "" then d.basename else Base(d.path)
  }

  function Download(env: Env, w: World, v: Value, current: string, base: string): Step<Value>
    decreases v
  {
    match v
    case Scalar(_) => Done(v, w, 0)
    case File(f, secondary) =>
      (match DownloadFile(env, w, f, current, base)
       case Failed(w1) => Failed(w1)
       case Done(f', w1, n) =>
         match DownloadAll(env, w1, secondary, current, base)
         case Failed(w2) => Failed(w2)
         case Done(secondary', w2, m) => Done(File(f', secondary'), w2, n + m))
    case Array(items) =>
      (match DownloadAll(env, w, items, current, base)
       case Failed(w1) => Failed(w1)
       case Done(items', w1, n) => Done(Array(items'), w1, n))
    case Record(keys, fields) =>
      (match DownloadAll(env, w, fields, current, base)
       case Failed(w1) => Failed(w1)
       case Done(fields', w1, n) => Done(Record(keys, fields'), w1, n))
    case Directory(d, listing) =>
      if listing.Unlisted? && d.location == "" && d.path == "" then Failed(w)
      else
        var inside := Join(current, DirName(d));
        var place := Locate(env.cwd, inside);
        if d.location != "" && FileAbove(w, place) then Failed(w)
        else
          var w1 := if d.location != "" then MakeDirs(w, place) else w;
          var d' := d.(path := "", location := if d.location != "" then DirName(d) else "");
          if listing.Unlisted? then Done(Directory(d', Unlisted), w1, 0)
          else
            match DownloadAll(env, w1, listing.items, inside, base)
            case Failed(w2) => Failed(w2)
            case Done(listing', w2, n) => Done(Directory(d', Listing(listing')), w2, n)
  }

  function DownloadAll(env: Env, w: World, vs: seq<Value>, current: string, base: string): Step<seq<Value>>
    decreases vs
  {
    if vs == [] then Done([], w, 0)
    else
      match Download(env, w, vs[0], current, base)
      case Failed(w1) => Failed(w1)
      case Done(v, w1, n) =>
        match DownloadAll(env, w1, vs[1..], current, base)
        case Failed(w2) => Failed(w2)
        case Done(rest, w2, m) => Done([v] + rest, w2, n + m)
  }

  // ----- The files of a tree -----

  /** The Files in the order they are visited. */
  function Files(v: Value): seq<FileData>
    decreases v
  {
    match v
    case Scalar(_) => []
    case File(f, secondary) => [f] + FilesAll(secondary)
    case Array(items) => FilesAll(items)
    case Record(_, fields) => FilesAll(fields)
    case Directory(_, Listing(listing)) => FilesAll(listing)
    case Directory(_, Unlisted) => []
  }

  function FilesAll(vs: seq<Value>): seq<FileData>
    decreases vs
  {
    if vs == [] then [] else Files(vs[0]) + FilesAll(vs[1..])
  }

  /** Every Directory of the tree has a listing. */
  predicate Listed(v: Value)
    decreases v
  {
    match v
    case Scalar(_) => true
    case File(_, secondary) => ListedAll(secondary)
    case Array(items) => ListedAll(items)
    case Record(_, fields) => ListedAll(fields)
    case Directory(_, Listing(listing)) => ListedAll(listing)
    case Directory(_, Unlisted) => false
  }

  predicate ListedAll(vs: seq<Value>)
    decreases vs
  {
    vs == [] || (Listed(vs[0]) && ListedAll(vs[1..]))
  }
}
