/** Slash-separated paths, as the path and strings packages of Go treat them. */
module GoPath {

  /** An absolute place on disk: the names from the root down. */
  type Place = seq<string>

  // ----- Strings -----

  function TrimPrefix(s: string, prefix: string): string {
    if prefix <= s then s[|prefix|..] else s
  }

  function TrimSuffix(s: string, suffix: string): string {
    if |suffix| <= |s| && s[|s| - |suffix|..] == suffix then s[..|s| - |suffix|] else s
  }

  predicate HasSuffix(s: string, suffix: string) {
    |suffix| <= |s| && s[|s| - |suffix|..] == suffix
  }

  /** The first place where `sub` occurs, -1 if there is none. */
  function Index(s: string, sub: string): (i: int)
    ensures -1 <= i <= |s|
  {
    if sub <= s then 0
    else if s == "" then -1
    else
      var i := Index(s[1..], sub);
      if i == -1 then -1 else 1 + i
  }

  /** The parts between the slashes. */
  function Split(s: string): (parts: seq<string>)
    ensures parts != []
  {
    if s == "" then [""]
    else if s[0] == '/' then [""] + Split(s[1..])
    else
      var rest := Split(s[1..]);
      [[s[0]] + rest[0]] + rest[1..]
  }

  function Slashed(parts: seq<string>): string {
    if parts == [] then "" else if |parts| == 1 then parts[0] else parts[0] + "/" + Slashed(parts[1..])
  }

  // ----- Paths in shortest form -----

  datatype Path = Path(rooted: bool, parts: seq<string>)

  predicate Rooted(s: string) {
    s != "" && s[0] == '/'
  }

  /** One more part on a path: `.` and empty parts stay out, `..` takes the last one back. */
  function Push(rooted: bool, done: seq<string>, part: string): seq<string> {
    if part == "" || part == "." then done
    else if part == ".." then
      if done != [] && done[|done| - 1] != ".." then done[..|done| - 1] else if rooted then done else done + [part]
    else done + [part]
  }

  function Reduce(rooted: bool, done: seq<string>, parts: seq<string>): seq<string>
    decreases |parts|
  {
    if parts == [] then done else Reduce(rooted, Push(rooted, done, parts[0]), parts[1..])
  }

  function Parse(s: string): Path {
    Path(Rooted(s), Reduce(Rooted(s), [], Split(s)))
  }

  function Render(p: Path): string {
    if p.rooted then "/" + Slashed(p.parts) else if p.parts == [] then "." else Slashed(p.parts)
  }

  function Clean(s: string): string {
    Render(Parse(s))
  }

  function Join(a: string, b: string): string {
    if a == "" then (if b == "" then "" else Clean(b)) else if b == "" then Clean(a) else Clean(a + "/" + b)
  }

  function TrimSlashes(s: string): string {
    if s != "" && s[|s| - 1] == '/' then TrimSlashes(s[..|s| - 1]) else s
  }

  /** The last part of a path. */
  function Base(s: string): (b: string)
    ensures b != ""
  {
    if s == "" then "."
    else
      var t := TrimSlashes(s);
      var parts := Split(t);
      if t == "" || parts[|parts| - 1] == "" then "/" else parts[|parts| - 1]
  }

  /** A name that can stand for an entry of a directory. */
  predicate Plain(name: string) {
    name != "" && name != "." && name != ".." && '/' !in name
  }

  // ----- Splitting -----

  lemma {:induction false} SplitSlash(a: string, b: string)
    ensures Split(a + "/" + b) == Split(a) + Split(b)
  {
    if a == "" {
      assert (a + "/" + b)[1..] == b;
    } else {
      SplitSlash(a[1..], b);
      hide Split;
      SplitCons(a);
      SplitCons(a + "/" + b);
      assert (a + "/" + b)[1..] == a[1..] + "/" + b;
      PrependFirst(a[0], Split(a[1..]), Split(b));
    }
  }

  lemma PrependFirst(c: char, a: seq<string>, b: seq<string>)
    requires a != []
    ensures [[c] + (a + b)[0]] + (a + b)[1..] == ([[c] + a[0]] + a[1..]) + b
    ensures [""] + (a + b) == ([""] + a) + b
  {}

  lemma SplitCons(s: string)
    requires s != ""
    ensures Split(s) == if s[0] == '/' then [""] + Split(s[1..]) else [[s[0]] + Split(s[1..])[0]] + Split(s[1..])[1..]
  {}

  lemma {:induction false} SplitWhole(s: string)
    requires '/' !in s
    ensures Split(s) == [s]
  {
    if s != "" {
      SplitWhole(s[1..]);
      assert [s[0]] + s[1..] == s;
    }
  }

  ghost predicate SlashFree(parts: seq<string>) {
    forall i :: 0 <= i < |parts| ==> '/' !in parts[i]
  }

  lemma {:induction false} SplitIsSlashFree(s: string)
    ensures SlashFree(Split(s))
  {
    if s != "" { SplitIsSlashFree(s[1..]); }
  }

  lemma {:induction false} SplitSlashed(parts: seq<string>)
    requires SlashFree(parts) && parts != []
    ensures Split(Slashed(parts)) == parts
  {
    SplitWhole(parts[0]);
    if |parts| > 1 {
      SplitSlashed(parts[1..]);
      SplitSlash(parts[0], Slashed(parts[1..]));
    }
  }

  // ----- Reducing -----

  lemma {:induction false} ReduceConcat(rooted: bool, done: seq<string>, a: seq<string>, b: seq<string>)
    ensures Reduce(rooted, done, a + b) == Reduce(rooted, Reduce(rooted, done, a), b)
    decreases |a|
  {
    if a == [] {
      assert a + b == b;
    } else {
      ReduceConcat(rooted, Push(rooted, done, a[0]), a[1..], b);
      assert (a + b)[1..] == a[1..] + b;
    }
  }

  /** Parts that reducing leaves as they are. */
  ghost predicate Normal(rooted: bool, parts: seq<string>) {
    && SlashFree(parts)
    && (forall i :: 0 <= i < |parts| ==> parts[i] != "" && parts[i] != ".")
    && (forall i :: 0 <= i < |parts| && parts[i] == ".." ==> !rooted && forall j :: 0 <= j < i ==> parts[j] == "..")
  }

  lemma PushNormal(rooted: bool, done: seq<string>, part: string)
    requires Normal(rooted, done) && '/' !in part
    ensures Normal(rooted, Push(rooted, done, part))
  {}

  lemma {:induction false} ReduceNormal(rooted: bool, done: seq<string>, parts: seq<string>)
    requires Normal(rooted, done) && SlashFree(parts)
    ensures Normal(rooted, Reduce(rooted, done, parts))
    decreases |parts|
  {
    if parts != [] {
      PushNormal(rooted, done, parts[0]);
      ReduceNormal(rooted, Push(rooted, done, parts[0]), parts[1..]);
    }
  }

  lemma PushOn(rooted: bool, done: seq<string>, parts: seq<string>)
    requires parts != [] && Normal(rooted, done + parts)
    ensures Push(rooted, done, parts[0]) == done + [parts[0]]
  {
    assert (done + parts)[|done|] == parts[0];
    if parts[0] == ".." && done != [] { assert (done + parts)[|done| - 1] == done[|done| - 1]; }
  }

  lemma {:induction false} ReduceKeeps(rooted: bool, done: seq<string>, parts: seq<string>)
    requires Normal(rooted, done + parts)
    ensures Reduce(rooted, done, parts) == done + parts
    decreases |parts|
  {
    if parts != [] {
      PushOn(rooted, done, parts);
      assert done + parts == (done + [parts[0]]) + parts[1..];
      ReduceKeeps(rooted, done + [parts[0]], parts[1..]);
    }
  }

  // ----- Clean and Join -----

  lemma {:induction false} ParseIsNormal(s: string)
    ensures Normal(Rooted(s), Parse(s).parts)
  {
    hide Split, Reduce;
    SplitIsSlashFree(s);
    ReduceNormal(Rooted(s), [], Split(s));
  }

  lemma {:induction false} SlashedHead(parts: seq<string>)
    requires parts != [] && parts[0] != ""
    ensures Slashed(parts) != "" && Slashed(parts)[0] == parts[0][0]
  {}

  /** A path in shortest form reads back as it was written. */
  lemma {:induction false} ParseRender(p: Path)
    requires Normal(p.rooted, p.parts)
    ensures Parse(Render(p)) == p
  {
    hide Split, Reduce, Slashed;
    var s := Render(p);
    if p.parts == [] {
      ParseRoots();
    } else {
      SlashedHead(p.parts);
      SplitSlashed(p.parts);
      ReduceKeeps(p.rooted, [], p.parts);
      assert [] + p.parts == p.parts;
      if p.rooted {
        assert s == "" + "/" + Slashed(p.parts);
        SplitSlash("", Slashed(p.parts));
        SplitWhole("");
        ReduceConcat(true, [], [""], p.parts);
        ReduceEmpty(true, []);
      }
    }
  }

  lemma ReduceEmpty(rooted: bool, done: seq<string>)
    ensures Reduce(rooted, done, [""]) == done
  {
    assert Reduce(rooted, done, []) == done;
  }

  lemma ParseRoots()
    ensures Parse("/" + Slashed([])) == Path(true, []) && Parse(".") == Path(false, [])
  {
    assert "/" + Slashed([]) == "/";
    SplitSlash("", "");
    SplitWhole("");
    assert "" + "/" + "" == "/";
    assert Split("/") == ["", ""];
    ReduceConcat(true, [], [""], [""]);
    assert [""] + [""] == ["", ""];
    ReduceEmpty(true, []);
    SplitWhole(".");
    assert Reduce(false, Push(false, [], "."), []) == [];
  }

  lemma {:induction false} ParseClean(s: string)
    ensures Parse(Clean(s)) == Parse(s)
  {
    ParseIsNormal(s);
    ParseRender(Parse(s));
  }

  lemma {:induction false} ParseSlash(a: string, b: string)
    requires a != ""
    ensures Parse(a + "/" + b) == Path(Rooted(a), Reduce(Rooted(a), Parse(a).parts, Split(b)))
  {
    hide Split, Reduce;
    SplitSlash(a, b);
    ReduceConcat(Rooted(a), [], Split(a), Split(b));
  }

  /** A name joined to a path is one more part. */
  lemma {:induction false} ParseJoin(a: string, name: string)
    requires Plain(name)
    ensures Parse(Join(a, name)) == Path(Rooted(a), Parse(a).parts + [name])
    ensures Join(a, name) == Render(Parse(Join(a, name)))
  {
    hide Split, Reduce, Slashed, Render;
    SplitWhole(name);
    ReducePlain(Rooted(a), Parse(a).parts, name);
    if a == "" {
      SplitWhole("");
      ReduceEmpty(false, []);
      ReducePlain(false, [], name);
      ParseClean(name);
    } else {
      ParseSlash(a, name);
      ParseClean(a + "/" + name);
    }
  }

  lemma ReducePlain(rooted: bool, done: seq<string>, name: string)
    requires Plain(name)
    ensures Reduce(rooted, done, [name]) == done + [name]
  {
    assert Reduce(rooted, done + [name], []) == done + [name];
  }
}
