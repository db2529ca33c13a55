/** The worker's file cache: where a node's file is kept, and that it holds what the Shock store holds. */
module WorkerCache {
  import opened Wrappers
  import opened GoPath

  type Id = string

  // ----- Paths -----

  function CacheDir(data: string, id: Id): string {
    if |id| < 7 then data else data + "/" + id[0..2] + "/" + id[2..4] + "/" + id[4..6] + "/" + id
  }

  function CachePath(data: string, id: Id): string {
    CacheDir(data, id) + "/" + id + ".data"
  }

  /** A short id is kept in the data directory itself, a longer one below its first three pairs of characters. */
  lemma CachePathIs(data: string, a: string, b: string, c: string, rest: string)
    requires |a| == |b| == |c| == 2
    ensures var id := a + b + c + rest;
            CachePath(data, id) ==
            if rest == "" then data + "/" + id + ".data"
            else data + "/" + a + "/" + b + "/" + c + "/" + id + "/" + id + ".data"
    ensures forall id: Id :: |id| < 6 ==> CachePath(data, id) == data + "/" + id + ".data"
  {
    var id := a + b + c + rest;
    assert id[0..2] == a && id[2..4] == b && id[4..6] == c;
  }

  /** Two ids never share a path. */
  lemma CachePathInjective(data: string, a: Id, b: Id)
    requires CachePath(data, a) == CachePath(data, b)
    ensures a == b
  {
    var p, q := CachePath(data, a), CachePath(data, b);
    assert |p| == if |a| < 7 then |data| + |a| + 6 else |data| + 2 * |a| + 16;
    assert |q| == if |b| < 7 then |data| + |b| + 6 else |data| + 2 * |b| + 16;
    assert |a| == |b|;
    assert p[|p| - 5 - |a|..|p| - 5] == a;
    assert q[|q| - 5 - |b|..|q| - 5] == b;
  }

  /** The place on disk that the path leads to. */
  function CachePlace(data: string, id: Id): Place {
    Parse(CachePath(data, id)).parts
  }

  lemma {:induction false} LastPart(dir: string, name: string)
    requires dir != "" && Plain(name)
    ensures Parse(dir + "/" + name).parts == Parse(dir).parts + [name]
  {
    hide Split, Reduce;
    SplitWhole(name);
    ParseSlash(dir, name);
    ReducePlain(Rooted(dir), Parse(dir).parts, name);
  }

  /** Nor do ids without slashes, of any length, share a place, whatever dots they have. */
  lemma {:induction false} CachePlaceInjective(data: string, a: Id, b: Id)
    requires data != "" && '/' !in a && '/' !in b && CachePlace(data, a) == CachePlace(data, b)
    ensures a == b
  {
    hide Parse;
    PlaceEnds(data, a);
    PlaceEnds(data, b);
    var p := CachePlace(data, a);
    assert p[|p| - 1] == a + ".data" == b + ".data";
    assert (a + ".data")[..|a|] == a && (b + ".data")[..|b|] == b;
  }

  lemma {:induction false} PlaceEnds(data: string, id: Id)
    requires data != "" && '/' !in id
    ensures CachePlace(data, id) == Parse(CacheDir(data, id)).parts + [id + ".data"]
  {
    hide Parse;
    var dir := CacheDir(data, id);
    assert CachePath(data, id) == dir + "/" + (id + ".data");
    LastPart(dir, id + ".data");
  }

  // ----- The store and the cache -----

  /** A node holds a file, or parts of one to come from several workunits. */
  datatype Node = Whole(content: Content) | Parts(parts: seq<Option<Content>>)

  datatype State = State(shock: map<Id, Node>, cache: map<Place, Content>)

  /** What a fetch of the node gives: a node in parts has a file once all of them are there. */
  function Fetched(n: Node): Option<Content> {
    match n
    case Whole(c) => Some(c)
    case Parts(parts) => Joined(parts)
  }

  function Joined(parts: seq<Option<Content>>): Option<Content> {
    if parts == [] then Some("")
    else
      var rest := Joined(parts[1..]);
      if parts[0].None? || rest.None? then None else Some(parts[0].value + rest.value)
  }

  datatype Event =
    /** An output file pushed for a node, known or to be made; `reply` is the id the store answers with, if new. */
    | Upload(rank: nat, of: nat, node: Id, content: Content, reply: Id, moved: bool)
    /** An input that a workunit asks for. */
    | Input(node: Id)
    /** A node that someone else makes. */
    | Made(node: Id, content: Content)

  function Target(e: Event): Id
    requires e.Upload?
  {
    if e.reply != "" then e.reply else e.node
  }

  /** What the store makes of a pushed file: all of a node, or part `rank` of it. */
  function Pushed(shock: map<Id, Node>, e: Event): Node
    requires e.Upload?
  {
    if e.rank == 0 then Whole(e.content)
    else
      var id := Target(e);
      var parts := if id in shock && shock[id].Parts? && e.rank <= |shock[id].parts| then shock[id].parts
                   else seq(if e.rank <= e.of then e.of else e.rank, _ => None);
      Parts(parts[e.rank - 1 := Some(e.content)])
  }

  /** The file pushed is then moved into the cache, under the node's id. */
  function Step(data: string, s: State, e: Event): State {
    match e
    case Upload(_, _, _, content, _, moved) =>
      State(s.shock[Target(e) := Pushed(s.shock, e)],
            if moved then s.cache[CachePlace(data, Target(e)) := content] else s.cache)
    case Input(_) => s
    case Made(node, content) => if node in s.shock then s else s.(shock := s.shock[node := Whole(content)])
  }

  /** What a workunit of rank 0 gets: the cached file if there is one, or what the store has. */
  function Given(data: string, s: State, node: Id): Option<Content> {
    if node != "" && CachePlace(data, node) in s.cache then Some(s.cache[CachePlace(data, node)])
    else if node in s.shock then Fetched(s.shock[node])
    else None
  }

  /** Every file in the cache is what a fetch of its node would give. */
  ghost predicate Agrees(data: string, s: State) {
    forall id :: '/' !in id && CachePlace(data, id) in s.cache ==>
      id in s.shock && Fetched(s.shock[id]) == Some(s.cache[CachePlace(data, id)])
  }

  /** Ids are without slashes. */
  predicate Named(e: Event) {
    match e
    case Upload(_, _, _, _, _, _) => '/' !in Target(e)
    case Input(node) => '/' !in node
    case Made(node, _) => '/' !in node
  }

  // ----- Parts -----

  /** Every part but one is there and empty. */
  ghost predicate OthersEmpty(parts: seq<Option<Content>>, k: nat) {
    forall j :: 0 <= j < |parts| && j != k ==> parts[j] == Some("")
  }

  lemma {:induction false} JoinedEmpty(parts: seq<Option<Content>>)
    ensures Joined(parts) == Some("") <==> forall j :: 0 <= j < |parts| ==> parts[j] == Some("")
  {
    if parts != [] {
      var rest := parts[1..];
      JoinedEmpty(rest);
      assert forall j :: 0 <= j < |rest| ==> rest[j] == parts[j + 1];
      assert "" + "" == "";
      if Joined(parts) == Some("") {
        assert |parts[0].value| + |Joined(rest).value| == 0;
        forall j | 0 <= j < |parts| ensures parts[j] == Some("") {
          if j > 0 { assert parts[j] == rest[j - 1]; }
        }
      }
      if forall j :: 0 <= j < |parts| ==> parts[j] == Some("") {
        forall j | 0 <= j < |rest| ensures rest[j] == Some("") { assert rest[j] == parts[j + 1]; }
      }
    }
  }

  lemma {:induction false} JoinedLong(parts: seq<Option<Content>>, k: nat)
    requires k < |parts| && Joined(parts).Some?
    ensures parts[k].Some? && |Joined(parts).value| >= |parts[k].value|
  {
    if k > 0 { JoinedLong(parts[1..], k - 1); }
  }

  /** One part is all of the file exactly if the others are there and empty. */
  lemma {:induction false} JoinedIsPart(parts: seq<Option<Content>>, k: nat)
    requires k < |parts| && parts[k].Some?
    ensures Joined(parts) == parts[k] <==> OthersEmpty(parts, k)
  {
    var rest := parts[1..];
    assert forall j :: 1 <= j < |parts| ==> parts[j] == rest[j - 1];
    if k == 0 {
      JoinedEmpty(rest);
      if Joined(parts) == parts[0] { SamePrefix(parts[0].value, Joined(rest).value); }
      if OthersEmpty(parts, 0) { assert parts[0].value + "" == parts[0].value; }
    } else {
      JoinedIsPart(rest, k - 1);
      if Joined(parts) == parts[k] {
        JoinedLong(rest, k - 1);
        assert parts[0].value == "";
        assert parts[0].value + Joined(rest).value == Joined(rest).value;
      }
      if OthersEmpty(parts, k) {
        assert forall j :: 0 <= j < |rest| && j != k - 1 ==> rest[j] == parts[j + 1];
        assert parts[0] == Some("") && "" + Joined(rest).value == Joined(rest).value;
      }
    }
  }

  lemma SamePrefix(a: Content, b: Content)
    requires a + b == a
    ensures b == ""
  {
    assert |a + b| == |a| + |b|;
  }

  // ----- Every step, every run -----

  ghost predicate Cached(data: string, s: State, id: Id) {
    CachePlace(data, id) in s.cache
  }

  /**
    * When an upload leaves the cache right: a file moved there is all of its node, and a file that could
    * not be moved leaves no other behind.
    */
  ghost predicate Safe(data: string, s: State, e: Event) {
    e.Upload? ==>
      if e.moved then e.rank == 0 || OthersEmpty(Pushed(s.shock, e).parts, e.rank - 1)
      else Cached(data, s, Target(e)) ==> Fetched(Pushed(s.shock, e)) == Some(s.cache[CachePlace(data, Target(e))])
  }

  lemma PushedIsContent(shock: map<Id, Node>, e: Event)
    requires e.Upload?
    ensures Fetched(Pushed(shock, e)) == Some(e.content)
            <==> e.rank == 0 || OthersEmpty(Pushed(shock, e).parts, e.rank - 1)
  {
    if e.rank > 0 { JoinedIsPart(Pushed(shock, e).parts, e.rank - 1); }
  }

  // What one upload does to the files of all ids.
  lemma UploadAgreesIff(data: string, s: State, e: Event)
    requires data != "" && Agrees(data, s) && e.Upload? && Named(e)
    ensures Agrees(data, Step(data, s, e)) <==>
            var place, got := CachePlace(data, Target(e)), Fetched(Pushed(s.shock, e));
            if e.moved then got == Some(e.content) else place in s.cache ==> got == Some(s.cache[place])
  {
    hide CachePlace, Fetched, Pushed;
    var s', place := Step(data, s, e), CachePlace(data, Target(e));
    forall id | '/' !in id && CachePlace(data, id) == place ensures id == Target(e) {
      CachePlaceInjective(data, id, Target(e));
    }
    assert Agrees(data, s') ==> place in s'.cache ==> Fetched(s'.shock[Target(e)]) == Some(s'.cache[place]);
  }

  /** A step keeps cache and store in agreement exactly if it is safe. */
  lemma StepAgreesIff(data: string, s: State, e: Event)
    requires data != "" && Agrees(data, s) && Named(e)
    ensures Agrees(data, Step(data, s, e)) <==> Safe(data, s, e)
  {
    hide CachePlace, Fetched, Pushed;
    if e.Upload? {
      PushedIsContent(s.shock, e);
      UploadAgreesIff(data, s, e);
    } else if e.Made? && e.node !in s.shock {
      assert !Cached(data, s, e.node);
    }
  }

  function Run(data: string, s: State, events: seq<Event>): State
    decreases |events|
  {
    if events == [] then s else Run(data, Step(data, s, events[0]), events[1..])
  }

  /** Every event of the run is safe in the state it meets. */
  ghost predicate SafeRun(data: string, s: State, events: seq<Event>)
    decreases |events|
  {
    events == [] || (Named(events[0]) && Safe(data, s, events[0])
                     && SafeRun(data, Step(data, s, events[0]), events[1..]))
  }

  /** Cache and store agree now and after every event of the run. */
  ghost predicate AgreesThroughout(data: string, s: State, events: seq<Event>)
    decreases |events|
  {
    Agrees(data, s) && (events == [] || AgreesThroughout(data, Step(data, s, events[0]), events[1..]))
  }

  /** Cache and store agree all along a run exactly if each of its events is safe in its state. */
  lemma {:induction false} AgreesIffSafe(data: string, s: State, events: seq<Event>)
    requires data != "" && Agrees(data, s) && forall i :: 0 <= i < |events| ==> Named(events[i])
    ensures AgreesThroughout(data, s, events) <==> SafeRun(data, s, events)
    decreases |events|
  {
    hide CachePlace, Fetched, Pushed, Agrees, Safe, Named, Step;
    if events != [] {
      StepAgreesIff(data, s, events[0]);
      var s' := Step(data, s, events[0]);
      if Agrees(data, s') { AgreesIffSafe(data, s', events[1..]); } else { NotThroughout(data, s', events[1..]); }
    }
  }

  lemma NotThroughout(data: string, s: State, events: seq<Event>)
    requires !Agrees(data, s)
    ensures !AgreesThroughout(data, s, events)
  {}

  /** After any safe run, linking an input from the cache gives what fetching it would. */
  lemma {:induction false} RunAgrees(data: string, s: State, events: seq<Event>)
    requires data != "" && Agrees(data, s) && SafeRun(data, s, events)
    ensures Agrees(data, Run(data, s, events))
    ensures forall node :: '/' !in node && node in Run(data, s, events).shock ==>
              Given(data, Run(data, s, events), node) == Fetched(Run(data, s, events).shock[node])
    decreases |events|
  {
    hide CachePlace, Fetched, Pushed, Safe;
    if events != [] {
      StepAgreesIff(data, s, events[0]);
      RunAgrees(data, Step(data, s, events[0]), events[1..]);
    }
  }

  /**
    * Whole files pushed by workunits of rank 0 are safe: always if they can be moved to the cache, and if
    * not, as long as no other file of that node is there.
    */
  lemma RankZeroIsSafe(data: string, s: State, e: Event)
    requires e.Upload? && e.rank == 0
    ensures Safe(data, s, e) <==>
            e.moved || !Cached(data, s, Target(e)) || s.cache[CachePlace(data, Target(e))] == e.content
  {
    hide CachePlace;
  }

  /** Whole files pushed at rank 0 and moved to the cache, inputs, and nodes of others. */
  predicate RankZero(e: Event) {
    Named(e) && (e.Upload? ==> e.rank == 0 && e.moved)
  }

  /** On every run of such events cache and store agree throughout. */
  lemma {:induction false} RankZeroRunAgrees(data: string, s: State, events: seq<Event>)
    requires data != "" && Agrees(data, s) && forall i :: 0 <= i < |events| ==> RankZero(events[i])
    ensures SafeRun(data, s, events) && AgreesThroughout(data, s, events)
  {
    hide Agrees, Safe, SafeRun, AgreesThroughout;
    RankZeroRunIsSafe(data, s, events);
    AgreesIffSafe(data, s, events);
  }

  lemma {:induction false} RankZeroRunIsSafe(data: string, s: State, events: seq<Event>)
    requires forall i :: 0 <= i < |events| ==> RankZero(events[i])
    ensures SafeRun(data, s, events)
    decreases |events|
  {
    hide CachePlace, Fetched, Pushed, Step;
    if events != [] { RankZeroRunIsSafe(data, Step(data, s, events[0]), events[1..]); }
  }

  /** A part pushed by a workunit of higher rank spoils the cache: a later input of rank 0 gets the part. */
  lemma PartSpoilsCache(data: string)
    requires data != ""
    ensures exists e, s ::
              && Agrees(data, s) && Named(e) && e.Upload? && e.rank > 0
              && !Agrees(data, Step(data, s, e))
              && Given(data, Step(data, s, e), Target(e)) != Fetched(Step(data, s, e).shock[Target(e)])
  {
    hide CachePlace;
    var s := State(map["n" := Parts([None, Some("b")])], map[]);
    var e := Upload(1, 2, "n", "a", "", true);
    assert Target(e) == "n";
    assert Pushed(s.shock, e).parts == [Some("a"), Some("b")];
    assert [Some("a"), Some("b")][1] == Some("b");
    StepAgreesIff(data, s, e);
    JoinedIsPart(Pushed(s.shock, e).parts, 0);
  }

  // ----- The operations on the worker -----

  class Worker {
    const data: string
    var shock: map<Id, Node>
    var cache: map<Place, Content>
    var dirs: set<Place>

    constructor (data: string)
      ensures this.data == data && shock == map[] && cache == map[] && dirs == {}
    {
      this.data, shock, cache, dirs := data, map[], map[], {};
    }

    ghost function Now(): State
      reads this
    {
      State(shock, cache)
    }

    /**
      * Push an output file, a second time if the first push fails, then try to move it into the cache. What
      * making the directory and the move say goes to the log only.
      */
    method UploadOutput(rank: nat, parts: nat, node: Id, content: Content, first: Option<Id>, second: Option<Id>,
                        made: bool, renamed: bool)
      returns (ok: bool, node': Id, ghost e: Event)
      modifies this
      ensures ok <==> first.Some? || second.Some?
      ensures !ok ==> Now() == old(Now()) && node' == node && dirs == old(dirs)
      // The id is that of the first push that succeeds, if it tells one.
      ensures ok ==> var reply := if first.Some? then first.value else second.value;
                     node' == if reply == "" then node else reply
      // The file is moved exactly if its directory is there or can be made, and the move itself succeeds.
      ensures ok ==> var dir := Parse(CacheDir(data, node')).parts;
                     && dirs == (if made then old(dirs) + {dir} else old(dirs))
                     && (e.Upload? && e.moved <==> renamed && (made || dir in old(dirs)))
      ensures ok && !(e.Upload? && e.moved) ==> cache == old(cache)
      // The node holds the file, and no other node changes.
      ensures ok && rank == 0 ==> node' in shock && Fetched(shock[node']) == Some(content)
      ensures forall id :: id != node' ==>
                (id in shock <==> id in old(shock)) && (id in shock ==> shock[id] == old(shock)[id])
      // The cached files of other nodes stay.
      ensures forall id :: data != "" && '/' !in node' && '/' !in id && id != node' ==>
                (CachePlace(data, id) in cache <==> CachePlace(data, id) in old(cache))
                && (CachePlace(data, id) in cache ==> cache[CachePlace(data, id)] == old(cache)[CachePlace(data, id)])
      // Agreement of cache and store is kept exactly by a safe push.
      ensures ok ==> e.Upload? && Target(e) == node' && e.rank == rank && e.content == content
                     && Now() == Step(data, old(Now()), e)
      ensures ok && data != "" && '/' !in node' && Agrees(data, old(Now())) ==>
                (Agrees(data, Now()) <==> Safe(data, old(Now()), e))
      ensures ok && e.moved ==> CachePlace(data, node') in cache && cache[CachePlace(data, node')] == content
    {
      hide CachePlace, Fetched;
      ok, node', e := false, node, Input(node);
      var reply := first;
      if reply.None? {
        reply := second;
        if reply.None? { return; }
      }
      ok := true;
      if reply.value != "" { node' := reply.value; }
      var dir := Parse(CacheDir(data, node')).parts;
      if made { dirs := dirs + {dir}; }
      var moved := dir in dirs && renamed;
      var push := Upload(rank, parts, node, content, reply.value, moved);
      e := push;
      shock := shock[node' := Pushed(shock, push)];
      if moved { cache := cache[CachePlace(data, node') := content]; }
      WholeFetched(old(shock), e);
      PlacesApart(data, node');
      if data != "" && '/' !in node' && Agrees(data, old(Now())) { StepAgreesIff(data, old(Now()), e); }
    }

    /** The input a workunit of rank 0 finds in its directory: linked from the cache, or fetched. */
    method MoveInput(node: Id) returns (content: Option<Content>)
      ensures content == Given(data, Now(), node)
      ensures data != "" && Agrees(data, Now()) && '/' !in node && node in shock ==> content == Fetched(shock[node])
    {
      var path := CachePlace(data, node);
      if node != "" && path in cache {
        content := Some(cache[path]);
      } else if node in shock {
        content := Fetched(shock[node]);
      } else {
        content := None;
      }
    }
  }

  lemma WholeFetched(shock: map<Id, Node>, e: Event)
    requires e.Upload?
    ensures e.rank == 0 ==> Fetched(Pushed(shock, e)) == Some(e.content)
  {}

  lemma PlacesApart(data: string, node: Id)
    ensures data != "" && '/' !in node ==>
              forall id :: '/' !in id && id != node ==> CachePlace(data, id) != CachePlace(data, node)
  {
    hide CachePlace;
    if data != "" && '/' !in node {
      forall id | '/' !in id && id != node ensures CachePlace(data, id) != CachePlace(data, node) {
        if CachePlace(data, id) == CachePlace(data, node) { CachePlaceInjective(data, id, node); }
      }
    }
  }
}
