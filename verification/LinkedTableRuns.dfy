/** Runs of the ordered map, and iteration while the map changes under it. */
module LinkedTableRuns {
  import opened LinkedTable
  import opened LinkedTableProof

  datatype Op<I, V> = Def(key: Key<I>, value: V) | Delete(key: Key<I>) | Clear

  // ----- The ordered list of pairs the map stands for -----

  predicate KeyIs<I(==)>(coerces: (I, nat) -> bool, stored: Key<I>, k: Key<I>) {
    match k case Indexed(_) => stored == k case Frozen(ref) => Matches(coerces, stored, ref)
  }

  /** The place of the first pair found under `k`, the length of the list if there is none. */
  function Place<I(==), V>(coerces: (I, nat) -> bool, pairs: seq<(Key<I>, V)>, k: Key<I>): (p: nat)
    ensures p <= |pairs|
  {
    if pairs == [] || KeyIs(coerces, pairs[0].0, k) then 0 else 1 + Place(coerces, pairs[1..], k)
  }

  function ListStep<I(==), V>(coerces: (I, nat) -> bool, pairs: seq<(Key<I>, V)>, op: Op<I, V>): seq<(Key<I>, V)> {
    match op
    case Def(k, v) =>
      var p := Place(coerces, pairs, k);
      if p < |pairs| then pairs[p := (pairs[p].0, v)] else pairs + [(k, v)]
    case Delete(k) =>
      var p := Place(coerces, pairs, k);
      if p < |pairs| then pairs[..p] + pairs[p + 1..] else pairs
    case Clear => []
  }

  function Step<I(==), V>(coerces: (I, nat) -> bool, t: Table<I, V>, op: Op<I, V>): Table<I, V>
    requires Ok(t)
  {
    match op
    case Def(k, v) => LinkedTable.Def(coerces, t, k, v)
    case Delete(k) => LinkedTable.Delete(coerces, t, k)
    case Clear => LinkedTable.Clear(t)
  }

  // ----- The entry that lookup finds -----

  /** `i` is the first live cell found under `k`, or -1. */
  ghost predicate FirstFound<I, V>(coerces: (I, nat) -> bool, cells: seq<Cell<I, V>>, k: Key<I>, i: int) {
    && (i == -1 || (Live(cells, i) && KeyIs(coerces, cells[i].key, k)))
    && (forall j :: Live(cells, j) && (i == -1 || j < i) ==> !KeyIs(coerces, cells[j].key, k))
  }

  lemma {:induction false} FrozenFirst<I, V>(coerces: (I, nat) -> bool, cells: seq<Cell<I, V>>, i: nat, ref: nat)
    requires i <= |cells| && forall j :: Live(cells, j) && j < i ==> !Matches(coerces, cells[j].key, ref)
    ensures FirstFound(coerces, cells, Frozen(ref), FindFrozen(coerces, cells, i, ref))
    decreases |cells| - i
  {
    if i < |cells| && (cells[i].removed || !Matches(coerces, cells[i].key, ref)) {
      FrozenFirst(coerces, cells, i + 1, ref);
    }
  }

  lemma EntryIsFirst<I, V>(coerces: (I, nat) -> bool, t: Table<I, V>, k: Key<I>)
    requires Ok(t)
    ensures FirstFound(coerces, t.cells, k, GetEntry(coerces, t, k))
  {
    hide Linked, Contents;
    if k.Frozen? { FrozenFirst(coerces, t.cells, 0, k.ref); }
  }

  lemma {:induction false} PlaceOfFirst<I, V>(coerces: (I, nat) -> bool, cells: seq<Cell<I, V>>, k: Key<I>, i: int)
    requires FirstFound(coerces, cells, k, i)
    ensures Place(coerces, Contents(cells), k) == if i == -1 then |Contents(cells)| else |Contents(cells[..i])|
    ensures i >= 0 ==> |Contents(cells[..i])| < |Contents(cells)|
  {
    if cells == [] {
    } else {
      var n := |cells| - 1;
      var front, c := cells[..n], cells[n];
      assert forall j :: Live(front, j) <==> Live(cells, j) && j < n;
      if i == n {
        PlaceOfFirst(coerces, front, k, -1);
        PlaceAppend(coerces, Contents(front), (c.key, c.value), k);
      } else {
        PlaceOfFirst(coerces, front, k, i);
        if i >= 0 { assert front[..i] == cells[..i]; }
        if c.removed {
          assert Contents(cells) == Contents(front);
        } else {
          assert Live(cells, n);
          PlaceAppend(coerces, Contents(front), (c.key, c.value), k);
        }
      }
    }
  }

  lemma {:induction false} PlaceAppend<I, V>(coerces: (I, nat) -> bool, pairs: seq<(Key<I>, V)>, x: (Key<I>, V),
                                             k: Key<I>)
    ensures Place(coerces, pairs + [x], k) ==
            if Place(coerces, pairs, k) < |pairs| || KeyIs(coerces, x.0, k)
            then Place(coerces, pairs, k) else |pairs| + 1
  {
    if pairs != [] && !KeyIs(coerces, pairs[0].0, k) {
      PlaceAppend(coerces, pairs[1..], x, k);
      assert (pairs + [x])[1..] == pairs[1..] + [x];
    }
  }

  // ----- One operation, and every run of them -----

  /** Entries are never moved, renamed or brought back to life. */
  ghost predicate Later<I, V>(a: seq<Cell<I, V>>, b: seq<Cell<I, V>>) {
    && |a| <= |b|
    && forall i :: 0 <= i < |a| ==> a[i].key == b[i].key && (a[i].removed ==> b[i].removed)
  }

  lemma {:induction false} SetValueStep<I, V>(t: Table<I, V>, i: nat, v: V)
    requires Ok(t) && Live(t.cells, i)
    ensures |Contents(t.cells[..i])| < |Contents(t.cells)|
    ensures var t', p := t.(cells := t.cells[i := t.cells[i].(value := v)]), |Contents(t.cells[..i])|;
            && Ok(t') && Later(t.cells, t'.cells)
            && Contents(t'.cells) == Contents(t.cells)[p := (Contents(t.cells)[p].0, v)]
  {
    var c := t.cells[i];
    SetValueOk(t, i, v);
    hide Contents, Linked, IndexOk;
    ContentsAround(t.cells, i);
    ContentsChange(t.cells, i, c.(value := v));
    Replaced(Contents(t.cells[..i]), (c.key, c.value), (c.key, v), Contents(t.cells[i + 1..]));
  }

  lemma AppendStep<I, V>(t: Table<I, V>, k: Key<I>, v: V)
    requires Ok(t) && (k.Indexed? ==> k.id !in t.index)
    ensures Ok(Append(t, k, v)) && Later(t.cells, Append(t, k, v).cells)
    ensures Contents(Append(t, k, v).cells) == Contents(t.cells) + [(k, v)]
  {
    hide Contents, IndexOk, Ok;
    AppendOk(t, k, v);
    AppendLater(t, k, v);
  }

  lemma AppendLater<I, V>(t: Table<I, V>, k: Key<I>, v: V)
    requires Ok(t)
    ensures Later(t.cells, Append(t, k, v).cells)
  {
    hide Contents, IndexOk;
  }

  lemma RemoveStep<I, V>(t: Table<I, V>, i: nat)
    requires Ok(t) && Live(t.cells, i)
    ensures |Contents(t.cells[..i])| < |Contents(t.cells)|
    ensures Ok(Remove(t, i)) && Later(t.cells, Remove(t, i).cells)
    ensures var pairs, p := Contents(t.cells), |Contents(t.cells[..i])|;
            Contents(Remove(t, i).cells) == pairs[..p] + pairs[p + 1..]
  {
    hide Contents, IndexOk, Linked, Remove;
    RemoveOk(t, i);
    RemovedCells(t, i);
    ContentsAround(t.cells, i);
    var x := (t.cells[i].key, t.cells[i].value);
    Replaced(Contents(t.cells[..i]), x, x, Contents(t.cells[i + 1..]));
  }

  // Where lookup finds an entry, the list finds its pair.
  lemma EntryPlace<I, V>(coerces: (I, nat) -> bool, t: Table<I, V>, k: Key<I>)
    requires Ok(t)
    ensures var i := GetEntry(coerces, t, k);
            && (i == -1 ==> (k.Indexed? ==> k.id !in t.index)
                            && Place(coerces, Contents(t.cells), k) == |Contents(t.cells)|)
            && (i != -1 ==> Live(t.cells, i) && Place(coerces, Contents(t.cells), k) == |Contents(t.cells[..i])|)
  {
    EntryIsFirst(coerces, t, k);
    PlaceOfFirst(coerces, t.cells, k, GetEntry(coerces, t, k));
    hide Linked, Contents, Place, FirstFound;
  }

  lemma DefStep<I, V>(coerces: (I, nat) -> bool, t: Table<I, V>, k: Key<I>, v: V)
    requires Ok(t)
    ensures var t' := LinkedTable.Def(coerces, t, k, v);
            Ok(t') && Later(t.cells, t'.cells)
            && Contents(t'.cells) == ListStep(coerces, Contents(t.cells), Op.Def(k, v))
  {
    hide Contents, Place, Ok, Later, GetEntry, Append;
    EntryPlace(coerces, t, k);
    var i := GetEntry(coerces, t, k);
    if i == -1 { AppendStep(t, k, v); } else { SetValueStep(t, i, v); }
  }

  lemma DeleteStep<I, V>(coerces: (I, nat) -> bool, t: Table<I, V>, k: Key<I>)
    requires Ok(t)
    ensures var t' := LinkedTable.Delete(coerces, t, k);
            Ok(t') && Later(t.cells, t'.cells)
            && Contents(t'.cells) == ListStep(coerces, Contents(t.cells), Op.Delete(k))
  {
    hide Contents, Place, Ok, GetEntry, Remove;
    EntryPlace(coerces, t, k);
    var i := GetEntry(coerces, t, k);
    if i != -1 { RemoveStep(t, i); }
  }

  lemma Replaced<T>(a: seq<T>, x: T, y: T, b: seq<T>)
    ensures (a + [x] + b)[|a| := y] == a + [y] + b
    ensures (a + [x] + b)[|a|] == x && (a + [x] + b)[..|a|] + (a + [x] + b)[|a| + 1..] == a + b
  {}

  /** Each operation is that operation on the list of pairs, and keeps index, list and size in agreement. */
  lemma StepCorrect<I, V>(coerces: (I, nat) -> bool, t: Table<I, V>, op: Op<I, V>)
    requires Ok(t)
    ensures Ok(Step(coerces, t, op)) && Later(t.cells, Step(coerces, t, op).cells)
    ensures Contents(Step(coerces, t, op).cells) == ListStep(coerces, Contents(t.cells), op)
  {
    match op
    case Def(k, v) => DefStep(coerces, t, k, v);
    case Delete(k) => DeleteStep(coerces, t, k);
    case Clear => ClearOk(t);
  }

  function Run<I(==), V>(coerces: (I, nat) -> bool, t: Table<I, V>, ops: seq<Op<I, V>>): (t': Table<I, V>)
    requires Ok(t)
    ensures Ok(t') && Later(t.cells, t'.cells)
    decreases |ops|
  {
    if ops == [] then t
    else
      StepCorrect(coerces, t, ops[0]);
      Run(coerces, Step(coerces, t, ops[0]), ops[1..])
  }

  function ListRun<I(==), V>(coerces: (I, nat) -> bool, pairs: seq<(Key<I>, V)>, ops: seq<Op<I, V>>): seq<(Key<I>, V)>
    decreases |ops|
  {
    if ops == [] then pairs else ListRun(coerces, ListStep(coerces, pairs, ops[0]), ops[1..])
  }

  /** On every run the chain of entries is the list of pairs, and `size` its length. */
  lemma {:induction false} RunRefinesList<I, V>(coerces: (I, nat) -> bool, t: Table<I, V>, ops: seq<Op<I, V>>)
    requires Ok(t)
    ensures Contents(Run(coerces, t, ops).cells) == ListRun(coerces, Contents(t.cells), ops)
    ensures Run(coerces, t, ops).size == |ListRun(coerces, Contents(t.cells), ops)|
    decreases |ops|
  {
    if ops != [] {
      StepCorrect(coerces, t, ops[0]);
      RunRefinesList(coerces, Step(coerces, t, ops[0]), ops[1..]);
    }
  }

  // ----- Iteration while the callback changes the map -----

  /**
    * `forEach` from an entry on: the entries visited, and the map at the end. The callback of the
    * n-th visit performs the n-th list of operations, and after the last list none.
    */
  function Iterate<I(==), V>(coerces: (I, nat) -> bool, t: Table<I, V>, at: int, script: seq<seq<Op<I, V>>>)
    : (r: (seq<nat>, Table<I, V>))
    requires Ok(t) && -1 <= at < |t.cells|
    ensures Ok(r.1) && Later(t.cells, r.1.cells)
    decreases |script|, |t.cells| - at
  {
    var j := Next(t, at);
    if j == -1 then ([], t)
    else
      var t' := if script == [] then t else Run(coerces, t, script[0]);
      var (more, end) := Iterate(coerces, t', j, if script == [] then [] else script[1..]);
      ([j] + more, end)
  }

  /** Visits after `at`, in order, of every entry after it that is live in `cells`. */
  ghost predicate Survey<I, V>(visited: seq<nat>, cells: seq<Cell<I, V>>, at: int) {
    && (forall i :: 0 <= i < |visited| ==> at < visited[i] < |cells|)
    && (forall i, j :: 0 <= i < j < |visited| ==> visited[i] < visited[j])
    && (forall p :: at < p && Live(cells, p) ==> p in visited)
  }

  lemma SurveyStep<I, V>(more: seq<nat>, cells: seq<Cell<I, V>>, at: int, j: nat)
    requires Survey(more, cells, j) && at < j < |cells| && forall p :: at < p < j ==> !Live(cells, p)
    ensures Survey([j] + more, cells, at)
  {
    var visited := [j] + more;
    forall p | at < p && Live(cells, p) ensures p in visited {
      if p > j { assert p in more; } else { assert visited[0] == p; }
    }
  }

  lemma StillDead<I, V>(a: seq<Cell<I, V>>, b: seq<Cell<I, V>>, p: nat)
    requires Later(a, b) && p < |a| && !Live(a, p)
    ensures !Live(b, p)
  {}

  /**
    * Visits go forward through the entries in insertion order, so none is visited twice, and every
    * entry still live at the end has been visited, whatever the callback added, removed or cleared.
    */
  lemma {:induction false} IterateVisitsSurvivors<I, V>(coerces: (I, nat) -> bool, t: Table<I, V>, at: int,
                                                        script: seq<seq<Op<I, V>>>)
    requires Ok(t) && -1 <= at < |t.cells|
    ensures var (visited, end) := Iterate(coerces, t, at, script); Survey(visited, end.cells, at)
    decreases |script|, |t.cells| - at
  {
    var j := Next(t, at);
    if j != -1 {
      var t' := if script == [] then t else Run(coerces, t, script[0]);
      var rest := if script == [] then [] else script[1..];
      var (more, end) := Iterate(coerces, t', j, rest);
      assert Live(t.cells, j) && |t.cells| <= |end.cells|;
      forall p | at < p < j ensures !Live(end.cells, p) {
        assert !Live(t.cells, p);
        StillDead(t.cells, t'.cells, p);
        StillDead(t'.cells, end.cells, p);
      }
      hide Ok, Next, Run, Later, Survey;
      IterateVisitsSurvivors(coerces, t', j, rest);
      SurveyStep(more, end.cells, at, j);
    } else {
      assert forall p :: at < p ==> !Live(t.cells, p);
    }
  }

  // ----- Keys that cannot be tagged -----

  /**
    * A frozen key finds its own entry or nothing, exactly when no live primitive key that it is
    * coerced to comes before that entry.
    */
  lemma FrozenKeyFoundIff<I, V>(coerces: (I, nat) -> bool, t: Table<I, V>, ref: nat)
    requires Ok(t)
    ensures var i := GetEntry(coerces, t, Frozen(ref));
            (i == -1 || t.cells[i].key == Frozen(ref)) <==>
            (forall j :: Live(t.cells, j) && t.cells[j].key.Indexed? && coerces(t.cells[j].key.id, ref) ==>
               exists k :: 0 <= k < j && Live(t.cells, k) && t.cells[k].key == Frozen(ref))
  {
    var i := GetEntry(coerces, t, Frozen(ref));
    EntryIsFirst(coerces, t, Frozen(ref));
    hide Ok;
    if i != -1 && t.cells[i].key == Frozen(ref) {
      forall j | Live(t.cells, j) && t.cells[j].key.Indexed? && coerces(t.cells[j].key.id, ref)
        ensures exists k :: 0 <= k < j && Live(t.cells, k) && t.cells[k].key == Frozen(ref)
      {
        assert KeyIs(coerces, t.cells[j].key, Frozen(ref));
        assert i < j;
      }
    }
  }

  function Empty<I, V>(): (t: Table<I, V>)
    ensures Ok(t) && Contents(t.cells) == []
  {
    Table([], -1, -1, 0, map[])
  }

  /** A primitive stored first, then an object it equals: the object's value goes to the primitive's entry. */
  lemma {:induction false} FrozenKeyFindsPrimitive<I, V>(coerces: (I, nat) -> bool, id: I, ref: nat, v: V, w: V)
    requires coerces(id, ref)
    ensures var t := Run(coerces, Empty(), [Op.Def(Indexed(id), v), Op.Def(Frozen(ref), w)]);
            Contents(t.cells) == [(Indexed(id), w)]
  {
    var ops := [Op.Def(Indexed(id), v), Op.Def(Frozen(ref), w)];
    RunRefinesList(coerces, Empty(), ops);
    hide Ok, Run;
    assert ops[1..] == [ops[1]] && ops[1..][1..] == [];
    var one := ListStep(coerces, [], ops[0]);
    assert one == [(Indexed(id), v)];
    assert KeyIs(coerces, one[0].0, Frozen(ref));
    assert ListStep(coerces, one, ops[1]) == [(Indexed(id), w)];
    assert ListRun(coerces, [(Indexed(id), w)], []) == [(Indexed(id), w)];
  }
}
