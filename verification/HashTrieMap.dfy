/** The map on top of the trie: its size, its small array form, and every run of `set` and `remove`. */
module HashTrieMap {
  import opened Wrappers
  import opened HashTrie
  import opened HashTrieTables
  import opened HashTrieProof

  datatype Map<K, V> = Map(size: nat, root: Option<Node<K, V>>)

  const ARRAY_MAP_MAX: nat := 8

  /** Every reachable map: the array form holds at most eight entries, the trie is well shaped. */
  ghost predicate Valid<K, V>(h: K -> Hash, m: Map<K, V>) {
    && m.size == |ContentsOf(m.root)|
    && (m.root.Some? ==>
          match m.root.value
          case ArrayMapNode(es) => 1 <= |es| <= ARRAY_MAP_MAX && DistinctKeys(es)
          case n => Shaped(h, n, []))
  }

  function Lookup<K(==), V>(h: K -> Hash, m: Map<K, V>, k: K): Option<V>
    requires Valid(h, m)
  {
    if m.root.Some? then Get(h, m.root.value, [], k) else None
  }

  /** The array form outgrown: its entries go into a trie that starts as the new entry. */
  function InsertAll<K(==), V(==)>(h: K -> Hash, n: Node<K, V>, entries: seq<(K, V)>): (r: Node<K, V>)
    requires Shaped(h, n, [])
    ensures Shaped(h, r, [])
    decreases |entries|
  {
    if entries == [] then n
    else
      UpdateCorrect(h, n, [], entries[0].0, Some(entries[0].1));
      ContentsOfSome(UpdateNode(h, n, [], entries[0].0, Some(entries[0].1)).node, entries[0].0);
      InsertAll(h, UpdateNode(h, n, [], entries[0].0, Some(entries[0].1)).node.value, entries[1..])
  }

  lemma ContentsOfSome<K, V>(n: Option<Node<K, V>>, k: K)
    requires k in ContentsOf(n)
    ensures n.Some?
  {}

  function UpdateArrayMap<K(==), V(==)>(h: K -> Hash, n: Node<K, V>, k: K, v: Option<V>): Update<K, V>
    requires n.ArrayMapNode?
  {
    var es := n.entries;
    var c := IndexOf(es, k);
    var found := c < |es|;
    if (if found then v == Some(es[c].1) else v.None?) then Update(Some(n), false, false)
    else if v.None? && |es| == 1 then Update(None, true, true)
    else if !found && |es| >= ARRAY_MAP_MAX then
      Update(Some(InsertAll(h, ValueNode(h(k), (k, v.value)), es)), true, true)
    else Update(Some(ArrayMapNode(EditEntries(es, c, k, v))), true, v.None? || !found)
  }

  /** `set` with a value, `remove` without one. */
  function UpdateMap<K(==), V(==)>(h: K -> Hash, m: Map<K, V>, k: K, v: Option<V>): Map<K, V>
    requires Valid(h, m)
  {
    match m.root
    case None => if v.None? then m else Map(1, Some(ArrayMapNode([(k, v.value)])))
    case Some(n) =>
      var u := if n.ArrayMapNode? then UpdateArrayMap(h, n, k, v) else UpdateNode(h, n, [], k, v);
      if !u.altered then m
      else
        SizeAboveZero(h, m);
        var size := m.size + if u.resized then (if v.None? then -1 else 1) else 0;
        if u.node.Some? then Map(size, u.node) else Map(0, None)
  }

  // ----- Every node holds something -----

  lemma {:induction false} NotEmpty<K, V>(h: K -> Hash, n: Node<K, V>, path: seq<nat>)
    requires Shaped(h, n, path)
    ensures Contents(n) != map[]
  {
    match n
    case ValueNode(_, e) => assert e.0 in Contents(n);
    case CollisionNode(_, es) => EntriesMember(es);
    case BitmapNode(b, nodes) =>
      var i := SlotOfRank(b, 0, 32);
      NotEmpty(h, nodes[0], path + [i]);
    case FullNode(_, slots) =>
      var i := OccupiedSlot(slots);
      NotEmpty(h, slots[i].value, path + [i]);
      InTheSlot(slots, i);
  }

  lemma {:induction false} OccupiedSlot<T>(slots: seq<Option<T>>) returns (i: nat)
    requires Occupied(slots) > 0
    ensures i < |slots| && slots[i].Some?
  {
    if slots[0].Some? { i := 0; } else { var i' := OccupiedSlot(slots[1..]); i := i' + 1; }
  }

  lemma {:induction false} InTheSlot<K, V>(slots: seq<Option<Node<K, V>>>, i: nat)
    requires i < |slots| && slots[i].Some?
    ensures Contents(slots[i].value).Keys <= ContentsOfSlots(slots).Keys
  {
    if i > 0 { InTheSlot(slots[1..], i - 1); }
  }

  lemma SizeAboveZero<K, V>(h: K -> Hash, m: Map<K, V>)
    requires Valid(h, m) && m.root.Some?
    ensures m.size > 0
  {
    var n := m.root.value;
    if n.ArrayMapNode? { EntriesMember(n.entries); } else { NotEmpty(h, n, []); }
    assert ContentsOf(m.root).Keys != {};
  }

  // ----- One operation -----

  lemma {:induction false} InsertAllCorrect<K, V>(h: K -> Hash, n: Node<K, V>, entries: seq<(K, V)>)
    requires Shaped(h, n, []) && DistinctKeys(entries)
    requires forall i :: 0 <= i < |entries| ==> entries[i].0 !in Contents(n)
    ensures Contents(InsertAll(h, n, entries)) == Contents(n) + EntriesMap(entries)
    decreases |entries|
  {
    if entries != [] {
      var n', rest := InsertFirst(h, n, entries);
      hide Shaped, UpdateNode, Contents;
      InsertAllCorrect(h, n', rest);
    }
  }

  lemma InsertFirst<K, V>(h: K -> Hash, n: Node<K, V>, entries: seq<(K, V)>) returns (n': Node<K, V>, rest: seq<(K, V)>)
    requires entries != []
    requires Shaped(h, n, []) && DistinctKeys(entries)
    requires forall i :: 0 <= i < |entries| ==> entries[i].0 !in Contents(n)
    ensures Shaped(h, n', []) && InsertAll(h, n, entries) == InsertAll(h, n', rest)
    ensures |rest| < |entries| && DistinctKeys(rest)
    ensures forall i :: 0 <= i < |rest| ==> rest[i].0 !in Contents(n')
    ensures Contents(n) + EntriesMap(entries) == Contents(n') + EntriesMap(rest)
  {
    EntriesHead(entries, Contents(n));
    hide Shaped, UpdateNode, Contents, EntriesMap;
    var (k, v) := entries[0];
    rest := entries[1..];
    UpdateCorrect(h, n, [], k, Some(v));
    ContentsOfSome(UpdateNode(h, n, [], k, Some(v)).node, k);
    n' := UpdateNode(h, n, [], k, Some(v)).node.value;
    assert forall i :: 0 <= i < |rest| ==> rest[i] == entries[i + 1];
  }

  lemma EntriesHead<K, V>(es: seq<(K, V)>, m: map<K, V>)
    requires es != [] && DistinctKeys(es)
    ensures m + EntriesMap(es) == m[es[0].0 := es[0].1] + EntriesMap(es[1..])
  {
    var rest := es[1..];
    EntriesFind(rest, es[0].0);
    MoveEntry(m, EntriesMap(rest), es[0].0, es[0].1);
  }

  lemma MoveEntry<K, V>(m: map<K, V>, r: map<K, V>, k: K, v: V)
    requires k !in r
    ensures m + r[k := v] == m[k := v] + r
  {}

  lemma ArrayMapCorrect<K, V>(h: K -> Hash, n: Node<K, V>, k: K, v: Option<V>)
    requires n.ArrayMapNode? && 1 <= |n.entries| <= ARRAY_MAP_MAX && DistinctKeys(n.entries)
    ensures var u := UpdateArrayMap(h, n, k, v);
            && ContentsOf(u.node) == Apply(Contents(n), k, v)
            && (u.altered <==> Find(Contents(n), k) != v)
            && (u.resized <==> (k in Contents(n)) != v.Some?)
            && (u.node.Some? && u.node.value.ArrayMapNode? ==>
                  1 <= |u.node.value.entries| <= ARRAY_MAP_MAX && DistinctKeys(u.node.value.entries))
            && (u.node.Some? && !u.node.value.ArrayMapNode? ==> Shaped(h, u.node.value, []))
  {
    var es, c := n.entries, IndexOf(n.entries, k);
    EntriesFind(es, k);
    ApplySame(Contents(n), k, v);
    if v.None? && c < |es| {
      EditCorrect(es, k, v);
      if |es| == 1 { assert EditEntries(es, c, k, v) == []; }
    } else if v.Some? {
      EditCorrect(es, k, v);
      if c == |es| == ARRAY_MAP_MAX { ArrayMapOutgrown(h, es, k, v.value); }
    }
  }

  lemma ArrayMapOutgrown<K, V>(h: K -> Hash, es: seq<(K, V)>, k: K, v: V)
    requires DistinctKeys(es) && IndexOf(es, k) == |es|
    ensures Contents(InsertAll(h, ValueNode(h(k), (k, v)), es)) == EntriesMap(es)[k := v]
  {
    hide InsertAll, Contents, EntriesMap, DistinctKeys;
    var n := ValueNode(h(k), (k, v));
    LeafContents(h, k, v);
    EntriesFind(es, k);
    InsertAllCorrect(h, n, es);
    MoveEntry(map[], EntriesMap(es), k, v);
    Front(map[k := v], EntriesMap(es));
  }

  lemma LeafContents<K, V>(h: K -> Hash, k: K, v: V)
    ensures Contents(ValueNode(h(k), (k, v))) == map[k := v] && Shaped(h, ValueNode(h(k), (k, v)), [])
  {}

  lemma Front<K, V>(a: map<K, V>, b: map<K, V>)
    ensures map[] + b == b && map[] + a == a
  {}

  /** One `set` or `remove` is the same operation on the plain map, and keeps the invariant. */
  lemma UpdateMapCorrect<K, V>(h: K -> Hash, m: Map<K, V>, k: K, v: Option<V>)
    requires Valid(h, m)
    ensures Valid(h, UpdateMap(h, m, k, v))
    ensures ContentsOf(UpdateMap(h, m, k, v).root) == Apply(ContentsOf(m.root), k, v)
    ensures Find(ContentsOf(m.root), k) == v ==> UpdateMap(h, m, k, v) == m
  {
    match m.root
    case None =>
      if v.Some? { assert EntriesMap([(k, v.value)]) == map[k := v.value]; }
    case Some(n) =>
      if n.ArrayMapNode? { ArrayMapCorrect(h, n, k, v); } else { UpdateCorrect(h, n, [], k, v); }
      ApplySize(Contents(n), k, v);
      ApplySame(Contents(n), k, v);
  }

  lemma ApplySize<K, V>(m: map<K, V>, k: K, v: Option<V>)
    ensures |Apply(m, k, v)| == |m| + (if v.Some? then (if k in m then 0 else 1) else (if k in m then -1 else 0))
  {
    if v.None? {
      assert (m - {k}).Keys == m.Keys - {k};
    } else {
      assert m[k := v.value].Keys == m.Keys + {k};
    }
  }

  // ----- Every run -----

  datatype Op<K, V> = Set(key: K, value: V) | Remove(key: K)

  function Value<K, V>(op: Op<K, V>): Option<V> {
    match op case Set(_, v) => Some(v) case Remove(_) => None
  }

  /** The map after a run, from the empty one. */
  function Run<K(==), V(==)>(h: K -> Hash, ops: seq<Op<K, V>>): (m: Map<K, V>)
    ensures Valid(h, m)
  {
    if ops == [] then Map(0, None)
    else
      var last := ops[|ops| - 1];
      UpdateMapCorrect(h, Run(h, ops[..|ops| - 1]), last.key, Value(last));
      UpdateMap(h, Run(h, ops[..|ops| - 1]), last.key, Value(last))
  }

  /** The plain finite map after the same run. */
  ghost function PlainRun<K, V>(ops: seq<Op<K, V>>): map<K, V> {
    if ops == [] then map[]
    else
      match ops[|ops| - 1]
      case Set(k, v) => PlainRun(ops[..|ops| - 1])[k := v]
      case Remove(k) => PlainRun(ops[..|ops| - 1]) - {k}
  }

  /**
    * For every run and every key, lookup answers what the plain map holds, and the size is its
    * number of keys, whichever node kinds the run went through.
    */
  lemma {:induction false} RunRefinesPlain<K, V>(h: K -> Hash, ops: seq<Op<K, V>>, k: K)
    ensures ContentsOf(Run(h, ops).root) == PlainRun(ops)
    ensures Lookup(h, Run(h, ops), k) == Find(PlainRun(ops), k)
    ensures Run(h, ops).size == |PlainRun(ops)|
  {
    var m := Run(h, ops);
    if ops != [] {
      var last := ops[|ops| - 1];
      RunRefinesPlain(h, ops[..|ops| - 1], k);
      UpdateMapCorrect(h, Run(h, ops[..|ops| - 1]), last.key, Value(last));
    }
    if m.root.Some? { GetCorrect(h, m.root.value, [], k); }
  }
}
