/** The slot tables behind the inner nodes of the trie, and the entry lists of its leaves. */
module HashTrieTables {
  import opened Wrappers
  import opened Bits
  import opened HashTrie

  // ----- Entry lists -----

  lemma {:induction false} EntriesFind<K, V>(es: seq<(K, V)>, k: K)
    ensures Find(EntriesMap(es), k) == GetEntry(es, k)
  {
    if es != [] { EntriesFind(es[1..], k); }
  }

  lemma {:induction false} EntriesMember<K, V>(es: seq<(K, V)>)
    requires DistinctKeys(es)
    ensures forall j :: 0 <= j < |es| ==> es[j].0 in EntriesMap(es) && EntriesMap(es)[es[j].0] == es[j].1
    ensures forall q :: q in EntriesMap(es) ==> exists j :: 0 <= j < |es| && es[j].0 == q
    ensures |EntriesMap(es)| == |es|
  {
    if es != [] {
      var rest := es[1..];
      EntriesMember(rest);
      assert forall j :: 0 < j < |es| ==> es[j] == rest[j - 1];
      assert es[0].0 !in EntriesMap(rest);
    }
  }

  // DistinctKeys entries that all agree with a map of their number are that map.
  lemma EntriesAre<K, V>(es: seq<(K, V)>, m: map<K, V>)
    requires DistinctKeys(es) && |es| == |m|
    requires forall j :: 0 <= j < |es| ==> es[j].0 in m && m[es[j].0] == es[j].1
    ensures EntriesMap(es) == m
  {
    EntriesMember(es);
    var e := EntriesMap(es);
    SameSize(e.Keys, m.Keys);
  }

  lemma SameSize<T>(a: set<T>, b: set<T>)
    requires a <= b && |a| == |b|
    ensures a == b
  {
    assert b == a + (b - a);
    assert |b| == |a| + |b - a|;
  }

  lemma RemoveCorrect<K, V>(es: seq<(K, V)>, c: nat)
    requires DistinctKeys(es) && c < |es|
    ensures DistinctKeys(RemoveEntry(es, c)) && EntriesMap(RemoveEntry(es, c)) == EntriesMap(es) - {es[c].0}
  {
    hide EntriesMap, RemoveEntry, DistinctKeys;
    EntriesMember(es);
    RemovedEntries(es, c);
    var m := EntriesMap(es);
    assert (m - {es[c].0}).Keys == m.Keys - {es[c].0};
    EntriesAre(RemoveEntry(es, c), m - {es[c].0});
  }

  lemma RemovedEntries<K, V>(es: seq<(K, V)>, c: nat)
    requires DistinctKeys(es) && c < |es|
    ensures var es' := RemoveEntry(es, c);
            && DistinctKeys(es') && |es'| == |es| - 1
            && (forall j :: 0 <= j < |es'| ==> es'[j].0 != es[c].0 && es'[j] in es)
  {}

  lemma SetCorrect<K, V>(es: seq<(K, V)>, k: K, v: V)
    requires DistinctKeys(es)
    ensures var c := IndexOf(es, k);
            var es' := if c < |es| then es[c := (k, v)] else es + [(k, v)];
            DistinctKeys(es') && EntriesMap(es') == EntriesMap(es)[k := v]
  {
    EntriesMember(es);
    var c := IndexOf(es, k);
    var es' := if c < |es| then es[c := (k, v)] else es + [(k, v)];
    EntriesAre(es', EntriesMap(es)[k := v]);
  }

  lemma EditCorrect<K, V>(es: seq<(K, V)>, k: K, v: Option<V>)
    requires DistinctKeys(es)
    requires v.None? ==> IndexOf(es, k) < |es|
    ensures var es' := EditEntries(es, IndexOf(es, k), k, v);
            DistinctKeys(es') && EntriesMap(es') == Apply(EntriesMap(es), k, v)
  {
    if v.None? { RemoveCorrect(es, IndexOf(es, k)); } else { SetCorrect(es, k, v.value); }
  }

  // ----- Slot tables -----

  lemma {:induction false} SpreadAt<T>(b: nat, nodes: seq<T>, width: nat, i: nat)
    requires |nodes| == Below(b, width) && i < width
    ensures At(b, i) ==> Below(b, i) < |nodes|
    ensures Spread(b, nodes, width)[i] == if At(b, i) then Some(nodes[Below(b, i)]) else None
  {
    if i > 0 {
      var rest := if b % 2 == 1 then nodes[1..] else nodes;
      SpreadAt(b / 2, rest, width - 1, i - 1);
    }
  }

  lemma {:induction false} DenseSpread<T>(b: nat, nodes: seq<T>, width: nat)
    requires |nodes| == Below(b, width)
    ensures Dense(Spread(b, nodes, width)) == nodes
  {
    if width > 0 {
      var rest := if b % 2 == 1 then nodes[1..] else nodes;
      DenseSpread(b / 2, rest, width - 1);
      assert Spread(b, nodes, width)[1..] == Spread(b / 2, rest, width - 1);
    }
  }

  // The bitmap and the dense array of a slot table describe it exactly.
  lemma {:induction false} SpreadMask<T>(slots: seq<Option<T>>)
    ensures |Dense(slots)| == Below(Mask(slots), |slots|) == Occupied(slots)
    ensures Spread(Mask(slots), Dense(slots), |slots|) == slots
  {
    if slots != [] {
      SpreadMask(slots[1..]);
      assert Mask(slots) / 2 == Mask(slots[1..]);
      assert slots == [slots[0]] + slots[1..];
      assert slots[0].Some? ==> Dense(slots)[1..] == Dense(slots[1..]);
      assert slots[0].None? ==> Dense(slots) == Dense(slots[1..]);
    }
  }

  lemma {:induction false} OccupiedUpdate<T>(slots: seq<Option<T>>, i: nat, x: Option<T>)
    requires i < |slots|
    ensures Occupied(slots[i := x])
         == Occupied(slots) - (if slots[i].Some? then 1 else 0) + (if x.Some? then 1 else 0)
  {
    if i > 0 {
      OccupiedUpdate(slots[1..], i - 1, x);
      assert slots[i := x][1..] == slots[1..][i - 1 := x];
    } else {
      assert slots[i := x][1..] == slots[1..];
    }
  }

  lemma {:induction false} ContentsDense<K, V>(slots: seq<Option<Node<K, V>>>)
    ensures ContentsOfNodes(Dense(slots)) == ContentsOfSlots(slots)
  {
    if slots != [] {
      ContentsDense(slots[1..]);
      if slots[0].Some? {
        assert Dense(slots)[1..] == Dense(slots[1..]);
      } else {
        assert Dense(slots) == Dense(slots[1..]);
      }
    }
  }

  /** The slot table of an inner node. */
  ghost function Slots<K, V>(n: Node<K, V>): seq<Option<Node<K, V>>>
    requires n.BitmapNode? || n.FullNode?
  {
    seq(32, i requires 0 <= i => Child(n, i))
  }

  lemma BitmapSlots<K, V>(b: Word, nodes: seq<Node<K, V>>)
    requires |nodes| == Below(b, 32)
    ensures Slots(BitmapNode(b, nodes)) == Spread(b, nodes, 32)
    ensures Dense(Slots(BitmapNode(b, nodes))) == nodes
  {
    forall i | 0 <= i < 32
      ensures Child(BitmapNode(b, nodes), i) == Spread(b, nodes, 32)[i]
    {
      SpreadAt(b, nodes, 32, i);
    }
    DenseSpread(b, nodes, 32);
  }

  lemma InnerContents<K, V>(h: K -> Hash, n: Node<K, V>, path: seq<nat>)
    requires n.BitmapNode? || n.FullNode?
    requires Shaped(h, n, path)
    ensures Contents(n) == ContentsOfSlots(Slots(n))
  {
    if n.BitmapNode? {
      BitmapSlots(n.bitmap, n.nodes);
      ContentsDense(Slots(n));
    } else {
      assert Slots(n) == n.slots;
    }
  }

  /** A slot table whose children sit where the digits of `path` and of the slot say. */
  ghost predicate Table<K, V>(h: K -> Hash, slots: seq<Option<Node<K, V>>>, path: seq<nat>, from: nat) {
    && |slots| + from == 32
    && forall i :: 0 <= i < |slots| && slots[i].Some? ==> Shaped(h, slots[i].value, path + [from + i])
  }

  /** The keys below a node all spell its path. */
  lemma {:induction false} KeysSpell<K, V>(h: K -> Hash, n: Node<K, V>, path: seq<nat>, k: K)
    requires Shaped(h, n, path) && k in Contents(n)
    ensures Spells(path, h(k))
    decreases n, 1
  {
    match n
    case ValueNode(_, _) =>
    case CollisionNode(_, es) => EntriesMember(es);
    case BitmapNode(b, nodes) =>
      var r := InNodes(nodes, k);
      var i := SlotOfRank(b, r, 32);
      KeysSpell(h, nodes[r], path + [i], k);
      SpellsShorter(path, i, h(k));
    case FullNode(_, slots) =>
      var i := InSlots(slots, k);
      KeysSpell(h, slots[i].value, path + [i], k);
      SpellsShorter(path, i, h(k));
  }

  lemma SpellsShorter(path: seq<nat>, i: nat, hash: Hash)
    requires Spells(path + [i], hash)
    ensures Spells(path, hash) && Digit(hash, |path|) == i
  {
    forall l | 0 <= l < |path| ensures Digit(hash, l) == path[l] {
      assert (path + [i])[l] == path[l];
    }
    assert (path + [i])[|path|] == i;
  }

  lemma {:induction false} InNodes<K, V>(nodes: seq<Node<K, V>>, k: K) returns (r: nat)
    requires k in ContentsOfNodes(nodes)
    ensures r < |nodes| && k in Contents(nodes[r])
  {
    if k in Contents(nodes[0]) { r := 0; } else { var r' := InNodes(nodes[1..], k); r := r' + 1; }
  }

  lemma {:induction false} InSlots<K, V>(slots: seq<Option<Node<K, V>>>, k: K) returns (i: nat)
    requires k in ContentsOfSlots(slots)
    ensures i < |slots| && slots[i].Some? && k in Contents(slots[i].value)
  {
    if k in ContentsOf(slots[0]) { i := 0; } else { var i' := InSlots(slots[1..], k); i := i' + 1; }
  }

  lemma {:induction false} SlotOfRank(b: nat, r: nat, n: nat) returns (i: nat)
    requires r < Below(b, n)
    ensures i < n && At(b, i) && Below(b, i) == r
  {
    BelowNext(b, n - 1);
    if r < Below(b, n - 1) { i := SlotOfRank(b, r, n - 1); } else { i := n - 1; }
  }

  /** Looking a key up in a table is looking it up in the slot of its digit. */
  lemma {:induction false} TableFind<K, V>(h: K -> Hash, slots: seq<Option<Node<K, V>>>, path: seq<nat>, from: nat,
                                           k: K)
    requires Table(h, slots, path, from)
    ensures Digit(h(k), |path|) < from ==> k !in ContentsOfSlots(slots)
    ensures Digit(h(k), |path|) >= from ==>
              Find(ContentsOfSlots(slots), k) == Find(ContentsOf(slots[Digit(h(k), |path|) - from]), k)
  {
    if slots != [] {
      var rest := slots[1..];
      assert Table(h, rest, path, from + 1) by {
        forall i | 0 <= i < |rest| && rest[i].Some?
          ensures Shaped(h, rest[i].value, path + [from + 1 + i])
        {
          assert rest[i] == slots[i + 1];
        }
      }
      TableFind(h, rest, path, from + 1, k);
      if k in ContentsOf(slots[0]) {
        KeysSpell(h, slots[0].value, path + [from], k);
        SpellsShorter(path, from, h(k));
      }
    }
  }

  lemma TableUpdate<K, V>(h: K -> Hash, slots: seq<Option<Node<K, V>>>, path: seq<nat>, i: nat, c: Option<Node<K, V>>,
                          k: K, v: Option<V>)
    requires Table(h, slots, path, 0) && i == Digit(h(k), |path|)
    requires c.Some? ==> Shaped(h, c.value, path + [i])
    requires ContentsOf(c) == Apply(ContentsOf(slots[i]), k, v)
    ensures Table(h, slots[i := c], path, 0)
    ensures ContentsOfSlots(slots[i := c]) == Apply(ContentsOfSlots(slots), k, v)
  {
    hide ContentsOfSlots, ContentsOf, Shaped, Apply, Find;
    var m, m' := ContentsOfSlots(slots), ContentsOfSlots(slots[i := c]);
    forall q ensures Find(m', q) == Find(Apply(m, k, v), q) {
      TableFind(h, slots, path, 0, q);
      TableFind(h, slots[i := c], path, 0, q);
      FindApplied(m, k, v, q);
      FindApplied(ContentsOf(slots[i]), k, v, q);
    }
    SameFinds(m', Apply(m, k, v));
  }

  lemma FindApplied<K, V>(m: map<K, V>, k: K, v: Option<V>, q: K)
    ensures Find(Apply(m, k, v), q) == if q == k then v else Find(m, q)
  {}

  lemma SameFinds<K, V>(a: map<K, V>, b: map<K, V>)
    requires forall q :: Find(a, q) == Find(b, q)
    ensures a == b
  {
    forall q ensures (q in a <==> q in b) && (q in a ==> a[q] == b[q]) {
      assert Find(a, q) == Find(b, q);
    }
  }
}
