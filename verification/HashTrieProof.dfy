/** The trie refines a finite map. */
module HashTrieProof {
  import opened Wrappers
  import opened Bits
  import opened HashTrie
  import opened HashTrieTables

  // ----- Rebuilding an inner node -----

  lemma InsertSlots<K, V>(b: Word, nodes: seq<Node<K, V>>, i: nat, c: Node<K, V>)
    requires i < 32 && |nodes| == Below(b, 32) && !At(b, i)
    ensures Below(b, i) <= |nodes|
    ensures var nodes' := nodes[..Below(b, i)] + [c] + nodes[Below(b, i)..];
            && |nodes'| == Below(OrBitWord(b, i), 32)
            && Slots(BitmapNode(OrBitWord(b, i), nodes')) == Slots(BitmapNode(b, nodes))[i := Some(c)]
  {
    var b', r := OrBitWord(b, i), Below(b, i);
    BelowMonotone(b, i, 32);
    BelowOrBit(b, i, 32);
    var nodes' := nodes[..r] + [c] + nodes[r..];
    forall j | 0 <= j < 32
      ensures Child(BitmapNode(b', nodes'), j) == if j == i then Some(c) else Child(BitmapNode(b, nodes), j)
    {
      OrBit(b, i, j);
      BelowOrBit(b, i, j);
      if j < i { BelowMonotone(b, j, i); } else { BelowMonotone(b, i, j); }
      BelowMonotone(b, j, 32);
    }
  }

  lemma RemoveSlots<K, V>(b: Word, nodes: seq<Node<K, V>>, i: nat)
    requires i < 32 && |nodes| == Below(b, 32) && At(b, i)
    ensures Below(b, i) < |nodes|
    ensures var nodes' := nodes[..Below(b, i)] + nodes[Below(b, i) + 1..];
            && |nodes'| == Below(XorBitWord(b, i), 32)
            && Slots(BitmapNode(XorBitWord(b, i), nodes')) == Slots(BitmapNode(b, nodes))[i := None]
  {
    var b', r := XorBitWord(b, i), Below(b, i);
    BelowMonotone(b, i, 32);
    BelowXorBit(b, i, 32);
    var nodes' := nodes[..r] + nodes[r + 1..];
    forall j | 0 <= j < 32
      ensures Child(BitmapNode(b', nodes'), j) == if j == i then None else Child(BitmapNode(b, nodes), j)
    {
      XorBit(b, i, j);
      BelowXorBit(b, i, j);
      if j < i { BelowMonotone(b, j, i); } else { BelowMonotone(b, i, j); }
      BelowMonotone(b, j, 32);
    }
  }

  lemma ReplaceSlots<K, V>(b: Word, nodes: seq<Node<K, V>>, i: nat, c: Node<K, V>)
    requires i < 32 && |nodes| == Below(b, 32) && At(b, i)
    ensures Below(b, i) < |nodes|
    ensures Slots(BitmapNode(b, nodes[Below(b, i) := c])) == Slots(BitmapNode(b, nodes))[i := Some(c)]
  {
    BelowMonotone(b, i, 32);
    forall j | 0 <= j < 32
      ensures Child(BitmapNode(b, nodes[Below(b, i) := c]), j)
              == if j == i then Some(c) else Child(BitmapNode(b, nodes), j)
    {
      if j < i { BelowMonotone(b, j, i); } else { BelowMonotone(b, i, j); }
      BelowMonotone(b, j, 32);
    }
  }

  // A node whose table is well placed is well shaped, once its child count is right.
  lemma ShapedBitmap<K, V>(h: K -> Hash, b: Word, nodes: seq<Node<K, V>>, path: seq<nat>)
    requires |path| <= 6 && |nodes| == Below(b, 32)
    requires Table(h, Slots(BitmapNode(b, nodes)), path, 0)
    ensures 1 <= |nodes| <= BITMAP_MAX && !(|nodes| == 1 && IsLeaf(nodes[0])) ==> Shaped(h, BitmapNode(b, nodes), path)
    ensures |nodes| == 1 && IsLeaf(nodes[0]) ==> Shaped(h, nodes[0], path)
    ensures ContentsOfSlots(Slots(BitmapNode(b, nodes))) == ContentsOfNodes(nodes)
  {
    var n := BitmapNode(b, nodes);
    BitmapSlots(b, nodes);
    ContentsDense(Slots(n));
    forall i | 0 <= i < 32 && At(b, i) && Below(b, i) < |nodes|
      ensures Shaped(h, nodes[Below(b, i)], path + [i])
    {
      assert Slots(n)[i] == Some(nodes[Below(b, i)]);
    }
    if |nodes| == 1 && IsLeaf(nodes[0]) {
      var i := SlotOfRank(b, 0, 32);
      LeafUp(h, nodes[0], path, i);
    }
  }

  lemma LeafUp<K, V>(h: K -> Hash, leaf: Node<K, V>, path: seq<nat>, i: nat)
    requires IsLeaf(leaf) && Shaped(h, leaf, path + [i])
    ensures Shaped(h, leaf, path) && Digit(leaf.keyHash, |path|) == i
  {
    SpellsShorter(path, i, leaf.keyHash);
  }

  lemma ShapedFull<K, V>(h: K -> Hash, slots: seq<Option<Node<K, V>>>, path: seq<nat>)
    requires |path| <= 6 && Table(h, slots, path, 0)
    ensures Occupied(slots) >= FULL_MIN ==> Shaped(h, FullNode(Occupied(slots), slots), path)
    ensures 2 <= Occupied(slots) <= BITMAP_MAX ==> Shaped(h, PackNodes(slots), path)
    ensures Contents(PackNodes(slots)) == ContentsOfSlots(slots)
  {
    if Occupied(slots) >= FULL_MIN {
      forall i | 0 <= i < 32 && slots[i].Some?
        ensures Shaped(h, slots[i].value, path + [i])
      {
        assert slots[i].Some? ==> Shaped(h, slots[i].value, path + [0 + i]);
      }
    }
    SpreadMask(slots);
    WordBit();
    BitmapSlots(Mask(slots), Dense(slots));
    ShapedBitmap(h, Mask(slots), Dense(slots), path);
  }

  lemma InnerTable<K, V>(h: K -> Hash, n: Node<K, V>, path: seq<nat>)
    requires n.BitmapNode? || n.FullNode?
    requires Shaped(h, n, path)
    ensures Table(h, Slots(n), path, 0)
  {}

  /** What a new child in slot `i` may be. */
  ghost predicate NewChild<K, V>(h: K -> Hash, path: seq<nat>, i: nat, c: Option<Node<K, V>>, c': Option<Node<K, V>>) {
    && (c'.Some? ==> Shaped(h, c'.value, path + [i]))
    && (c'.None? ==> c.Some? && IsLeaf(c.value))
  }

  ghost predicate RebuildsTo<K, V>(h: K -> Hash, path: seq<nat>, n': Node<K, V>, slots: seq<Option<Node<K, V>>>) {
    Shaped(h, n', path) && Contents(n') == ContentsOfSlots(slots)
  }

  lemma BitmapInsert<K, V>(h: K -> Hash, n: Node<K, V>, path: seq<nat>, i: nat, c': Option<Node<K, V>>)
    requires n.BitmapNode? && Shaped(h, n, path) && i < 32
    requires NewChild(h, path, i, Child(n, i), c') && c' != Child(n, i)
    requires !At(n.bitmap, i) && |n.nodes| < BITMAP_MAX
    requires Below(n.bitmap, i) <= |n.nodes|
    ensures RebuildsTo(h, path, RebuildBitmap(n, i, Below(n.bitmap, i), Child(n, i), c'), Slots(n)[i := c'])
  {
    var b, nodes, r := n.bitmap, n.nodes, Below(n.bitmap, i);
    InnerTable(h, n, path);
    assert Table(h, Slots(n)[i := c'], path, 0);
    InsertSlots(b, nodes, i, c'.value);
    ShapedBitmap(h, OrBitWord(b, i), nodes[..r] + [c'.value] + nodes[r..], path);
  }

  lemma BitmapExpand<K, V>(h: K -> Hash, n: Node<K, V>, path: seq<nat>, i: nat, c': Option<Node<K, V>>)
    requires n.BitmapNode? && Shaped(h, n, path) && i < 32
    requires NewChild(h, path, i, Child(n, i), c') && c' != Child(n, i)
    requires !At(n.bitmap, i) && |n.nodes| == BITMAP_MAX
    requires Below(n.bitmap, i) <= |n.nodes|
    ensures RebuildsTo(h, path, RebuildBitmap(n, i, Below(n.bitmap, i), Child(n, i), c'), Slots(n)[i := c'])
  {
    var b, nodes, r := n.bitmap, n.nodes, Below(n.bitmap, i);
    InnerTable(h, n, path);
    assert Table(h, Slots(n)[i := c'], path, 0);
    BitmapSlots(b, nodes);
    OccupiedUpdate(Spread(b, nodes, 32), i, c');
    SpreadCount(b, nodes, 32);
    ShapedFull(h, Slots(n)[i := c'], path);
  }

  lemma BitmapRemove<K, V>(h: K -> Hash, n: Node<K, V>, path: seq<nat>, i: nat, c': Option<Node<K, V>>)
    requires n.BitmapNode? && Shaped(h, n, path) && i < 32
    requires NewChild(h, path, i, Child(n, i), c') && c' != Child(n, i)
    requires At(n.bitmap, i) && c'.None?
    requires Below(n.bitmap, i) < |n.nodes|
    ensures RebuildsTo(h, path, RebuildBitmap(n, i, Below(n.bitmap, i), Child(n, i), c'), Slots(n)[i := c'])
  {
    var b, nodes, r := n.bitmap, n.nodes, Below(n.bitmap, i);
    InnerTable(h, n, path);
    assert Table(h, Slots(n)[i := c'], path, 0);
    RemoveSlots(b, nodes, i);
    assert |nodes| == 2 ==> nodes[..r] + nodes[r + 1..] == [nodes[1 - r]];
    hide Table, Slots;
    ShapedBitmap(h, XorBitWord(b, i), nodes[..r] + nodes[r + 1..], path);
  }

  lemma BitmapReplace<K, V>(h: K -> Hash, n: Node<K, V>, path: seq<nat>, i: nat, c': Option<Node<K, V>>)
    requires n.BitmapNode? && Shaped(h, n, path) && i < 32
    requires NewChild(h, path, i, Child(n, i), c') && c' != Child(n, i)
    requires At(n.bitmap, i) && c'.Some?
    requires Below(n.bitmap, i) < |n.nodes|
    ensures RebuildsTo(h, path, RebuildBitmap(n, i, Below(n.bitmap, i), Child(n, i), c'), Slots(n)[i := c'])
  {
    var b, nodes, r := n.bitmap, n.nodes, Below(n.bitmap, i);
    InnerTable(h, n, path);
    assert Table(h, Slots(n)[i := c'], path, 0);
    ReplaceSlots(b, nodes, i, c'.value);
    ShapedBitmap(h, b, nodes[r := c'.value], path);
  }

  lemma RebuildBitmapCorrect<K, V>(h: K -> Hash, n: Node<K, V>, path: seq<nat>, i: nat, c': Option<Node<K, V>>)
    requires n.BitmapNode? && Shaped(h, n, path) && i < 32
    requires NewChild(h, path, i, Child(n, i), c')
    ensures Below(n.bitmap, i) <= |n.nodes| && (At(n.bitmap, i) ==> Below(n.bitmap, i) < |n.nodes|)
    ensures RebuildsTo(h, path, RebuildBitmap(n, i, Below(n.bitmap, i), Child(n, i), c'), Slots(n)[i := c'])
    ensures c' == Child(n, i) ==> RebuildBitmap(n, i, Below(n.bitmap, i), Child(n, i), c') == n
  {
    BelowMonotone(n.bitmap, i, 32);
    hide Table, Contents, ContentsOfSlots;
    if c' == Child(n, i) {
      InnerContents(h, n, path);
      assert Slots(n)[i := c'] == Slots(n);
    } else if Child(n, i).None? {
      if |n.nodes| < BITMAP_MAX { BitmapInsert(h, n, path, i, c'); } else { BitmapExpand(h, n, path, i, c'); }
    } else {
      if c'.None? { BitmapRemove(h, n, path, i, c'); } else { BitmapReplace(h, n, path, i, c'); }
    }
  }

  lemma {:induction false} SpreadCount<T>(b: nat, nodes: seq<T>, width: nat)
    requires |nodes| == Below(b, width)
    ensures Occupied(Spread(b, nodes, width)) == |nodes|
  {
    if width > 0 {
      var rest := if b % 2 == 1 then nodes[1..] else nodes;
      SpreadCount(b / 2, rest, width - 1);
      assert Spread(b, nodes, width)[1..] == Spread(b / 2, rest, width - 1);
    }
  }

  lemma RebuildFullCorrect<K, V>(h: K -> Hash, n: Node<K, V>, path: seq<nat>, i: nat, c': Option<Node<K, V>>)
    requires n.FullNode? && Shaped(h, n, path) && i < 32
    requires NewChild(h, path, i, Child(n, i), c')
    ensures var n' := RebuildFull(n, i, c');
            Shaped(h, n', path) && Contents(n') == ContentsOfSlots(Slots(n)[i := c'])
  {
    var slots' := n.slots[i := c'];
    InnerTable(h, n, path);
    assert Slots(n) == n.slots;
    assert Table(h, slots', path, 0);
    OccupiedUpdate(n.slots, i, c');
    ShapedFull(h, slots', path);
    assert c' == n.slots[i] ==> slots' == n.slots;
  }

  // ----- Merging a second key into a leaf -----

  lemma {:induction false} OrSame(x: nat)
    ensures Or(x, x) == x
  {
    if x > 0 { OrSame(x / 2); }
  }

  lemma OneSlot<K, V>(i: nat, c: Node<K, V>)
    requires i < 32
    ensures OrBitWord(BitWord(i), i) == BitWord(i) == OrBitWord(0, i)
    ensures Below(BitWord(i), 32) == 1 && Slots(BitmapNode(BitWord(i), [c])) == Empty<Node<K, V>>(32)[i := Some(c)]
    ensures forall j :: 0 <= j < 32 ==> At(BitWord(i), j) == (i == j) && Below(BitWord(i), j) == if i < j then 1 else 0
  {
    OrSame(Bit(i));
    BelowZero(32);
    BelowZero(i);
    ZeroAt(i);
    InsertSlots<K, V>(0, [], i, c);
    assert [][..0] + [c] + [][0..] == [c];
    forall j | 0 <= j < 32
      ensures At(BitWord(i), j) == (i == j) && Below(BitWord(i), j) == (if i < j then 1 else 0)
      ensures Child(Node<K, V>.BitmapNode(0, []), j) == None
    {
      ZeroAt(j);
      BelowZero(j);
      OrBit(0, i, j);
      BelowOrBit(0, i, j);
    }
    assert Slots(Node<K, V>.BitmapNode(0, [])) == Empty<Node<K, V>>(32);
  }

  function Empty<T>(width: nat): seq<Option<T>> {
    seq(width, _ => None)
  }

  lemma TwoSlots<K, V>(i: nat, c: Node<K, V>, j: nat, d: Node<K, V>)
    requires i < 32 && j < 32 && i != j
    ensures var nodes := if i < j then [c, d] else [d, c];
            && |nodes| == Below(OrBitWord(BitWord(i), j), 32)
            && Slots(BitmapNode(OrBitWord(BitWord(i), j), nodes)) == Empty<Node<K, V>>(32)[i := Some(c)][j := Some(d)]
  {
    OneSlot(i, c);
    InsertSlots(BitWord(i), [c], j, d);
    var r := if i < j then 1 else 0;
    assert [c][..r] + [d] + [c][r..] == if i < j then [c, d] else [d, c];
  }

  lemma {:induction false} LeafDown<K, V>(h: K -> Hash, leaf: Node<K, V>, path: seq<nat>)
    requires IsLeaf(leaf) && Shaped(h, leaf, path)
    ensures Shaped(h, leaf, path + [Digit(leaf.keyHash, |path|)])
  {
    assert Spells(path + [Digit(leaf.keyHash, |path|)], leaf.keyHash);
  }

  lemma MergeCollision<K, V>(h: K -> Hash, a: (K, V), b: (K, V), path: seq<nat>)
    requires a.0 != b.0 && h(a.0) == h(b.0) && Spells(path, h(a.0))
    ensures RebuildsWith(h, path, CollisionNode(h(b.0), [a, b]), map[a.0 := a.1], b)
  {
    assert [a, b][1..] == [b];
    assert EntriesMap([b]) == map[b.0 := b.1];
  }

  ghost predicate RebuildsWith<K, V>(h: K -> Hash, path: seq<nat>, n: Node<K, V>, m: map<K, V>, e: (K, V)) {
    Shaped(h, n, path) && Contents(n) == m[e.0 := e.1]
  }

  lemma MergeDeeper<K, V>(h: K -> Hash, a: nat, sub: Node<K, V>, path: seq<nat>)
    requires a < 32 && |path| <= 6 && sub.BitmapNode? && Shaped(h, sub, path + [a])
    ensures Shaped(h, BitmapNode(OrBitWord(BitWord(a), a), [sub]), path)
    ensures ContentsOfNodes([sub]) == Contents(sub)
  {
    OneSlot(a, sub);
    hide *;
    assert Table(h, Slots(BitmapNode(BitWord(a), [sub])), path, 0) by { OneSlotTable(h, a, sub, path); }
    ShapedBitmap(h, BitWord(a), [sub], path);
    PairContents(sub, sub);
    NotLeaf(sub);
  }

  lemma NotLeaf<K, V>(n: Node<K, V>)
    requires n.BitmapNode?
    ensures !IsLeaf(n) && 1 <= BITMAP_MAX
  {}

  lemma OneSlotTable<K, V>(h: K -> Hash, a: nat, c: Node<K, V>, path: seq<nat>)
    requires a < 32 && Shaped(h, c, path + [a])
    ensures Table(h, Empty<Node<K, V>>(32)[a := Some(c)], path, 0)
  {}

  lemma MergePair<K, V>(h: K -> Hash, leaf: Node<K, V>, other: Node<K, V>, path: seq<nat>)
    requires IsLeaf(leaf) && IsLeaf(other) && Shaped(h, leaf, path) && Shaped(h, other, path) && |path| <= 6
    requires Digit(leaf.keyHash, |path|) != Digit(other.keyHash, |path|)
    ensures var a, b := Digit(leaf.keyHash, |path|), Digit(other.keyHash, |path|);
            Shaped(h, BitmapNode(OrBitWord(BitWord(a), b), if a < b then [leaf, other] else [other, leaf]), path)
  {
    var a, b := Digit(leaf.keyHash, |path|), Digit(other.keyHash, |path|);
    LeafDown(h, leaf, path);
    LeafDown(h, other, path);
    TwoSlots(a, leaf, b, other);
    ShapedBitmap(h, OrBitWord(BitWord(a), b), if a < b then [leaf, other] else [other, leaf], path);
  }

  lemma {:induction false} MergeCorrect<K, V>(h: K -> Hash, leaf: Node<K, V>, path: seq<nat>, e: (K, V))
    requires IsLeaf(leaf) && Shaped(h, leaf, path) && Spells(path, h(e.0))
    requires leaf.CollisionNode? ==> leaf.keyHash != h(e.0)
    requires e.0 !in Contents(leaf)
    ensures RebuildsWith(h, path, MergeIntoNode(h, leaf, path, e), Contents(leaf), e)
    ensures leaf.keyHash != h(e.0) ==> MergeIntoNode(h, leaf, path, e).BitmapNode?
    decreases 7 - |path|
  {
    var kh := h(e.0);
    if leaf.keyHash == kh {
      MergeCollision(h, leaf.entry, e, path);
    } else {
      DifferentHashesPart(leaf.keyHash, kh, path);
      var a, b := Digit(leaf.keyHash, |path|), Digit(kh, |path|);
      if a == b {
        LeafDown(h, leaf, path);
        MergeCorrect(h, leaf, path + [a], e);
        MergeDeeper(h, a, MergeIntoNode(h, leaf, path + [a], e), path);
      } else {
        var other := ValueNode(kh, e);
        MergePair(h, leaf, other, path);
        PairContents(leaf, other);
        PairContents(other, leaf);
      }
    }
  }

  lemma PairContents<K, V>(a: Node<K, V>, b: Node<K, V>)
    ensures ContentsOfNodes([a, b]) == Contents(b) + Contents(a)
    ensures ContentsOfNodes([a]) == Contents(a)
  {
    assert [a, b][1..] == [b];
    assert ContentsOfNodes([b]) == map[] + Contents(b);
    assert ContentsOfNodes([a]) == map[] + Contents(a);
  }

  // ----- Update and lookup -----

  /** What `u` must be for an update of `k` to `v` below the node `n` at `path`. */
  ghost predicate Updates<K, V>(h: K -> Hash, n: Node<K, V>, path: seq<nat>, k: K, v: Option<V>, u: Update<K, V>) {
    && (u.node.Some? ==> Shaped(h, u.node.value, path))
    && ContentsOf(u.node) == Apply(Contents(n), k, v)
    && (u.altered <==> Find(Contents(n), k) != v)
    && (!u.altered ==> u.node == Some(n))
    && (u.resized <==> (k in Contents(n)) != v.Some?)
    && (u.node.None? ==> IsLeaf(n))
  }

  lemma ApplySame<K, V>(m: map<K, V>, k: K, v: Option<V>)
    ensures Find(m, k) == v ==> Apply(m, k, v) == m
  {}

  lemma UpdateLeafCorrect<K, V>(h: K -> Hash, n: Node<K, V>, path: seq<nat>, k: K, v: Option<V>)
    requires IsLeaf(n) && Shaped(h, n, path) && Spells(path, h(k))
    ensures Updates(h, n, path, k, v, UpdateNode(h, n, path, k, v))
  {
    ApplySame(Contents(n), k, v);
    if n.CollisionNode? {
      EntriesFind(n.entries, k);
      EntriesMember(n.entries);
      if h(k) == n.keyHash {
        UpdateCollision(h, n, path, k, v);
      } else if v.Some? {
        MergeCorrect(h, n, path, (k, v.value));
      }
    } else if v.Some? && k != n.entry.0 {
      MergeCorrect(h, n, path, (k, v.value));
    }
  }

  lemma UpdateCollision<K, V>(h: K -> Hash, n: Node<K, V>, path: seq<nat>, k: K, v: Option<V>)
    requires n.CollisionNode? && Shaped(h, n, path) && h(k) == n.keyHash
    ensures Updates(h, n, path, k, v, UpdateNode(h, n, path, k, v))
  {
    var es, c := n.entries, IndexOf(n.entries, k);
    EntriesFind(es, k);
    ApplySame(Contents(n), k, v);
    if v.Some? || c < |es| {
      EditCorrect(es, k, v);
      EditedHashes(h, es, n.keyHash, k, v);
      EditedSize(es, k, v);
    }
  }

  // Edited entries still share their hash.
  lemma EditedHashes<K, V>(h: K -> Hash, es: seq<(K, V)>, hash: Hash, k: K, v: Option<V>)
    requires h(k) == hash && (forall i :: 0 <= i < |es| ==> h(es[i].0) == hash) && (v.Some? || IndexOf(es, k) < |es|)
    ensures var es' := EditEntries(es, IndexOf(es, k), k, v); forall i :: 0 <= i < |es'| ==> h(es'[i].0) == hash
  {}

  lemma EditedSize<K, V>(es: seq<(K, V)>, k: K, v: Option<V>)
    requires |es| >= 2 && (v.Some? || IndexOf(es, k) < |es|)
    ensures var c := IndexOf(es, k);
            var es' := EditEntries(es, c, k, v);
            && |es'| == |es| + (if v.None? then -1 else if c < |es| then 0 else 1)
            && (v.None? && |es| == 2 ==> es' == [es[1 - c]] && EntriesMap(es') == map[es[1 - c].0 := es[1 - c].1])
  {
    var c := IndexOf(es, k);
    if v.None? && |es| == 2 {
      assert EditEntries(es, c, k, v) == [es[1 - c]];
      assert [es[1 - c]][1..] == [];
    }
  }

  lemma {:induction false} UpdateCorrect<K, V>(h: K -> Hash, n: Node<K, V>, path: seq<nat>, k: K, v: Option<V>)
    requires Shaped(h, n, path) && Spells(path, h(k))
    ensures Updates(h, n, path, k, v, UpdateNode(h, n, path, k, v))
    decreases n
  {
    if IsLeaf(n) {
      UpdateLeafCorrect(h, n, path, k, v);
    } else {
      hide UpdateNode, Updates, Digit, Spells, NewLeaf, Below, At;
      var i := Digit(h(k), |path|);
      InnerKind(h, n, path);
      ChildShaped(h, n, path, i);
      SpellsNext(path, h(k));
      var c := Child(n, i);
      if c.Some? { UpdateCorrect(h, c.value, path + [i], k, v); }
      hide Child, Shaped;
      var u := if c.Some? then UpdateNode(h, c.value, path + [i], k, v) else NewLeaf(h, k, v);
      if n.BitmapNode? { UpdateBitmap(h, n, path, k, v, u); } else { UpdateFull(h, n, path, k, v, u); }
    }
  }

  lemma ChildShaped<K, V>(h: K -> Hash, n: Node<K, V>, path: seq<nat>, i: nat)
    requires !IsLeaf(n) && Shaped(h, n, path) && i < 32
    ensures n.BitmapNode? || n.FullNode?
    ensures Child(n, i).Some? ==> Shaped(h, Child(n, i).value, path + [i])
  {
    hide Below, At;
  }

  // The update of the child in the key's slot of an inner node.
  ghost predicate ChildUpdate<K, V>(h: K -> Hash, n: Node<K, V>, path: seq<nat>, k: K, v: Option<V>, u: Update<K, V>)
    requires !IsLeaf(n) && Shaped(h, n, path) && Spells(path, h(k))
  {
    var i := Digit(h(k), |path|);
    match Child(n, i)
    case Some(c) =>
      Shaped(h, c, path + [i]) && u == UpdateNode(h, c, path + [i], k, v) && Updates(h, c, path + [i], k, v, u)
    case None => u == NewLeaf(h, k, v)
  }

  // What it does to the table.
  lemma UpdateTable<K, V>(h: K -> Hash, n: Node<K, V>, path: seq<nat>, k: K, v: Option<V>, u: Update<K, V>)
    requires !IsLeaf(n) && Shaped(h, n, path) && Spells(path, h(k))
    requires ChildUpdate(h, n, path, k, v, u)
    ensures var i := Digit(h(k), |path|);
            && Find(Contents(n), k) == Find(ContentsOf(Child(n, i)), k)
            && (Find(Contents(n), k) == v ==> Apply(Contents(n), k, v) == Contents(n))
            && (Child(n, i).Some? || v.Some? ==>
                  && NewChild(h, path, i, Child(n, i), u.node)
                  && ContentsOfSlots(Slots(n)[i := u.node]) == Apply(Contents(n), k, v))
  {
    hide Slots, Contents, ContentsOfSlots, ContentsOf, Apply, Find, Digit, Child, Shaped, NewChild, ChildUpdate;
    var i := Digit(h(k), |path|);
    InnerKind(h, n, path);
    SlotIsChild(n, i);
    InnerTable(h, n, path);
    InnerContents(h, n, path);
    TableFind(h, Slots(n), path, 0, k);
    ApplySame(Contents(n), k, v);
    if Child(n, i).Some? || v.Some? {
      ChildApplies(h, n, path, k, v, u);
      TableUpdate(h, Slots(n), path, i, u.node, k, v);
    }
  }

  lemma InnerKind<K, V>(h: K -> Hash, n: Node<K, V>, path: seq<nat>)
    requires !IsLeaf(n) && Shaped(h, n, path)
    ensures n.BitmapNode? || n.FullNode?
  {}

  lemma SlotIsChild<K, V>(n: Node<K, V>, i: nat)
    requires (n.BitmapNode? || n.FullNode?) && i < 32
    ensures |Slots(n)| == 32 && Slots(n)[i] == Child(n, i)
  {
    hide Child;
  }

  // The child alone.
  lemma ChildApplies<K, V>(h: K -> Hash, n: Node<K, V>, path: seq<nat>, k: K, v: Option<V>, u: Update<K, V>)
    requires !IsLeaf(n) && Shaped(h, n, path) && Spells(path, h(k))
    requires ChildUpdate(h, n, path, k, v, u)
    requires Child(n, Digit(h(k), |path|)).Some? || v.Some?
    ensures var i := Digit(h(k), |path|);
            && NewChild(h, path, i, Child(n, i), u.node) && (u.node.Some? ==> Shaped(h, u.node.value, path + [i]))
            && ContentsOf(u.node) == Apply(ContentsOf(Child(n, i)), k, v)
  {
    var i := Digit(h(k), |path|);
    if Child(n, i).None? {
      SpellsNext(path, h(k));
      var leaf := ValueNode(h(k), (k, v.value));
      assert u.node == Some(leaf) && Contents(leaf) == map[k := v.value];
      hide Digit, Child, Spells;
    } else {
      hide Digit, Child, Spells, Contents, UpdateNode, Apply;
    }
  }

  lemma UpdateBitmap<K, V>(h: K -> Hash, n: Node<K, V>, path: seq<nat>, k: K, v: Option<V>, u: Update<K, V>)
    requires n.BitmapNode? && Shaped(h, n, path) && Spells(path, h(k))
    requires ChildUpdate(h, n, path, k, v, u)
    ensures Updates(h, n, path, k, v, UpdateNode(h, n, path, k, v))
  {
    hide Slots, Apply, RebuildBitmap, Rank, And, Below, At, Digit;
    var i := Digit(h(k), |path|);
    ChildBounds(n.bitmap, i);
    UpdateTable(h, n, path, k, v, u);
    if Child(n, i).Some? || v.Some? {
      RebuildBitmapCorrect(h, n, path, i, u.node);
    }
  }

  lemma UpdateFull<K, V>(h: K -> Hash, n: Node<K, V>, path: seq<nat>, k: K, v: Option<V>, u: Update<K, V>)
    requires n.FullNode? && Shaped(h, n, path) && Spells(path, h(k))
    requires ChildUpdate(h, n, path, k, v, u)
    ensures Updates(h, n, path, k, v, UpdateNode(h, n, path, k, v))
  {
    var i := Digit(h(k), |path|);
    UpdateTable(h, n, path, k, v, u);
    if Child(n, i).Some? || v.Some? {
      RebuildFullCorrect(h, n, path, i, u.node);
    }
  }

  /** Lookup follows the key's digits to the entry, if there is one. */
  lemma {:induction false} GetCorrect<K, V>(h: K -> Hash, n: Node<K, V>, path: seq<nat>, k: K)
    requires n.ArrayMapNode? || Shaped(h, n, path)
    ensures Get(h, n, path, k) == Find(Contents(n), k)
    decreases n
  {
    if n.ArrayMapNode? || n.CollisionNode? {
      EntriesFind(n.entries, k);
    } else if !n.ValueNode? {
      var i := Digit(h(k), |path|);
      InnerTable(h, n, path);
      InnerContents(h, n, path);
      TableFind(h, Slots(n), path, 0, k);
      if n.BitmapNode? { ChildBounds(n.bitmap, i); }
      if Child(n, i).Some? { GetCorrect(h, Child(n, i).value, path + [i], k); }
    }
  }
}
