/**
  * The persistent hash-trie map: five node kinds that turn into one another, and the proof that
  * together they behave as a finite map.
  */
module HashTrie {
  import opened Wrappers
  import opened Bits

  type Hash = Word

  // ----- Nodes -----

  datatype Node<K, V> =
    | ArrayMapNode(entries: seq<(K, V)>)
    | BitmapNode(bitmap: Word, nodes: seq<Node<K, V>>)
    | FullNode(count: nat, slots: seq<Option<Node<K, V>>>)
    | CollisionNode(keyHash: Hash, entries: seq<(K, V)>)
    | ValueNode(keyHash: Hash, entry: (K, V))

  /** An updated node (absent when nothing is left), with the "altered" and "size changed" flags. */
  datatype Update<K, V> = Update(node: Option<Node<K, V>>, altered: bool, resized: bool)

  const BITMAP_MAX: nat := 16
  const FULL_MIN: nat := 8

  predicate IsLeaf<K, V>(n: Node<K, V>) {
    n.ValueNode? || n.CollisionNode?
  }

  /** The five hash bits a node `level` deep dispatches on: `(hash >>> 5 * level) & 31`. */
  function Digit(hash: nat, level: nat): (d: nat)
    ensures d < 32
  {
    if level == 0 then hash % 32 else Digit(hash / 32, level - 1)
  }

  // ----- Shape -----

  /** The hash starts with the digits of `path`. */
  predicate Spells(path: seq<nat>, hash: Hash) {
    forall l :: 0 <= l < |path| ==> Digit(hash, l) == path[l]
  }

  predicate DistinctKeys<K(==), V>(entries: seq<(K, V)>) {
    forall i, j :: 0 <= i < j < |entries| ==> entries[i].0 != entries[j].0
  }

  function Occupied<T>(slots: seq<Option<T>>): nat {
    if slots == [] then 0 else (if slots[0].Some? then 1 else 0) + Occupied(slots[1..])
  }

  /** The child in slot `i` of an inner node. */
  function Child<K, V>(n: Node<K, V>, i: nat): Option<Node<K, V>>
    requires n.BitmapNode? || n.FullNode?
  {
    match n
    case BitmapNode(b, nodes) => if At(b, i) && Below(b, i) < |nodes| then Some(nodes[Below(b, i)]) else None
    case FullNode(_, slots) => if i < |slots| then slots[i] else None
  }

  /** The invariant of a node that sits at the end of `path`. */
  ghost predicate Shaped<K, V>(h: K -> Hash, n: Node<K, V>, path: seq<nat>)
  {
    match n
    case ArrayMapNode(_) => false
    case ValueNode(kh, e) => kh == h(e.0) && Spells(path, kh)
    case CollisionNode(kh, es) =>
      && |es| >= 2 && DistinctKeys(es) && Spells(path, kh)
      && forall i :: 0 <= i < |es| ==> h(es[i].0) == kh
    case BitmapNode(b, nodes) =>
      && |path| <= 6
      && 1 <= |nodes| <= BITMAP_MAX && |nodes| == Below(b, 32)
      && !(|nodes| == 1 && IsLeaf(nodes[0]))
      && forall i :: 0 <= i < 32 && At(b, i) && Below(b, i) < |nodes| ==> Shaped(h, nodes[Below(b, i)], path + [i])
    case FullNode(count, slots) =>
      && |path| <= 6
      && |slots| == 32 && count == Occupied(slots) && count >= FULL_MIN
      && forall i :: 0 <= i < 32 && slots[i].Some? ==> Shaped(h, slots[i].value, path + [i])
  }

  // ----- Contents: every entry below a node -----

  ghost function EntriesMap<K, V>(entries: seq<(K, V)>): map<K, V> {
    if entries == [] then map[] else EntriesMap(entries[1..])[entries[0].0 := entries[0].1]
  }

  ghost function Contents<K, V>(n: Node<K, V>): map<K, V> {
    match n
    case ArrayMapNode(es) => EntriesMap(es)
    case ValueNode(_, e) => map[e.0 := e.1]
    case CollisionNode(_, es) => EntriesMap(es)
    case BitmapNode(_, nodes) => ContentsOfNodes(nodes)
    case FullNode(_, slots) => ContentsOfSlots(slots)
  }

  ghost function ContentsOfNodes<K, V>(nodes: seq<Node<K, V>>): map<K, V> {
    if nodes == [] then map[] else ContentsOfNodes(nodes[1..]) + Contents(nodes[0])
  }

  ghost function ContentsOfSlots<K, V>(slots: seq<Option<Node<K, V>>>): map<K, V> {
    if slots == [] then map[] else ContentsOfSlots(slots[1..]) + ContentsOf(slots[0])
  }

  ghost function ContentsOf<K, V>(n: Option<Node<K, V>>): map<K, V> {
    if n.Some? then Contents(n.value) else map[]
  }

  /** What `set` (a value) and `remove` (no value) do to a plain map. */
  ghost function Apply<K, V>(m: map<K, V>, k: K, v: Option<V>): map<K, V> {
    if v.Some? then m[k := v.value] else m - {k}
  }

  function Find<K, V>(m: map<K, V>, k: K): Option<V> {
    if k in m then Some(m[k]) else None
  }

  // ----- Lookup -----

  function IndexOf<K(==), V>(entries: seq<(K, V)>, k: K): (c: nat)
    ensures c <= |entries|
    ensures c < |entries| ==> entries[c].0 == k
    ensures forall i :: 0 <= i < c ==> entries[i].0 != k
  {
    if entries == [] || entries[0].0 == k then 0 else 1 + IndexOf(entries[1..], k)
  }

  function GetEntry<K(==), V>(entries: seq<(K, V)>, k: K): Option<V> {
    var c := IndexOf(entries, k);
    if c < |entries| then Some(entries[c].1) else None
  }

  lemma ChildBounds(b: Word, i: nat)
    requires i < 32
    ensures And(b, Bit(i)) != 0 <==> At(b, i)
    ensures Rank(b, i) == Below(b, i) <= Below(b, 32)
    ensures At(b, i) ==> Below(b, i) < Below(b, 32)
  {
    hide *;
    TestBit(b, i);
    RankIsBelow(b, i);
    BelowMonotone(b, i, 32);
  }

  lemma BitmapChild<K, V>(h: K -> Hash, n: Node<K, V>, path: seq<nat>, i: nat)
    requires n.BitmapNode? && Shaped(h, n, path) && i < 32
    ensures Rank(n.bitmap, i) <= |n.nodes|
    ensures And(n.bitmap, Bit(i)) != 0 ==>
              Rank(n.bitmap, i) < |n.nodes| && Shaped(h, n.nodes[Rank(n.bitmap, i)], path + [i])
  {
    hide And, Rank, Bit;
    ChildBounds(n.bitmap, i);
  }

  lemma SpellsNext(path: seq<nat>, hash: Hash)
    requires Spells(path, hash)
    ensures Spells(path + [Digit(hash, |path|)], hash)
  {}

  function Get<K(==), V>(h: K -> Hash, n: Node<K, V>, path: seq<nat>, k: K): Option<V>
    requires n.ArrayMapNode? || Shaped(h, n, path)
  {
    match n
    case ArrayMapNode(es) => GetEntry(es, k)
    case ValueNode(_, e) => if k == e.0 then Some(e.1) else None
    case CollisionNode(_, es) => GetEntry(es, k)
    case BitmapNode(b, nodes) =>
      var i := Digit(h(k), |path|);
      BitmapChild(h, n, path, i);
      if And(b, Bit(i)) == 0 then None else Get(h, nodes[Rank(b, i)], path + [i], k)
    case FullNode(_, slots) =>
      var i := Digit(h(k), |path|);
      if slots[i].None? then None else Get(h, slots[i].value, path + [i], k)
  }

  // ----- Update -----

  /** Five-bit digits below seven determine a 32-bit hash. */
  lemma {:induction false} DigitsDetermine(a: nat, b: nat, n: nat)
    requires a < Bit(5 * n) && b < Bit(5 * n)
    requires forall l :: 0 <= l < n ==> Digit(a, l) == Digit(b, l)
    ensures a == b
  {
    if n > 0 {
      assert Bit(5 * n) == 32 * Bit(5 * (n - 1)) by {
        assert Bit(5 * n) == 4 * Bit(5 * n - 2);
        assert Bit(5 * n - 2) == 4 * Bit(5 * n - 4);
      }
      assert Digit(a, 0) == Digit(b, 0);
      forall l | 0 <= l < n - 1 ensures Digit(a / 32, l) == Digit(b / 32, l) {
        assert Digit(a, l + 1) == Digit(b, l + 1);
      }
      DigitsDetermine(a / 32, b / 32, n - 1);
    }
  }

  /** Two different hashes cannot share a path of seven digits: the shift never passes 30. */
  lemma DifferentHashesPart(a: Hash, b: Hash, path: seq<nat>)
    requires a != b && Spells(path, a) && Spells(path, b)
    ensures |path| <= 6
  {
    if |path| > 6 {
      assert Bit(35) == 8 * Bit(32) && Bit(32) == 0x1_0000_0000 by { WordBit(); assert Bit(34) == 4 * Bit(32); }
      forall l | 0 <= l < 7 ensures Digit(a, l) == Digit(b, l) {
        assert Digit(a, l) == path[l];
      }
      DigitsDetermine(a, b, 7);
    }
  }

  function MergeIntoNode<K, V>(h: K -> Hash, leaf: Node<K, V>, path: seq<nat>, e: (K, V)): Node<K, V>
    requires IsLeaf(leaf) && Shaped(h, leaf, path) && Spells(path, h(e.0))
    requires leaf.CollisionNode? ==> leaf.keyHash != h(e.0)
    decreases 7 - |path|
  {
    var kh := h(e.0);
    if leaf.keyHash == kh then CollisionNode(kh, [leaf.entry, e])
    else
      DifferentHashesPart(leaf.keyHash, kh, path);
      var a, b := Digit(leaf.keyHash, |path|), Digit(kh, |path|);
      var nodes :=
        if a == b then [MergeIntoNode(h, leaf, path + [a], e)]
        else if a < b then [leaf, ValueNode(kh, e)]
        else [ValueNode(kh, e), leaf];
      BitmapNode(OrBitWord(BitWord(a), b), nodes)
  }

  /** Overwrite the last entry's place, or the entry at `c` by the last one. */
  function RemoveEntry<K, V>(entries: seq<(K, V)>, c: nat): seq<(K, V)>
    requires c < |entries|
  {
    var last := |entries| - 1;
    if c == last then entries[..last] else entries[..last][c := entries[last]]
  }

  function EditEntries<K, V>(entries: seq<(K, V)>, c: nat, k: K, v: Option<V>): seq<(K, V)>
    requires c <= |entries| && (v.None? ==> c < |entries|)
  {
    if c < |entries| then
      if v.None? then RemoveEntry(entries, c) else entries[c := (k, v.value)]
    else entries + [(k, v.value)]
  }

  /** One slot per bit of the bitmap, the children handed out in order. */
  function Spread<T>(b: nat, nodes: seq<T>, width: nat): (slots: seq<Option<T>>)
    requires |nodes| == Below(b, width)
    ensures |slots| == width
  {
    if width == 0 then []
    else if b % 2 == 1 then [Some(nodes[0])] + Spread(b / 2, nodes[1..], width - 1)
    else [None] + Spread(b / 2, nodes, width - 1)
  }

  /** The occupied slots in order, and the bitmap that says which they are. */
  function Dense<T>(slots: seq<Option<T>>): seq<T> {
    if slots == [] then [] else (if slots[0].Some? then [slots[0].value] else []) + Dense(slots[1..])
  }

  function Mask<T>(slots: seq<Option<T>>): (b: nat)
    ensures b < Bit(|slots|)
  {
    if slots == [] then 0 else (if slots[0].Some? then 1 else 0) + 2 * Mask(slots[1..])
  }

  function PackNodes<K, V>(slots: seq<Option<Node<K, V>>>): Node<K, V>
    requires |slots| == 32
  {
    WordBit();
    BitmapNode(Mask(slots), Dense(slots))
  }

  function NewLeaf<K, V>(h: K -> Hash, k: K, v: Option<V>): Update<K, V> {
    if v.None? then Update(None, false, false) else Update(Some(ValueNode(h(k), (k, v.value))), true, true)
  }

  function UpdateLeaf<K(==), V(==)>(h: K -> Hash, n: Node<K, V>, path: seq<nat>, k: K, v: Option<V>): Update<K, V>
    requires IsLeaf(n) && Shaped(h, n, path) && Spells(path, h(k))
  {
    match n
    case ValueNode(kh, e) =>
      if (if k == e.0 then v == Some(e.1) else v.None?) then Update(Some(n), false, false)
      else if v.None? then Update(None, true, true)
      else if k == e.0 then Update(Some(ValueNode(kh, (k, v.value))), true, false)
      else Update(Some(MergeIntoNode(h, n, path, (k, v.value))), true, true)
    case CollisionNode(kh, es) =>
      if h(k) != kh then
        if v.None? then Update(Some(n), false, false)
        else Update(Some(MergeIntoNode(h, n, path, (k, v.value))), true, true)
      else
        var c := IndexOf(es, k);
        var found := c < |es|;
        if (if found then v == Some(es[c].1) else v.None?) then Update(Some(n), false, false)
        else if v.None? && |es| == 2 then Update(Some(ValueNode(kh, es[1 - c])), true, true)
        else Update(Some(CollisionNode(kh, EditEntries(es, c, k, v))), true, v.None? || !found)
  }

  function UpdateNode<K(==), V(==)>(h: K -> Hash, n: Node<K, V>, path: seq<nat>, k: K, v: Option<V>): Update<K, V>
    requires Shaped(h, n, path) && Spells(path, h(k))
    decreases n
  {
    match n
    case ValueNode(_, _) => UpdateLeaf(h, n, path, k, v)
    case CollisionNode(_, _) => UpdateLeaf(h, n, path, k, v)
    case BitmapNode(b, nodes) =>
      var i := Digit(h(k), |path|);
      BitmapChild(h, n, path, i);
      SpellsNext(path, h(k));
      var r := Rank(b, i);
      var found := And(b, Bit(i)) != 0;
      if !found && v.None? then Update(Some(n), false, false)
      else
        var u := if found then UpdateNode(h, nodes[r], path + [i], k, v) else NewLeaf(h, k, v);
        var child := if found then Some(nodes[r]) else None;
        Update(Some(RebuildBitmap(n, i, r, child, u.node)), u.altered, u.resized)
    case FullNode(count, slots) =>
      var i := Digit(h(k), |path|);
      SpellsNext(path, h(k));
      if slots[i].None? && v.None? then Update(Some(n), false, false)
      else
        var u := if slots[i].Some? then UpdateNode(h, slots[i].value, path + [i], k, v) else NewLeaf(h, k, v);
        Update(Some(RebuildFull(n, i, u.node)), u.altered, u.resized)
  }

  /** The bitmap node once its slot `i` (array index `r`) goes from `child` to `child'`. */
  function RebuildBitmap<K(==), V(==)>(n: Node<K, V>, i: nat, r: nat, child: Option<Node<K, V>>,
                                       child': Option<Node<K, V>>)
    : Node<K, V>
    requires n.BitmapNode? && i < 32 && |n.nodes| == Below(n.bitmap, 32) && r <= |n.nodes|
    requires child.Some? ==> r < |n.nodes|
    requires child.None? ==> child'.Some?
    requires child.Some? && child'.None? && |n.nodes| == 2 ==> r < 2
  {
    var b, nodes := n.bitmap, n.nodes;
    if child' == child then n
    else if child.None? && |nodes| >= BITMAP_MAX then
      FullNode(|nodes| + 1, Spread(b, nodes, 32)[i := child'])
    else if child.Some? && child'.None? && |nodes| == 2 && IsLeaf(nodes[1 - r]) then nodes[1 - r]
    else if child.Some? && child'.Some? && |nodes| == 1 && IsLeaf(child'.value) then child'.value
    else if child.None? then BitmapNode(OrBitWord(b, i), nodes[..r] + [child'.value] + nodes[r..])
    else if child'.None? then BitmapNode(XorBitWord(b, i), nodes[..r] + nodes[r + 1..])
    else BitmapNode(b, nodes[r := child'.value])
  }

  function RebuildFull<K(==), V(==)>(n: Node<K, V>, i: nat, child': Option<Node<K, V>>): Node<K, V>
    requires n.FullNode? && i < |n.slots| == 32
    requires n.slots[i].Some? ==> n.count > 0
  {
    var slots' := n.slots[i := child'];
    if child' == n.slots[i] then n
    else if n.slots[i].None? then FullNode(n.count + 1, slots')
    else if child'.Some? then FullNode(n.count, slots')
    else if n.count - 1 < FULL_MIN then PackNodes(slots')
    else FullNode(n.count - 1, slots')
  }
}
