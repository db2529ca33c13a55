/**
  * The ordered Map polyfill as a value: every entry ever made, in the order of making, with the
  * links and marks it carries, and the index that finds a live entry by its key.
  */
module LinkedTable {

  /** A key has an index string or number, unless it is an object that could not be tagged. */
  datatype Key<I> = Indexed(id: I) | Frozen(ref: nat)

  /** Positions stand for references, -1 for none. */
  datatype Cell<I, V> = Cell(key: Key<I>, value: V, removed: bool, prev: int, next: int)

  datatype Table<I, V> = Table(cells: seq<Cell<I, V>>, first: int, last: int, size: nat, index: map<I, nat>)

  // ----- The invariant -----

  predicate Live<I, V>(cells: seq<Cell<I, V>>, i: int) {
    0 <= i < |cells| && !cells[i].removed
  }

  ghost predicate NoneLive<I, V>(cells: seq<Cell<I, V>>, from: int, end: int) {
    forall k :: from <= k < end ==> !Live(cells, k)
  }

  /** A removed entry still points back to where the live ones before it end. */
  ghost predicate PrevOk<I, V>(cells: seq<Cell<I, V>>, i: int)
    requires 0 <= i < |cells|
  {
    && -1 <= cells[i].prev < i && NoneLive(cells, cells[i].prev + 1, i)
    && (!cells[i].removed && cells[i].prev >= 0 ==> Live(cells, cells[i].prev))
  }

  ghost predicate NextOk<I, V>(cells: seq<Cell<I, V>>, i: int)
    requires 0 <= i < |cells|
  {
    if cells[i].next == -1 then NoneLive(cells, i + 1, |cells|)
    else i < cells[i].next && Live(cells, cells[i].next) && NoneLive(cells, i + 1, cells[i].next)
  }

  ghost predicate Linked<I, V>(cells: seq<Cell<I, V>>, first: int, last: int) {
    && (forall i :: 0 <= i < |cells| ==> PrevOk(cells, i))
    && (forall i :: Live(cells, i) ==> NextOk(cells, i))
    && (if first == -1 then NoneLive(cells, 0, |cells|) else Live(cells, first) && NoneLive(cells, 0, first))
    && (if last == -1 then NoneLive(cells, 0, |cells|) else Live(cells, last) && NoneLive(cells, last + 1, |cells|))
  }

  ghost predicate IndexOk<I, V>(cells: seq<Cell<I, V>>, index: map<I, nat>) {
    && (forall id :: id in index ==> Live(cells, index[id]) && cells[index[id]].key == Indexed(id))
    && (forall i :: Live(cells, i) && cells[i].key.Indexed? ==> cells[i].key.id in index && index[cells[i].key.id] == i)
  }

  /** The live entries, in insertion order. */
  function Contents<I, V>(cells: seq<Cell<I, V>>): seq<(Key<I>, V)> {
    if cells == [] then []
    else
      var c := cells[|cells| - 1];
      Contents(cells[..|cells| - 1]) + if c.removed then [] else [(c.key, c.value)]
  }

  /** Index, list and size agree. */
  ghost predicate Ok<I, V>(t: Table<I, V>) {
    Linked(t.cells, t.first, t.last) && IndexOk(t.cells, t.index) && t.size == |Contents(t.cells)|
  }

  // ----- Stepping over the list -----

  /** Back from a removed entry to the live one it follows, or to the start. */
  function Back<I, V>(cells: seq<Cell<I, V>>, i: int): (j: int)
    requires -1 <= i < |cells| && forall k :: 0 <= k < |cells| ==> PrevOk(cells, k)
    ensures -1 <= j <= i && (j >= 0 ==> Live(cells, j)) && NoneLive(cells, j + 1, i + 1)
    decreases i + 1
  {
    if i >= 0 && cells[i].removed then assert PrevOk(cells, i); Back(cells, cells[i].prev) else i
  }

  /** Where an iteration that stands at `i` goes on, -1 when it is done. */
  function Next<I, V>(t: Table<I, V>, i: int): (j: int)
    requires Linked(t.cells, t.first, t.last) && -1 <= i < |t.cells|
    ensures j == -1 ==> NoneLive(t.cells, i + 1, |t.cells|)
    ensures j != -1 ==> i < j && Live(t.cells, j) && NoneLive(t.cells, i + 1, j)
  {
    var b := Back(t.cells, i);
    if b >= 0 then t.cells[b].next else t.first
  }

  // ----- The operations -----

  /** `==` between a stored key and a frozen one: the same object, or a primitive it is coerced to. */
  predicate Matches<I(==)>(coerces: (I, nat) -> bool, stored: Key<I>, ref: nat) {
    match stored
    case Frozen(r) => r == ref
    case Indexed(id) => coerces(id, ref)
  }

  /** The first live entry from `i` on that matches a frozen key. */
  function FindFrozen<I(==), V>(coerces: (I, nat) -> bool, cells: seq<Cell<I, V>>, i: nat, ref: nat): (r: int)
    requires i <= |cells|
    ensures r == -1 || (i <= r && Live(cells, r))
    decreases |cells| - i
  {
    if i == |cells| then -1
    else if !cells[i].removed && Matches(coerces, cells[i].key, ref) then i
    else FindFrozen(coerces, cells, i + 1, ref)
  }

  function GetEntry<I(==), V>(coerces: (I, nat) -> bool, t: Table<I, V>, k: Key<I>): (r: int)
    requires Ok(t)
    ensures r == -1 || Live(t.cells, r)
  {
    match k
    case Indexed(id) => if id in t.index then t.index[id] else -1
    case Frozen(ref) => FindFrozen(coerces, t.cells, 0, ref)
  }

  /** A new entry behind the last one. */
  function Append<I(==), V>(t: Table<I, V>, k: Key<I>, v: V): Table<I, V>
    requires Ok(t)
  {
    var n := |t.cells|;
    Table(AppendCell(t.cells, t.last, k, v), if t.first == -1 then n else t.first, n, t.size + 1,
          if k.Indexed? then t.index[k.id := n] else t.index)
  }

  function AppendCell<I, V>(cells: seq<Cell<I, V>>, last: int, k: Key<I>, v: V): seq<Cell<I, V>>
    requires -1 <= last < |cells|
  {
    (if last >= 0 then cells[last := cells[last].(next := |cells|)] else cells) + [Cell(k, v, false, last, -1)]
  }

  function Def<I(==), V>(coerces: (I, nat) -> bool, t: Table<I, V>, k: Key<I>, v: V): Table<I, V>
    requires Ok(t)
  {
    var i := GetEntry(coerces, t, k);
    if i >= 0 then t.(cells := t.cells[i := t.cells[i].(value := v)]) else Append(t, k, v)
  }

  /** Mark the entry and take it out of the chain; its own links stay. */
  function Unlinked<I, V>(cells: seq<Cell<I, V>>, i: nat): (r: seq<Cell<I, V>>)
    requires i < |cells| && -1 <= cells[i].prev < |cells| && -1 <= cells[i].next < |cells|
    ensures |r| == |cells|
  {
    var p, n := cells[i].prev, cells[i].next;
    var c1 := cells[i := cells[i].(removed := true)];
    var c2 := if p >= 0 then c1[p := c1[p].(next := n)] else c1;
    if n >= 0 then c2[n := c2[n].(prev := p)] else c2
  }

  function Remove<I(==), V>(t: Table<I, V>, i: nat): Table<I, V>
    requires Ok(t) && Live(t.cells, i)
  {
    var c := t.cells[i];
    assert PrevOk(t.cells, i) && NextOk(t.cells, i);
    LiveCounts(t.cells, i);
    Table(Unlinked(t.cells, i), if t.first == i then c.next else t.first, if t.last == i then c.prev else t.last,
          t.size - 1, if c.key.Indexed? then t.index - {c.key.id} else t.index)
  }

  function Delete<I(==), V>(coerces: (I, nat) -> bool, t: Table<I, V>, k: Key<I>): Table<I, V>
    requires Ok(t)
  {
    var i := GetEntry(coerces, t, k);
    if i >= 0 then Remove(t, i) else t
  }

  /** Every live entry marked and cut loose. */
  function Cleared<I, V>(cells: seq<Cell<I, V>>): (r: seq<Cell<I, V>>)
    ensures |r| == |cells|
  {
    seq(|cells|, i requires 0 <= i < |cells| =>
      if cells[i].removed then cells[i] else cells[i].(removed := true, prev := -1, next := -1))
  }

  function Clear<I, V>(t: Table<I, V>): Table<I, V> {
    Table(Cleared(t.cells), -1, -1, 0, map[])
  }

  lemma {:induction false} LiveCounts<I, V>(cells: seq<Cell<I, V>>, i: nat)
    requires Live(cells, i)
    ensures |Contents(cells)| > 0
  {
    var n := |cells| - 1;
    if i < n { LiveCounts(cells[..n], i); }
  }
}
