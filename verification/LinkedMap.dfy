/** The ordered map as the linked heap structure it is: entries with links, an index, a size. */
module LinkedMap {
  import opened Wrappers
  import opened LinkedTable
  import opened LinkedTableProof
  import opened LinkedTableRuns

  class Entry<I(==), V> {
    const key: Key<I>
    var value: V
    var removed: bool
    var prev: Entry?<I, V>
    var next: Entry?<I, V>

    constructor (key: Key<I>, value: V, prev: Entry?<I, V>)
      ensures this.key == key && this.value == value && !removed && this.prev == prev && next == null
    {
      this.key, this.value, this.removed, this.prev, this.next := key, value, false, prev, null;
    }
  }

  // ----- Entries against cells -----

  ghost predicate Refers<I, V>(all: seq<Entry<I, V>>, e: Entry?<I, V>, p: int) {
    if p == -1 then e == null else 0 <= p < |all| && e == all[p]
  }

  ghost predicate Mirrors<I, V>(all: seq<Entry<I, V>>, e: Entry<I, V>, c: Cell<I, V>)
    reads e
  {
    && e.key == c.key && e.value == c.value && e.removed == c.removed
    && Refers(all, e.prev, c.prev) && Refers(all, e.next, c.next)
  }

  ghost predicate Mirrored<I, V>(all: seq<Entry<I, V>>, cells: seq<Cell<I, V>>)
    reads all
  {
    |all| == |cells| && forall i :: 0 <= i < |all| ==> Mirrors(all, all[i], cells[i])
  }

  ghost predicate IndexMirrored<I, V>(all: seq<Entry<I, V>>, index: map<I, Entry<I, V>>, positions: map<I, nat>) {
    index.Keys == positions.Keys && forall id :: id in index ==> Refers(all, index[id], positions[id])
  }

  // ----- One field of one entry at a time -----

  method SetNext<I, V>(ghost all: seq<Entry<I, V>>, ghost cells: seq<Cell<I, V>>, e: Entry<I, V>, ghost i: nat,
                       next: Entry?<I, V>, ghost n: int)
    requires Distinct(all) && Mirrored(all, cells) && i < |all| && e == all[i] && Refers(all, next, n)
    modifies e`next
    ensures Mirrored(all, cells[i := cells[i].(next := n)])
  {
    e.next := next;
    forall j | 0 <= j < |all| ensures Mirrors(all, all[j], cells[i := cells[i].(next := n)][j]) {
      assert old(Mirrors(all, all[j], cells[j]));
    }
  }

  method SetPrev<I, V>(ghost all: seq<Entry<I, V>>, ghost cells: seq<Cell<I, V>>, e: Entry<I, V>, ghost i: nat,
                       prev: Entry?<I, V>, ghost p: int)
    requires Distinct(all) && Mirrored(all, cells) && i < |all| && e == all[i] && Refers(all, prev, p)
    modifies e`prev
    ensures Mirrored(all, cells[i := cells[i].(prev := p)])
  {
    e.prev := prev;
    forall j | 0 <= j < |all| ensures Mirrors(all, all[j], cells[i := cells[i].(prev := p)][j]) {
      assert old(Mirrors(all, all[j], cells[j]));
    }
  }

  method SetRemoved<I, V>(ghost all: seq<Entry<I, V>>, ghost cells: seq<Cell<I, V>>, e: Entry<I, V>, ghost i: nat)
    requires Distinct(all) && Mirrored(all, cells) && i < |all| && e == all[i]
    modifies e`removed
    ensures Mirrored(all, cells[i := cells[i].(removed := true)])
  {
    e.removed := true;
    forall j | 0 <= j < |all| ensures Mirrors(all, all[j], cells[i := cells[i].(removed := true)][j]) {
      assert old(Mirrors(all, all[j], cells[j]));
    }
  }

  method SetValue<I, V>(ghost all: seq<Entry<I, V>>, ghost cells: seq<Cell<I, V>>, e: Entry<I, V>, ghost i: nat,
                        value: V)
    requires Distinct(all) && Mirrored(all, cells) && i < |all| && e == all[i]
    modifies e`value
    ensures Mirrored(all, cells[i := cells[i].(value := value)])
  {
    e.value := value;
    forall j | 0 <= j < |all| ensures Mirrors(all, all[j], cells[i := cells[i].(value := value)][j]) {
      assert old(Mirrors(all, all[j], cells[j]));
    }
  }

  /** Take an entry out of the chain; its own links stay. */
  method Unlink<I, V>(ghost all: seq<Entry<I, V>>, ghost cells: seq<Cell<I, V>>, r: Entry<I, V>, ghost i: nat)
    requires Distinct(all) && Mirrored(all, cells) && i < |all| && r == all[i]
    requires |all| == |cells| && -1 <= cells[i].prev < |cells| && -1 <= cells[i].next < |cells|
    requires Refers(all, r.prev, cells[i].prev) && Refers(all, r.next, cells[i].next)
    modifies all
    ensures Mirrored(all, Unlinked(cells, i))
  {
    hide Mirrored, Distinct;
    ghost var p, n := cells[i].prev, cells[i].next;
    var next, prev := r.next, r.prev;
    SetRemoved(all, cells, r, i);
    ghost var cells1 := cells[i := cells[i].(removed := true)];
    if prev != null { SetNext(all, cells1, prev, p, next, n); }
    ghost var cells2 := if p >= 0 then cells1[p := cells1[p].(next := n)] else cells1;
    if next != null { SetPrev(all, cells2, next, n, prev, p); }
  }

  // ----- The rest of the object against the table -----

  ghost predicate Stands<I, V>(all: seq<Entry<I, V>>, index: map<I, Entry<I, V>>, first: Entry?<I, V>,
                               last: Entry?<I, V>,
                               size: nat, t: Table<I, V>)
  {
    && Distinct(all) && |all| == |t.cells| && Ok(t)
    && Refers(all, first, t.first) && Refers(all, last, t.last)
    && size == t.size && IndexMirrored(all, index, t.index)
  }

  lemma AppendStands<I, V>(all: seq<Entry<I, V>>, index: map<I, Entry<I, V>>, first: Entry?<I, V>, last: Entry?<I, V>,
                           size: nat, t: Table<I, V>, a: Entry<I, V>, k: Key<I>, v: V)
    requires Stands(all, index, first, last, size, t) && a !in all && (k.Indexed? ==> k.id !in t.index)
    ensures Stands(all + [a], if k.Indexed? then index[k.id := a] else index, if first == null then a else first, a,
                   size + 1, Append(t, k, v))
  {
    AppendOk(t, k, v);
    hide Ok, AppendCell, Distinct, IndexMirrored;
    DistinctAppend(all, a);
    IndexAppend(all, a, index, t.index, k);
  }

  lemma DistinctAppend<T>(s: seq<T>, x: T)
    requires Distinct(s) && x !in s
    ensures Distinct(s + [x])
  {}

  lemma IndexAppend<I, V>(all: seq<Entry<I, V>>, a: Entry<I, V>, index: map<I, Entry<I, V>>, positions: map<I, nat>,
                          k: Key<I>)
    requires IndexMirrored(all, index, positions)
    ensures k.Indexed? ==> IndexMirrored(all + [a], index[k.id := a], positions[k.id := |all|])
    ensures k.Frozen? ==> IndexMirrored(all + [a], index, positions)
  {}

  lemma RemoveStands<I, V>(all: seq<Entry<I, V>>, index: map<I, Entry<I, V>>, first: Entry?<I, V>, last: Entry?<I, V>,
                           size: nat, t: Table<I, V>, r: Entry<I, V>, i: nat, next: Entry?<I, V>, prev: Entry?<I, V>)
    requires Stands(all, index, first, last, size, t) && Live(t.cells, i) && r == all[i] && size > 0
    requires Refers(all, next, t.cells[i].next) && Refers(all, prev, t.cells[i].prev)
    ensures Stands(all, if t.cells[i].key.Indexed? then index - {t.cells[i].key.id} else index,
                   if first == r then next else first, if last == r then prev else last, size - 1, Remove(t, i))
  {
    RemoveOk(t, i);
    hide Ok, Unlinked, Distinct, IndexMirrored;
    SameEntry(all, first, t.first, r, i);
    SameEntry(all, last, t.last, r, i);
    IndexRemove(all, index, t.index, t.cells[i].key);
  }

  lemma SameEntry<I, V>(all: seq<Entry<I, V>>, e: Entry?<I, V>, p: int, r: Entry<I, V>, i: nat)
    requires Distinct(all) && Refers(all, e, p) && i < |all| && r == all[i]
    ensures e == r <==> p == i
  {}

  lemma ValueStands<I, V>(all: seq<Entry<I, V>>, index: map<I, Entry<I, V>>, first: Entry?<I, V>, last: Entry?<I, V>,
                          size: nat, t: Table<I, V>, i: nat, v: V)
    requires Stands(all, index, first, last, size, t) && Live(t.cells, i)
    ensures Stands(all, index, first, last, size, t.(cells := t.cells[i := t.cells[i].(value := v)]))
  {
    SetValueStep(t, i, v);
    hide Ok, Distinct, IndexMirrored;
  }

  class OrderedMap<I(==), V> {
    const coerces: (I, nat) -> bool
    var index: map<I, Entry<I, V>>
    var first: Entry?<I, V>
    var last: Entry?<I, V>
    var size: nat
    /** Every entry ever made, and the value that entries, index and size stand for. */
    ghost var all: seq<Entry<I, V>>
    ghost var table: Table<I, V>

    ghost predicate Valid()
      reads this, all
    {
      Mirrored(all, table.cells) && Stands(all, index, first, last, size, table)
    }

    constructor (coerces: (I, nat) -> bool)
      ensures Valid() && all == [] && this.coerces == coerces
    {
      this.coerces := coerces;
      index, first, last, size := map[], null, null, 0;
      all := [];
      table := Table([], -1, -1, 0, map[]);
    }

    /** The live entry for a key. */
    method GetEntry(k: Key<I>) returns (e: Entry?<I, V>)
      requires Valid()
      ensures Refers(all, e, LinkedTable.GetEntry(coerces, table, k))
    {
      match k
      case Indexed(id) =>
        hide Mirrored, Ok, Distinct;
        e := if id in index then index[id] else null;
      case Frozen(ref) =>
        e := FindAlong(ref);
    }

    // Along the chain, for a key that has no index.
    method FindAlong(ref: nat) returns (e: Entry?<I, V>)
      requires Valid()
      ensures Ok(table) && Refers(all, e, FindFrozen(coerces, table.cells, 0, ref))
    {
      hide Mirrored, Stands, Ok, FindFrozen, Live;
      e := first;
      ghost var p := table.first;
      FirstEntry(ref);
      while e != null
        invariant Refers(all, e, p) && (p == -1 || Live(table.cells, p)) && (p == -1 || p < |all|)
        invariant FindFrozen(coerces, table.cells, 0, ref) == FoundFrom(p, ref)
        decreases if p == -1 then 0 else |all| - p
      {
        FindStep(e, p, ref);
        if Matches(coerces, e.key, ref) { return; }
        p := table.cells[p].next;
        e := e.next;
      }
      FoundNone(ref);
    }

    /** What is found from a place in the chain on. */
    ghost function FoundFrom(p: int, ref: nat): int
      reads this
      requires -1 <= p < |table.cells|
    {
      FindFrozen(coerces, table.cells, if p == -1 then |table.cells| else p, ref)
    }

    lemma FirstEntry(ref: nat)
      requires Valid()
      ensures Ok(table) && Refers(all, first, table.first) && -1 <= table.first < |table.cells| == |all|
      ensures table.first == -1 || Live(table.cells, table.first)
      ensures FindFrozen(coerces, table.cells, 0, ref) == FoundFrom(table.first, ref)
    {
      hide Mirrored, Distinct, IndexMirrored, Contents;
      FindSkips(coerces, table.cells, 0, if table.first == -1 then |table.cells| else table.first, ref);
    }

    lemma FindStep(e: Entry<I, V>, p: int, ref: nat)
      requires Valid() && Refers(all, e, p) && Live(table.cells, p)
      ensures p < |table.cells| == |all| && e.key == table.cells[p].key
      ensures Matches(coerces, e.key, ref) ==> FoundFrom(p, ref) == p
      ensures var n := table.cells[p].next;
              && -1 <= n < |table.cells| && Refers(all, e.next, n) && (n == -1 || (Live(table.cells, n) && p < n))
              && (!Matches(coerces, e.key, ref) ==> FoundFrom(p, ref) == FoundFrom(n, ref))
    {
      assert Mirrors(all, all[p], table.cells[p]) && NextOk(table.cells, p);
      hide Mirrored, Distinct, IndexMirrored, Contents, PrevOk;
      var n := table.cells[p].next;
      FindSkips(coerces, table.cells, p + 1, if n == -1 then |table.cells| else n, ref);
    }

    lemma FoundNone(ref: nat)
      ensures FoundFrom(-1, ref) == -1
    {}

    // A new entry, linked behind the last one.
    method NewEntry(k: Key<I>, v: V) returns (a: Entry<I, V>)
      requires Valid()
      modifies last
      ensures fresh(a) && a !in all && Ok(table) && Mirrored(all + [a], AppendCell(table.cells, table.last, k, v))
    {
      ghost var n, p := |all|, table.last;
      ghost var cells := AppendCell(table.cells, p, k, v);
      a := new Entry(k, v, last);
      if last != null { last.next := a; }
      forall i | 0 <= i < n + 1 ensures Mirrors(all + [a], (all + [a])[i], cells[i]) {
        if i < n {
          assert (all + [a])[i] == all[i];
          assert old(Mirrors(all, all[i], table.cells[i]));
        }
      }
    }

    method AppendEntry(k: Key<I>, v: V)
      requires Valid() && (k.Indexed? ==> k.id !in table.index)
      modifies this, last
      ensures Valid() && table == Append(old(table), k, v)
      ensures old(all) <= all && |all| == |old(all)| + 1 && fresh(all[|old(all)|])
    {
      hide Stands, Mirrored, Ok, AppendCell;
      var a := NewEntry(k, v);
      AppendStands(all, index, first, last, size, table, a, k, v);
      all := all + [a];
      table := Append(table, k, v);
      last := a;
      if first == null { first := a; }
      size := size + 1;
      if k.Indexed? { index := index[k.id := a]; }
    }

    /** Set the value under a key, in a new entry at the end if there is none. */
    method Def(k: Key<I>, v: V)
      requires Valid()
      modifies this, all
      ensures Valid() && table == LinkedTable.Def(coerces, old(table), k, v)
      ensures old(all) <= all && (forall i :: |old(all)| <= i < |all| ==> fresh(all[i]))
    {
      hide Mirrored, Distinct, IndexMirrored, Linked, IndexOk, LinkedTable.GetEntry;
      var e := GetEntry(k);
      ghost var p := LinkedTable.GetEntry(coerces, table, k);
      EntryPlace(coerces, table, k);
      if e != null {
        Overwrite(e, p, v);
      } else {
        AppendEntry(k, v);
      }
    }

    method Overwrite(e: Entry<I, V>, ghost p: nat, v: V)
      requires Valid() && Live(table.cells, p) && e == all[p]
      modifies this`table, e
      ensures Valid() && table == old(table).(cells := old(table).cells[p := old(table).cells[p].(value := v)])
    {
      ValueStands(all, index, first, last, size, table, p, v);
      SetValue(all, table.cells, e, p, v);
      table := table.(cells := table.cells[p := table.cells[p].(value := v)]);
    }

    /** Take out the entry under a key, if there is one. */
    method Delete(k: Key<I>) returns (found: bool)
      requires Valid()
      modifies this, all
      ensures Valid() && table == LinkedTable.Delete(coerces, old(table), k) && all == old(all)
      ensures found <==> LinkedTable.GetEntry(coerces, old(table), k) != -1
    {
      var r := GetEntry(k);
      found := r != null;
      if r != null { RemoveEntry(r, LinkedTable.GetEntry(coerces, table, k)); }
    }

    // What a live entry links to.
    lemma LiveEntry(r: Entry<I, V>, p: nat)
      requires Valid() && Live(table.cells, p) && r == all[p]
      ensures Ok(table) && Distinct(all) && p < |all| == |table.cells| && size > 0 && r.key == table.cells[p].key
      ensures -1 <= table.cells[p].prev < |table.cells| && Refers(all, r.prev, table.cells[p].prev)
      ensures -1 <= table.cells[p].next < |table.cells| && Refers(all, r.next, table.cells[p].next)
      ensures Remove(table, p).cells == Unlinked(table.cells, p)
    {
      hide Distinct, IndexMirrored, Unlinked;
      LiveCounts(table.cells, p);
      assert Mirrors(all, all[p], table.cells[p]);
      assert PrevOk(table.cells, p) && NextOk(table.cells, p);
    }

    method RemoveEntry(r: Entry<I, V>, ghost p: nat)
      requires Valid() && Live(table.cells, p) && r == all[p]
      modifies this, all
      ensures Valid() && table == Remove(old(table), p) && all == old(all)
    {
      hide Stands, Mirrored, Ok, Unlinked, Distinct, Remove, Live, Refers;
      LiveEntry(r, p);
      RemoveStands(all, index, first, last, size, table, r, p, r.next, r.prev);
      var next, prev := r.next, r.prev;
      if r.key.Indexed? { index := index - {r.key.id}; }
      Unlink(all, table.cells, r, p);
      if first == r { first := next; }
      if last == r { last := prev; }
      size := size - 1;
      table := Remove(table, p);
    }

    ghost predicate Clearing(r: Entry?<I, V>, cells: seq<Cell<I, V>>, p: int)
      reads this, all
    {
      Mirrored(all, cells) && ClearStands(all, index, table, r, cells, p)
    }

    /** Take out every entry, cutting each from the one before it. */
    method Clear()
      requires Valid()
      modifies this, all
      ensures Valid() && table == LinkedTable.Clear(old(table)) && all == old(all)
    {
      hide Clearing, Mirrored, Stands, ClearStands;
      ClearBegin();
      var r := first;
      ghost var p, cells := table.first, table.cells;
      while r != null
        invariant Clearing(r, cells, p)
        invariant table == old(table) && all == old(all) && (if r == null then p == -1 else p < |all|)
        decreases if r == null then -1 else |all| - p
      {
        r, cells, p := ClearEntry(r, cells, p);
      }
      ClearEnd(cells);
      first, last, size := null, null, 0;
      table := LinkedTable.Clear(table);
    }

    lemma ClearBegin()
      requires Valid()
      ensures Clearing(first, table.cells, table.first)
      ensures if first == null then table.first == -1 else table.first < |all|
    {
      ClearStart(table);
      hide Mirrored, Distinct, Ok;
    }

    lemma ClearEnd(cells: seq<Cell<I, V>>)
      requires Clearing(null, cells, -1)
      ensures Mirrored(all, LinkedTable.Clear(table).cells)
      ensures Stands(all, index, null, null, 0, LinkedTable.Clear(table))
    {
      ClearOk(table);
      IndexNone(all, index, table.index);
      hide Mirrored, Distinct, Ok;
      assert cells == Cleared(table.cells);
    }

    method ClearEntry(r: Entry<I, V>, ghost cells: seq<Cell<I, V>>, ghost p: int)
      returns (next: Entry?<I, V>, ghost cells': seq<Cell<I, V>>, ghost p': int)
      requires Clearing(r, cells, p)
      modifies this`index, all
      ensures Clearing(next, cells', p') && (if next == null then p' == -1 else p < p' < |all|)
    {
      hide Mirrored, ClearStands, ClearCell;
      ClearLinks(r, cells, p);
      ClearStandsStep(all, index, table, r, cells, p, r.next);
      cells', p' := ClearCell(cells, p), cells[p].next;
      next := r.next;
      if r.key.Indexed? { index := index - {r.key.id}; }
      CutLoose(all, cells, r, p);
    }

    lemma ClearLinks(r: Entry<I, V>, cells: seq<Cell<I, V>>, p: int)
      requires Clearing(r, cells, p)
      ensures 0 <= p < |all| == |cells| && r == all[p] && r.key == cells[p].key && Distinct(all)
      ensures -1 <= cells[p].prev < |cells| && Refers(all, r.next, cells[p].next)
    {
      assert Mirrors(all, all[p], cells[p]);
      ClearStep(table, cells, p);
      hide Mirrored, Distinct, Ok, IndexMirrored, IndexFrom, ClearCell;
    }

    // ----- Runs and iteration -----

    method Apply(ops: seq<Op<I, V>>)
      requires Valid()
      modifies this, all
      ensures Valid() && table == Run(coerces, old(table), ops)
      ensures old(all) <= all && (forall i :: |old(all)| <= i < |all| ==> fresh(all[i]))
      decreases |ops|
    {
      hide Mirrored, Distinct, IndexMirrored, Linked, IndexOk, Contents, Step, Later;
      if ops != [] {
        Perform(ops[0]);
        Apply(ops[1..]);
      }
    }

    method Perform(op: Op<I, V>)
      requires Valid()
      modifies this, all
      ensures Valid() && table == Step(coerces, old(table), op)
      ensures old(all) <= all && (forall i :: |old(all)| <= i < |all| ==> fresh(all[i]))
    {
      match op
      case Def(k, v) => Def(k, v);
      case Delete(k) => var _ := Delete(k);
      case Clear => Clear();
    }

    /** Back over removed entries to a live one, or to the start. */
    method SkipBack(e: Entry?<I, V>, ghost at: int) returns (live: Entry?<I, V>)
      requires Valid() && -1 <= at < |all| && Refers(all, e, at)
      ensures Refers(all, live, Back(table.cells, at))
    {
      live := e;
      ghost var p := at;
      while live != null && live.removed
        invariant -1 <= p < |all| && Refers(all, live, p) && Back(table.cells, p) == Back(table.cells, at)
        decreases p
      {
        assert Mirrors(all, all[p], table.cells[p]) && PrevOk(table.cells, p);
        live := live.prev;
        p := table.cells[p].prev;
      }
      if live != null { assert Mirrors(all, all[p], table.cells[p]); }
    }

    /** From a live entry, or the start, to the entry after it. */
    method StepOn(live: Entry?<I, V>, ghost at: int) returns (next: Entry?<I, V>)
      requires Valid() && -1 <= at < |table.cells| && Refers(all, live, Back(table.cells, at))
      ensures Refers(all, next, Next(table, at))
    {
      ghost var b := Back(table.cells, at);
      if live != null { assert Mirrors(all, all[b], table.cells[b]); }
      next := if live != null then live.next else first;
    }

    /** An iterator's `next`: on from its last entry, which may have been removed since. */
    method IteratorNext(e: Entry?<I, V>, ghost at: int) returns (next: Entry?<I, V>)
      requires Valid() && -1 <= at < |all| && Refers(all, e, at)
      ensures Refers(all, next, Next(table, at))
    {
      var live := SkipBack(e, at);
      next := StepOn(live, at);
    }

    /** One visit of `forEach`: the callback, then back to a live entry. */
    method Visit(e: Entry<I, V>, ghost j: nat, script: seq<seq<Op<I, V>>>) returns (live: Entry?<I, V>)
      requires Valid() && j < |table.cells| && Refers(all, e, j)
      modifies this, all
      ensures Valid() && table == (if script == [] then old(table) else Run(coerces, old(table), script[0]))
      ensures old(all) <= all && (forall i :: |old(all)| <= i < |all| ==> fresh(all[i]))
      ensures j < |table.cells| && Refers(all, live, Back(table.cells, j))
    {
      hide Mirrored;
      if script != [] { Apply(script[0]); }
      live := SkipBack(e, j);
    }

    /** Visit the entries, the n-th callback performing the n-th list of operations. */
    method ForEach(script: seq<seq<Op<I, V>>>) returns (visited: seq<Entry<I, V>>)
      requires Valid()
      modifies this, all
      ensures Valid() && table == Iterate(coerces, old(table), -1, script).1
      ensures old(all) <= all && (forall i :: |old(all)| <= i < |all| ==> fresh(all[i]))
      ensures Trace(all, visited, Iterate(coerces, old(table), -1, script).0)
    {
      hide Mirrored, Trace, Iterate, Run, Distinct, IndexMirrored, IndexOk, Contents, Later;
      visited := [];
      var live: Entry?<I, V>, rest := null, script;
      ghost var at: int, seen: seq<nat>, whole := -1, [], Iterate(coerces, table, -1, script);
      TraceEmpty(all);
      while true
        invariant Valid() && -1 <= at < |table.cells| && Refers(all, live, Back(table.cells, at))
        invariant old(all) <= all && (forall i :: |old(all)| <= i < |all| ==> fresh(all[i]))
        invariant Trace(all, visited, seen)
        invariant whole.0 == seen + Iterate(coerces, table, at, rest).0
        invariant whole.1 == Iterate(coerces, table, at, rest).1
        decreases |rest|, |table.cells| - at
      {
        IterateStep(coerces, table, at, rest);
        ghost var j := Next(table, at);
        var e := StepOn(live, at);
        if e == null {
          assert seen + [] == seen;
          break;
        }
        TraceAdd(all, visited, seen, e, j);
        visited, seen, at := visited + [e], seen + [j], j;
        ghost var before := all;
        live := Visit(e, j, rest);
        TraceKept(before, all, visited, seen);
        rest := if rest == [] then [] else rest[1..];
        Regroup(seen[..|seen| - 1], [j], Iterate(coerces, table, at, rest).0);
      }
    }
  }

  lemma {:induction false} IterateStep<I, V>(coerces: (I, nat) -> bool, t: Table<I, V>, at: int,
                                             script: seq<seq<Op<I, V>>>)
    requires Ok(t) && -1 <= at < |t.cells|
    ensures Next(t, at) == -1 ==> Iterate(coerces, t, at, script) == ([], t)
    ensures Next(t, at) != -1 ==>
              var j, t' := Next(t, at), if script == [] then t else Run(coerces, t, script[0]);
              var rest := Iterate(coerces, t', j, if script == [] then [] else script[1..]);
              Iterate(coerces, t, at, script) == ([j] + rest.0, rest.1)
  {}

  ghost predicate Trace<I, V>(all: seq<Entry<I, V>>, visited: seq<Entry<I, V>>, seen: seq<nat>) {
    |visited| == |seen| && forall i :: 0 <= i < |visited| ==> Refers(all, visited[i], seen[i])
  }

  lemma TraceEmpty<I, V>(all: seq<Entry<I, V>>)
    ensures Trace(all, [], [])
  {}

  lemma TraceAdd<I, V>(all: seq<Entry<I, V>>, visited: seq<Entry<I, V>>, seen: seq<nat>, e: Entry<I, V>, j: nat)
    requires Trace(all, visited, seen) && Refers(all, e, j)
    ensures Trace(all, visited + [e], seen + [j])
  {}

  lemma TraceKept<I, V>(all: seq<Entry<I, V>>, more: seq<Entry<I, V>>, visited: seq<Entry<I, V>>, seen: seq<nat>)
    requires Trace(all, visited, seen) && all <= more
    ensures Trace(more, visited, seen)
  {}

  /** Entries before `r`, at `p`, are marked and cut loose; the others and their index are untouched. */
  ghost predicate ClearStands<I, V>(all: seq<Entry<I, V>>, index: map<I, Entry<I, V>>, t: Table<I, V>,
                                    r: Entry?<I, V>, cells: seq<Cell<I, V>>, p: int)
  {
    && Distinct(all) && |all| == |t.cells| && Ok(t)
    && Refers(all, r, p) && (p == -1 || Live(t.cells, p))
    && PartlyCleared(t.cells, cells, p) && IndexMirrored(all, index, IndexFrom(t.index, p))
  }

  lemma ClearStandsStep<I, V>(all: seq<Entry<I, V>>, index: map<I, Entry<I, V>>, t: Table<I, V>,
                              r: Entry<I, V>, cells: seq<Cell<I, V>>, p: nat, next: Entry?<I, V>)
    requires ClearStands(all, index, t, r, cells, p) && p < |cells| && -1 <= cells[p].prev < |cells|
    requires Refers(all, next, cells[p].next)
    ensures ClearStands(all, if cells[p].key.Indexed? then index - {cells[p].key.id} else index, t,
                        next, ClearCell(cells, p), cells[p].next)
    ensures if next == null then cells[p].next == -1 else p < cells[p].next < |all|
  {
    ClearStep(t, cells, p);
    IndexStep(t, p);
    IndexRemove(all, index, IndexFrom(t.index, p), cells[p].key);
    hide Ok, Distinct, IndexMirrored, IndexFrom, ClearCell, PartlyCleared;
  }

  method CutLoose<I, V>(ghost all: seq<Entry<I, V>>, ghost cells: seq<Cell<I, V>>, r: Entry<I, V>, ghost p: nat)
    requires Distinct(all) && Mirrored(all, cells) && p < |all| == |cells| && r == all[p]
    requires -1 <= cells[p].prev < |cells|
    modifies all
    ensures Mirrored(all, ClearCell(cells, p))
  {
    assert Mirrors(all, all[p], cells[p]);
    hide Mirrored, Distinct;
    ghost var q := cells[p].prev;
    SetRemoved(all, cells, r, p);
    ghost var cells1 := cells[p := cells[p].(removed := true)];
    if r.prev != null {
      SetNext(all, cells1, r.prev, q, null, -1);
      ghost var cells2 := cells1[q := cells1[q].(next := -1)];
      SetPrev(all, cells2, r, p, null, -1);
    }
  }

  // ----- Clearing, as it goes -----

  /** An entry marked, and cut from the one before it. */
  ghost function ClearCell<I, V>(cells: seq<Cell<I, V>>, p: nat): (r: seq<Cell<I, V>>)
    requires p < |cells| && -1 <= cells[p].prev < |cells|
    ensures |r| == |cells|
  {
    var q := cells[p].prev;
    var cells1 := cells[p := cells[p].(removed := true)];
    if q == -1 then cells1
    else
      var cells2 := cells1[q := cells1[q].(next := -1)];
      cells2[p := cells2[p].(prev := -1)]
  }

  /** Live entries before `p` are cut loose, except that the one next to it still points there. */
  ghost predicate PartlyCleared<I, V>(was: seq<Cell<I, V>>, cells: seq<Cell<I, V>>, p: int) {
    && |cells| == |was|
    && forall i :: 0 <= i < |was| ==>
        cells[i] == if !was[i].removed && (p == -1 || i < p)
                    then was[i].(removed := true, prev := -1, next := if was[i].next == p then p else -1) else was[i]
  }

  ghost function IndexFrom<I>(index: map<I, nat>, p: int): map<I, nat> {
    map id | id in index && p != -1 && p <= index[id] :: index[id]
  }

  lemma ClearStart<I, V>(t: Table<I, V>)
    requires Ok(t)
    ensures PartlyCleared(t.cells, t.cells, t.first) && IndexFrom(t.index, t.first) == t.index
    ensures t.first == -1 || Live(t.cells, t.first)
  {
    hide Contents;
    assert forall i :: 0 <= i < |t.cells| && !t.cells[i].removed ==> Live(t.cells, i);
  }

  lemma ClearStep<I, V>(t: Table<I, V>, cells: seq<Cell<I, V>>, p: nat)
    requires Ok(t) && PartlyCleared(t.cells, cells, p) && Live(t.cells, p)
    ensures |cells| == |t.cells| > p && cells[p] == t.cells[p] && -1 <= cells[p].prev < |cells|
    ensures PartlyCleared(t.cells, ClearCell(cells, p), t.cells[p].next)
    ensures t.cells[p].next == -1 || (Live(t.cells, t.cells[p].next) && p < t.cells[p].next)
  {
    assert PrevOk(t.cells, p) && NextOk(t.cells, p);
    forall i | Live(t.cells, i)
      ensures t.cells[i].next == p <==> i == t.cells[p].prev
      ensures i < p ==> t.cells[i].next != t.cells[p].next
      ensures i <= p || (t.cells[p].next != -1 && t.cells[p].next <= i)
    {
      assert PrevOk(t.cells, i) && NextOk(t.cells, i);
      Neighbours(t.cells, p, i);
    }
    hide Ok;
    assert forall i :: 0 <= i < |t.cells| && !t.cells[i].removed ==> Live(t.cells, i);
  }

  lemma IndexStep<I, V>(t: Table<I, V>, p: nat)
    requires Ok(t) && Live(t.cells, p)
    ensures IndexFrom(t.index, t.cells[p].next) ==
            if t.cells[p].key.Indexed? then IndexFrom(t.index, p) - {t.cells[p].key.id} else IndexFrom(t.index, p)
  {
    hide Ok;
    forall id | id in t.index { IndexPlace(t, p, id); }
    if t.cells[p].key.Indexed? { IndexPlace(t, p, t.cells[p].key.id); }
  }

  lemma IndexPlace<I, V>(t: Table<I, V>, p: nat, id: I)
    requires Ok(t) && Live(t.cells, p)
    ensures id in t.index && p == t.index[id] <==> t.cells[p].key == Indexed(id)
    ensures id in t.index && p < t.index[id] ==> 0 <= t.cells[p].next <= t.index[id]
    ensures t.cells[p].next == -1 || p < t.cells[p].next
  {
    assert NextOk(t.cells, p);
    hide Contents, PrevOk;
  }

  lemma IndexRemove<I, V>(all: seq<Entry<I, V>>, index: map<I, Entry<I, V>>, positions: map<I, nat>, k: Key<I>)
    requires IndexMirrored(all, index, positions)
    ensures k.Indexed? ==> IndexMirrored(all, index - {k.id}, positions - {k.id})
  {}

  lemma IndexNone<I, V>(all: seq<Entry<I, V>>, index: map<I, Entry<I, V>>, positions: map<I, nat>)
    requires IndexMirrored(all, index, IndexFrom(positions, -1))
    ensures index == map[]
  {}

  // Cells that are not live are passed over.
  lemma {:induction false} FindSkips<I, V>(coerces: (I, nat) -> bool, cells: seq<Cell<I, V>>, i: nat, j: nat, ref: nat)
    requires i <= j <= |cells| && NoneLive(cells, i, j)
    ensures FindFrozen(coerces, cells, i, ref) == FindFrozen(coerces, cells, j, ref)
    decreases j - i
  {
    if i < j {
      assert !Live(cells, i);
      FindSkips(coerces, cells, i + 1, j, ref);
    }
  }
}
