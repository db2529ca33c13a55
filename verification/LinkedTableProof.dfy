/** The operations of the ordered map keep index, list and size in agreement. */
module LinkedTableProof {
  import opened LinkedTable

  // ----- Contents -----

  lemma {:induction false} ContentsConcat<I, V>(a: seq<Cell<I, V>>, b: seq<Cell<I, V>>)
    ensures Contents(a + b) == Contents(a) + Contents(b)
  {
    if b == [] {
      assert a + b == a;
    } else {
      var n := |b| - 1;
      ContentsConcat(a, b[..n]);
      assert (a + b)[..|a + b| - 1] == a + b[..n];
    }
  }

  function Own<I, V>(c: Cell<I, V>): seq<(Key<I>, V)> {
    if c.removed then [] else [(c.key, c.value)]
  }

  // The contents around one cell.
  lemma {:induction false} ContentsAround<I, V>(cells: seq<Cell<I, V>>, i: nat)
    requires i < |cells|
    ensures Contents(cells) == Contents(cells[..i]) + Own(cells[i]) + Contents(cells[i + 1..])
  {
    hide *;
    ContentsConcat(cells[..i], [cells[i]]);
    ContentsConcat(cells[..i] + [cells[i]], cells[i + 1..]);
    ContentsOne(cells[i]);
    assert cells == cells[..i] + [cells[i]] + cells[i + 1..];
  }

  lemma {:induction false} ContentsOne<I, V>(c: Cell<I, V>)
    ensures Contents([c]) == Own(c)
  {
    assert [c][..0] == [];
  }

  lemma {:induction false} ContentsChange<I, V>(cells: seq<Cell<I, V>>, i: nat, c: Cell<I, V>)
    requires i < |cells|
    ensures Contents(cells[i := c]) == Contents(cells[..i]) + Own(c) + Contents(cells[i + 1..])
  {
    ContentsAround(cells[i := c], i);
    assert cells[i := c][..i] == cells[..i] && cells[i := c][i + 1..] == cells[i + 1..];
  }

  // Links do not show in the contents.
  lemma {:induction false} ContentsSame<I, V>(a: seq<Cell<I, V>>, b: seq<Cell<I, V>>)
    requires |a| == |b| && forall k :: 0 <= k < |a| ==> Own(a[k]) == Own(b[k])
    ensures Contents(a) == Contents(b)
  {
    if a != [] { ContentsSame(a[..|a| - 1], b[..|b| - 1]); }
  }

  // ----- A new value, a new entry -----

  lemma SetValueOk<I, V>(t: Table<I, V>, i: nat, v: V)
    requires Ok(t) && Live(t.cells, i)
    ensures var t' := t.(cells := t.cells[i := t.cells[i].(value := v)]);
            && Linked(t'.cells, t'.first, t'.last) && IndexOk(t'.cells, t'.index)
  {
    var cells' := t.cells[i := t.cells[i].(value := v)];
    SameLinks(t.cells, cells', t.first, t.last);
  }

  // Linkage depends on marks and links only.
  lemma SameLinks<I, V>(a: seq<Cell<I, V>>, b: seq<Cell<I, V>>, first: int, last: int)
    requires Linked(a, first, last) && |a| == |b|
    requires forall k :: 0 <= k < |a| ==>
               a[k].removed == b[k].removed && a[k].prev == b[k].prev && a[k].next == b[k].next
    ensures Linked(b, first, last)
  {
    assert forall k :: Live(a, k) <==> Live(b, k);
    forall i | 0 <= i < |b| ensures PrevOk(b, i) { assert PrevOk(a, i); }
    forall i | Live(b, i) ensures NextOk(b, i) { assert NextOk(a, i); }
  }

  lemma AppendLinked<I, V>(t: Table<I, V>, k: Key<I>, v: V)
    requires Ok(t)
    ensures var t' := Append(t, k, v); Linked(t'.cells, t'.first, t'.last)
  {
    var cells, cells', n := t.cells, Append(t, k, v).cells, |t.cells|;
    assert forall j :: Live(cells', j) <==> Live(cells, j) || j == n;
    forall i | 0 <= i < |cells'| ensures PrevOk(cells', i) {
      if i < n { assert PrevOk(cells, i); }
    }
    forall i | Live(cells', i) ensures NextOk(cells', i) {
      if i < n { assert NextOk(cells, i); }
    }
  }

  lemma IndexGrows<I, V>(cells: seq<Cell<I, V>>, cells': seq<Cell<I, V>>, index: map<I, nat>, k: Key<I>)
    requires IndexOk(cells, index) && (k.Indexed? ==> k.id !in index)
    requires |cells'| == |cells| + 1 && cells'[|cells|].key == k && !cells'[|cells|].removed
    requires forall j :: 0 <= j < |cells| ==> cells'[j].key == cells[j].key && cells'[j].removed == cells[j].removed
    ensures IndexOk(cells', if k.Indexed? then index[k.id := |cells|] else index)
  {
    assert forall j :: Live(cells', j) <==> Live(cells, j) || j == |cells|;
  }

  lemma AppendIndexed<I, V>(t: Table<I, V>, k: Key<I>, v: V)
    requires Ok(t) && (k.Indexed? ==> k.id !in t.index)
    ensures var t' := Append(t, k, v); IndexOk(t'.cells, t'.index)
  {
    IndexGrows(t.cells, Append(t, k, v).cells, t.index, k);
  }

  lemma AppendContents<I, V>(t: Table<I, V>, k: Key<I>, v: V)
    requires Ok(t)
    ensures Contents(Append(t, k, v).cells) == Contents(t.cells) + [(k, v)]
  {
    var n := |t.cells|;
    var linked := if t.last >= 0 then t.cells[t.last := t.cells[t.last].(next := n)] else t.cells;
    var c := Cell(k, v, false, t.last, -1);
    hide Linked, IndexOk, Contents;
    assert Append(t, k, v).cells == linked + [c];
    ContentsSame(t.cells, linked);
    ContentsConcat(linked, [c]);
    ContentsOne(c);
  }

  lemma AppendOk<I, V>(t: Table<I, V>, k: Key<I>, v: V)
    requires Ok(t) && (k.Indexed? ==> k.id !in t.index)
    ensures Ok(Append(t, k, v)) && Contents(Append(t, k, v).cells) == Contents(t.cells) + [(k, v)]
  {
    hide Linked, IndexOk, Contents;
    AppendLinked(t, k, v);
    AppendIndexed(t, k, v);
    AppendContents(t, k, v);
  }

  // ----- Taking an entry out -----

  // Each mark and link of the cells after one is unlinked.
  ghost predicate WithoutCell<I, V>(cells: seq<Cell<I, V>>, i: nat, r: seq<Cell<I, V>>)
    requires i < |cells|
  {
    && |r| == |cells|
    && forall k :: 0 <= k < |cells| ==>
        && r[k].key == cells[k].key && r[k].value == cells[k].value
        && r[k].removed == (cells[k].removed || k == i)
        && r[k].prev == (if k == cells[i].next then cells[i].prev else cells[k].prev)
        && r[k].next == (if k == cells[i].prev then cells[i].next else cells[k].next)
  }

  lemma RemovedCells<I, V>(t: Table<I, V>, i: nat)
    requires Ok(t) && Live(t.cells, i)
    ensures WithoutCell(t.cells, i, Remove(t, i).cells)
  {
    assert PrevOk(t.cells, i) && NextOk(t.cells, i);
    var c := t.cells[i];
    assert c.prev < i && (c.next == -1 || c.next > i);
    hide Ok, PrevOk, NextOk, Live;
    UnlinkedCells(t.cells, i);
  }

  lemma UnlinkedCells<I, V>(cells: seq<Cell<I, V>>, i: nat)
    requires i < |cells| && -1 <= cells[i].prev < i && (cells[i].next == -1 || i < cells[i].next < |cells|)
    ensures WithoutCell(cells, i, Unlinked(cells, i))
  {}

  // Only the neighbours of a live entry point at it.
  lemma Neighbours<I, V>(cells: seq<Cell<I, V>>, i: nat, k: nat)
    requires Live(cells, i) && Live(cells, k)
    requires PrevOk(cells, i) && NextOk(cells, i) && PrevOk(cells, k) && NextOk(cells, k)
    ensures cells[k].prev == i <==> k == cells[i].next
    ensures cells[k].next == i <==> k == cells[i].prev
  {}

  lemma UnlinkedPrev<I, V>(cells: seq<Cell<I, V>>, i: nat, r: seq<Cell<I, V>>, k: nat)
    requires Live(cells, i) && WithoutCell(cells, i, r) && k < |cells|
    requires PrevOk(cells, i) && NextOk(cells, i) && PrevOk(cells, k) && (Live(cells, k) ==> NextOk(cells, k))
    ensures PrevOk(r, k)
  {
    assert forall j :: Live(r, j) <==> Live(cells, j) && j != i;
    if Live(cells, k) { Neighbours(cells, i, k); }
  }

  lemma UnlinkedNext<I, V>(cells: seq<Cell<I, V>>, i: nat, r: seq<Cell<I, V>>, k: nat)
    requires Live(cells, i) && WithoutCell(cells, i, r) && Live(cells, k) && k != i
    requires PrevOk(cells, i) && NextOk(cells, i) && PrevOk(cells, k) && NextOk(cells, k)
    ensures NextOk(r, k)
  {
    assert forall j :: Live(r, j) <==> Live(cells, j) && j != i;
    Neighbours(cells, i, k);
  }

  lemma UnlinkedLinked<I, V>(cells: seq<Cell<I, V>>, i: nat, r: seq<Cell<I, V>>, first: int, last: int)
    requires Linked(cells, first, last) && Live(cells, i) && WithoutCell(cells, i, r)
    ensures Linked(r, if first == i then cells[i].next else first, if last == i then cells[i].prev else last)
  {
    assert forall k :: Live(r, k) <==> Live(cells, k) && k != i;
    forall k | 0 <= k < |r| ensures PrevOk(r, k) { UnlinkedPrev(cells, i, r, k); }
    forall k | Live(r, k) ensures NextOk(r, k) { UnlinkedNext(cells, i, r, k); }
    assert PrevOk(cells, i) && NextOk(cells, i);
    hide WithoutCell;
  }

  lemma IndexShrinks<I, V>(cells: seq<Cell<I, V>>, i: nat, r: seq<Cell<I, V>>, index: map<I, nat>)
    requires IndexOk(cells, index) && Live(cells, i) && WithoutCell(cells, i, r)
    ensures IndexOk(r, if cells[i].key.Indexed? then index - {cells[i].key.id} else index)
  {
    assert forall k :: Live(r, k) <==> Live(cells, k) && k != i;
  }

  lemma {:induction false} ContentsShrink<I, V>(cells: seq<Cell<I, V>>, i: nat, r: seq<Cell<I, V>>)
    requires Live(cells, i) && WithoutCell(cells, i, r)
    ensures Contents(r) == Contents(cells[..i]) + Contents(cells[i + 1..])
    ensures Contents(cells) == Contents(cells[..i]) + [(cells[i].key, cells[i].value)] + Contents(cells[i + 1..])
  {
    hide Contents;
    ContentsAround(cells, i);
    ContentsChange(cells, i, cells[i].(removed := true));
    ContentsSame(cells[i := cells[i].(removed := true)], r);
  }

  lemma RemoveOk<I, V>(t: Table<I, V>, i: nat)
    requires Ok(t) && Live(t.cells, i)
    ensures Ok(Remove(t, i))
    ensures Contents(Remove(t, i).cells) == Contents(t.cells[..i]) + Contents(t.cells[i + 1..])
  {
    hide Linked, IndexOk, Contents, Unlinked, WithoutCell;
    RemovedCells(t, i);
    var r := Remove(t, i).cells;
    UnlinkedLinked(t.cells, i, r, t.first, t.last);
    IndexShrinks(t.cells, i, r, t.index);
    ContentsShrink(t.cells, i, r);
  }

  lemma ClearOk<I, V>(t: Table<I, V>)
    requires Ok(t)
    ensures Ok(Clear(t)) && Contents(Clear(t).cells) == []
  {
    var cells' := Cleared(t.cells);
    assert NoneLive(cells', 0, |cells'|);
    forall i | 0 <= i < |cells'| ensures PrevOk(cells', i) { assert PrevOk(t.cells, i); }
    NoContents(cells');
  }

  lemma {:induction false} NoContents<I, V>(cells: seq<Cell<I, V>>)
    requires NoneLive(cells, 0, |cells|)
    ensures Contents(cells) == []
  {
    if cells != [] {
      var n := |cells| - 1;
      assert !Live(cells, n);
      assert forall k :: Live(cells[..n], k) ==> Live(cells, k);
      NoContents(cells[..n]);
    }
  }
}
