/**
  * The least-recently-used queue: two tables, one from id to the index of its last hit and one
  * back, and a base index that walks over the holes left behind.
  */
module LruQueue {
  import opened Wrappers

  // ----- The recency list the tables stand for -----

  /** `s` without `id`. */
  function Without<Id(==)>(s: seq<Id>, id: Id): seq<Id> {
    if s == [] then [] else (if s[0] == id then [] else [s[0]]) + Without(s[1..], id)
  }

  /** The ids a table holds at indices `from` to `last`, in order. */
  function Listed<Id>(queue: map<nat, Id>, from: nat, last: nat): seq<Id>
    decreases last + 1 - from
  {
    if from > last then [] else (if from in queue then [queue[from]] else []) + Listed(queue, from + 1, last)
  }

  /** A hit moves the id to the recent end; beyond the limit the oldest id goes. */
  function HitOrder<Id(==)>(order: seq<Id>, id: Id, limit: nat): seq<Id> {
    var moved := Without(order, id) + [id];
    if id !in order && |moved| > limit then moved[1..] else moved
  }

  function Evicted<Id(==)>(order: seq<Id>, id: Id, limit: nat): Option<Id> {
    if id !in order && |order| + 1 > limit then Some((order + [id])[0]) else None
  }

  // ----- The queue -----

  class Queue<Id(==)> {
    const limit: nat
    var size: nat
    var base: nat
    var count: nat
    var queue: map<nat, Id>
    var index: map<Id, nat>

    /** The tables are inverse to each other, and `base` is the smallest live index. */
    ghost predicate Valid()
      reads this
    {
      && Tables(queue, index, count)
      && size == |index|
      && (size == 0 ==> base == 1 && count == 0)
      && (size > 0 ==> Smallest(queue, base))
    }

    /** The live ids, the least recently hit first. */
    ghost function Order(): seq<Id>
      reads this
    {
      Listed(queue, 1, count)
    }

    constructor (limit: nat)
      ensures Valid() && Order() == [] && index == map[] && this.limit == limit
    {
      this.limit := limit;
      size, base, count := 0, 1, 0;
      queue, index := map[], map[];
    }

    // Move `base` on to the next live index.
    method Advance()
      requires Tables(queue, index, count) && index != map[]
      requires Above(queue, base)
      modifies this`base
      ensures Smallest(queue, base)
    {
      ghost var some :| some in index;
      base := base + 1;
      while base !in queue
        invariant forall i :: i in queue ==> base <= i
        decreases index[some] - base
      {
        base := base + 1;
      }
    }

    /** Drop an id; nothing happens to one that is not there. */
    method Delete(id: Id)
      requires Valid()
      modifies this
      ensures Valid() && Order() == Without(old(Order()), id)
      ensures index == old(index) - {id} && size <= old(size) && (id in old(index) ==> size == old(size) - 1)
    {
      hide Tables, Listed, Without, Smallest, Above;
      if id !in index {
        AbsentId(queue, index, count, id);
        return;
      }
      OutOfTables(queue, index, count, base, id);
      var e := index[id];
      queue := queue - {e};
      index := index - {id};
      size := size - 1;
      if base == e {
        if size == 0 {
          count, base := 0, 1;
        } else {
          NotEmpty(index);
          Advance();
        }
      }
    }

    // A hit on an id that is there.
    method HitKnown(id: Id)
      requires Valid() && id in index
      modifies this
      ensures Valid() && Order() == Without(old(Order()), id) + [id] && id in old(Order())
      ensures index.Keys == old(index.Keys) && size == old(size)
    {
      hide Tables, Listed, Without, Smallest, Above;
      var i := index[id];
      count := count + 1;
      queue := queue[count := id] - {i};
      index := index[id := count];
      MoveInTables(old(queue), old(index), old(count), base, id, queue, index);
      if base == i { Advance(); }
    }

    // A hit on a new id.
    method HitNew(id: Id)
      requires Valid() && id !in index
      modifies this
      ensures Valid() && id !in old(Order()) && Order() == old(Order()) + [id]
      ensures index.Keys == old(index.Keys) + {id} && size == old(size) + 1
    {
      hide Tables, Listed, Without, Smallest, Above;
      count := count + 1;
      queue := queue[count := id];
      index := index[id := count];
      size := size + 1;
      IntoTables(old(queue), old(index), old(count), base, id, queue, index);
    }

    // Drop what `base` points at.
    method DropOldest() returns (id: Id)
      requires Valid() && size > 0
      modifies this
      ensures Valid() && old(Order()) != [] && id == old(Order())[0] && Order() == old(Order())[1..]
      ensures index.Keys == old(index.Keys) - {id} && size == old(size) - 1
    {
      hide Tables, Listed, Without, Smallest, Above;
      FirstListed(queue, index, count, base);
      id := queue[base];
      Delete(id);
    }

    lemma ListedOnce(id: Id)
      requires Valid()
      ensures |Order()| == size && (id in Order() <==> id in index)
    {
      OrderFacts(queue, index, count);
      hide Tables, Listed;
    }

    // A hit on a new id, and the oldest dropped if that makes one too many.
    method HitAbsent(id: Id) returns (evicted: Option<Id>)
      requires Valid() && id !in index
      modifies this
      ensures Valid() && id !in old(Order()) && size == (if evicted.Some? then old(size) else old(size) + 1)
      ensures evicted.Some? <==> old(size) + 1 > limit
      ensures evicted.None? ==> Order() == old(Order()) + [id] && index.Keys == old(index.Keys) + {id}
      ensures evicted.Some? ==>
                && evicted.value == (old(Order()) + [id])[0] && Order() == (old(Order()) + [id])[1..]
                && index.Keys == old(index.Keys) + {id} - {evicted.value}
    {
      hide Tables, Listed, Smallest;
      evicted := None;
      HitNew(id);
      if size > limit {
        var oldest := DropOldest();
        evicted := Some(oldest);
      }
    }

    /** Note that `id` was used; when that makes one id too many, the oldest is dropped and returned. */
    method Hit(id: Id) returns (evicted: Option<Id>)
      requires Valid()
      modifies this
      ensures Valid() && Order() == HitOrder(old(Order()), id, limit)
      ensures evicted == Evicted(old(Order()), id, limit)
      ensures index.Keys == old(index.Keys) + {id} - if evicted.Some? then {evicted.value} else {}
      ensures 0 < limit && old(size) <= limit ==> size <= limit && evicted != Some(id)
    {
      hide Tables, Listed, Without, Smallest, HitOrder, Evicted;
      ghost var order := Order();
      ListedOnce(id);
      evicted := None;
      if id in index {
        HitKnown(id);
        KnownHit(order, id, limit);
      } else {
        evicted := HitAbsent(id);
        AbsentHit(order, id, limit);
      }
    }

    method Clear()
      modifies this
      ensures Valid() && Order() == [] && index == map[]
    {
      size, base, count := 0, 1, 0;
      queue, index := map[], map[];
    }
  }

  lemma KnownHit<Id>(order: seq<Id>, id: Id, limit: nat)
    requires id in order
    ensures HitOrder(order, id, limit) == Without(order, id) + [id] && Evicted(order, id, limit) == None
  {
    hide Without;
  }

  lemma AbsentHit<Id>(order: seq<Id>, id: Id, limit: nat)
    requires id !in order
    ensures HitOrder(order, id, limit) == if |order| + 1 > limit then (order + [id])[1..] else order + [id]
    ensures Evicted(order, id, limit) == if |order| + 1 > limit then Some((order + [id])[0]) else None
    ensures |order| > 0 ==> (order + [id])[0] != id
  {
    hide Without;
    NotThere(order, id);
    if |order| > 0 { assert (order + [id])[0] in order; }
  }

  // ----- The tables as values -----

  ghost predicate Smallest<Id>(queue: map<nat, Id>, base: nat) {
    base in queue && forall i :: i in queue ==> base <= i
  }

  ghost predicate Above<Id>(queue: map<nat, Id>, base: nat) {
    forall i :: i in queue ==> base < i
  }

  ghost predicate Tables<Id>(queue: map<nat, Id>, index: map<Id, nat>, count: nat) {
    && (forall id :: id in index ==> index[id] in queue && queue[index[id]] == id)
    && (forall i :: i in queue ==> 1 <= i <= count && queue[i] in index && index[queue[i]] == i)
  }

  // ----- Lists and tables -----

  lemma {:induction false} ListedMember<Id>(queue: map<nat, Id>, from: nat, last: nat, id: Id)
    ensures id in Listed(queue, from, last) <==> exists i :: i in queue && from <= i <= last && queue[i] == id
    decreases last + 1 - from
  {
    if from <= last { ListedMember(queue, from + 1, last, id); }
  }

  // A fresh index at the end appends its id.
  lemma {:induction false} ListedAppend<Id>(queue: map<nat, Id>, from: nat, last: nat, id: Id)
    requires from <= last + 1
    ensures Listed(queue[last + 1 := id], from, last + 1) == Listed(queue, from, last) + [id]
    decreases last + 1 - from
  {
    var queue' := queue[last + 1 := id];
    if from == last + 1 {
      assert Listed(queue', from + 1, last + 1) == [];
    } else {
      ListedAppend(queue, from + 1, last, id);
    }
  }

  // Taking an index out takes its id out, when no other index holds it.
  lemma {:induction false} ListedRemove<Id>(queue: map<nat, Id>, from: nat, last: nat, e: nat)
    requires e in queue && forall i :: i in queue && queue[i] == queue[e] ==> i == e
    ensures Listed(queue - {e}, from, last) == Without(Listed(queue, from, last), queue[e])
    decreases last + 1 - from
  {
    if from <= last {
      ListedRemove(queue, from + 1, last, e);
      if from in queue {
        assert Listed(queue, from, last)[1..] == Listed(queue, from + 1, last);
      } else {
        assert Listed(queue, from, last) == Listed(queue, from + 1, last);
      }
    }
  }

  // Holes at the start do not show.
  lemma {:induction false} ListedSkip<Id>(queue: map<nat, Id>, from: nat, last: nat, base: nat)
    requires from <= base && forall i :: i in queue ==> base <= i
    ensures Listed(queue, from, last) == Listed(queue, base, last) || base > last
    ensures base > last ==> Listed(queue, from, last) == []
    decreases base - from
  {
    if from < base && from <= last { ListedSkip(queue, from + 1, last, base); }
  }

  lemma {:induction false} ListedEmpty<Id>(from: nat, last: nat)
    ensures Listed<Id>(map[], from, last) == []
    decreases last + 1 - from
  {
    if from <= last { ListedEmpty<Id>(from + 1, last); }
  }

  lemma {:induction false} WithoutAbsent<Id>(s: seq<Id>, id: Id)
    requires id !in s
    ensures Without(s, id) == s
  {
    if s != [] { WithoutAbsent(s[1..], id); }
  }

  lemma NotThere<Id>(order: seq<Id>, id: Id)
    requires id !in order
    ensures Without(order, id) + [id] == order + [id]
  {
    WithoutAbsent(order, id);
  }

  lemma AbsentId<Id>(queue: map<nat, Id>, index: map<Id, nat>, count: nat, id: Id)
    requires Tables(queue, index, count) && id !in index
    ensures Without(Listed(queue, 1, count), id) == Listed(queue, 1, count)
    ensures index - {id} == index
  {
    ListedMember(queue, 1, count, id);
    WithoutAbsent(Listed(queue, 1, count), id);
  }

  lemma NotEmpty<Id>(index: map<Id, nat>)
    requires |index| > 0
    ensures index != map[]
  {}

  // An id taken out of the tables.
  lemma OutOfTables<Id>(queue: map<nat, Id>, index: map<Id, nat>, count: nat, base: nat, id: Id)
    requires Tables(queue, index, count) && id in index && Smallest(queue, base)
    ensures index[id] in queue
    ensures var queue', index' := queue - {index[id]}, index - {id};
            && Tables(queue', index', count) && |index'| == |index| - 1
            && Listed(queue', 1, count) == Without(Listed(queue, 1, count), id)
            && (index[id] == base ==> Above(queue', base))
            && (index[id] != base ==> Smallest(queue', base) && |index'| > 0)
            && (|index'| == 0 ==> Tables(queue', index', 0)
                                  && Listed(queue', 1, 0) == Without(Listed(queue, 1, count), id))
  {
    ListedRemove(queue, 1, count, index[id]);
    var queue', index' := queue - {index[id]}, index - {id};
    assert index'.Keys == index.Keys - {id};
    if index[id] != base { assert queue[base] in index'; }
    if |index'| == 0 {
      assert index' == map[] && queue' == map[];
      ListedEmpty<Id>(1, count);
    }
  }

  // A new id put into the tables at the next index.
  lemma IntoTables<Id>(queue: map<nat, Id>, index: map<Id, nat>, count: nat, base: nat, id: Id,
                       queue': map<nat, Id>, index': map<Id, nat>)
    requires Tables(queue, index, count) && id !in index
    requires if |index| == 0 then base == 1 && count == 0 else Smallest(queue, base)
    requires queue' == queue[count + 1 := id] && index' == index[id := count + 1]
    ensures Tables(queue', index', count + 1)
    ensures |index'| == |index| + 1 && index'.Keys == index.Keys + {id}
    ensures Smallest(queue', base)
    ensures Listed(queue', 1, count + 1) == Listed(queue, 1, count) + [id]
    ensures id !in Listed(queue, 1, count)
  {
    ListedAppend(queue, 1, count, id);
    ListedMember(queue, 1, count, id);
    if |index| == 0 { assert index == map[] && queue == map[]; }
  }

  // A known id moved to the next index.
  lemma MoveInTables<Id>(queue: map<nat, Id>, index: map<Id, nat>, count: nat, base: nat, id: Id,
                         queue': map<nat, Id>, index': map<Id, nat>)
    requires Tables(queue, index, count) && id in index && Smallest(queue, base)
    requires queue' == queue[count + 1 := id] - {index[id]} && index' == index[id := count + 1]
    ensures Tables(queue', index', count + 1)
    ensures |index'| == |index| && index'.Keys == index.Keys && index' != map[]
    ensures if index[id] == base then Above(queue', base) else Smallest(queue', base)
    ensures Listed(queue', 1, count + 1) == Without(Listed(queue, 1, count), id) + [id]
    ensures id in Listed(queue, 1, count)
  {
    ListedMove(queue, count, index[id], id);
    ListedMember(queue, 1, count, id);
    assert index'.Keys == index.Keys;
  }

  // A hit on a known id: its old index goes, its new one comes last.
  lemma ListedMove<Id>(queue: map<nat, Id>, count: nat, i: nat, id: Id)
    requires i in queue && i <= count && queue[i] == id && forall j :: j in queue && queue[j] == id ==> j == i
    ensures Listed(queue[count + 1 := id] - {i}, 1, count + 1) == Without(Listed(queue, 1, count), id) + [id]
  {
    ListedRemove(queue, 1, count, i);
    ListedAppend(queue - {i}, 1, count, id);
    assert (queue - {i})[count + 1 := id] == queue[count + 1 := id] - {i};
  }

  lemma {:induction false} DistinctList<Id>(queue: map<nat, Id>, index: map<Id, nat>, from: nat, last: nat)
    requires forall i :: i in queue ==> queue[i] in index && index[queue[i]] == i
    ensures Distinct(Listed(queue, from, last))
    decreases last + 1 - from
  {
    if from <= last {
      DistinctList(queue, index, from + 1, last);
      if from in queue { ListedMember(queue, from + 1, last, queue[from]); }
    }
  }

  /** The list names each live id once. */
  lemma OrderFacts<Id>(queue: map<nat, Id>, index: map<Id, nat>, count: nat)
    requires Tables(queue, index, count)
    ensures Distinct(Listed(queue, 1, count))
    ensures |Listed(queue, 1, count)| == |index|
    ensures forall id :: id in Listed(queue, 1, count) <==> id in index
  {
    DistinctList(queue, index, 1, count);
    var s := Listed(queue, 1, count);
    forall id ensures id in s <==> id in index {
      ListedMember(queue, 1, count, id);
    }
    DistinctSize(s, index.Keys);
  }

  lemma {:induction false} DistinctSize<Id>(s: seq<Id>, ids: set<Id>)
    requires Distinct(s) && forall id :: id in s <==> id in ids
    ensures |s| == |ids|
  {
    if s == [] {
      assert ids == {};
    } else {
      assert forall id :: id in s[1..] <==> id in ids - {s[0]};
      DistinctSize(s[1..], ids - {s[0]});
    }
  }

  // The base holds the head of the list.
  lemma FirstListed<Id>(queue: map<nat, Id>, index: map<Id, nat>, count: nat, base: nat)
    requires Tables(queue, index, count) && Smallest(queue, base)
    ensures var s := Listed(queue, 1, count);
            s != [] && base in queue && s[0] == queue[base] && queue[base] in index && Without(s, s[0]) == s[1..]
  {
    ListedSkip(queue, 1, count, base);
    DistinctList(queue, index, 1, count);
    var s := Listed(queue, 1, count);
    WithoutAbsent(s[1..], s[0]);
  }
}
