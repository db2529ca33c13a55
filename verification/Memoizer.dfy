/**
  * The memoiser whose `max` option is kept by a least-recently-used queue listening to its events.
  */
module Memoizer {
  import opened Wrappers
  import opened LruQueue
  import opened LruRuns

  datatype Outcome<+R> = Returned(value: R) | CircularInvocation

  /** A call of the memoised function, with the calls its evaluation makes back into it. */
  datatype Call<A> = Call(arg: A, inner: seq<Call<A>>)

  /** Keys of a call and of everything inside it. */
  ghost function KeysOf<A, Id>(key: A -> Id, c: Call<A>): set<Id> {
    {key(c.arg)} + KeysOfAll(key, c.inner)
  }

  ghost function KeysOfAll<A, Id>(key: A -> Id, cs: seq<Call<A>>): set<Id> {
    if cs == [] then {} else KeysOf(key, cs[0]) + KeysOfAll(key, cs[1..])
  }

  /** No call happens inside a call with the same key. */
  ghost predicate NoReentry<A, Id>(key: A -> Id, c: Call<A>) {
    key(c.arg) !in KeysOfAll(key, c.inner) && forall i :: 0 <= i < |c.inner| ==> NoReentry(key, c.inner[i])
  }

  // ----- Which keys a call touches -----

  /** The keys of the `get` and `set` events of a call, in order, and whether it returns. */
  datatype Played<Id> = Played(ids: seq<Id>, returned: bool)

  /** A held key is touched; any other after the calls inside, unless one of them fails or leaves it held. */
  ghost function Plays<A, Id>(key: A -> Id, limit: nat, order: seq<Id>, c: Call<A>): Played<Id>
    decreases c
  {
    var id := key(c.arg);
    if id in order then Played([id], true)
    else
      var inner := PlaysAll(key, limit, order, c.inner);
      if !inner.returned || id in Hits(order, inner.ids, limit) then Played(inner.ids, false)
      else Played(inner.ids + [id], true)
  }

  ghost function PlaysAll<A, Id>(key: A -> Id, limit: nat, order: seq<Id>, cs: seq<Call<A>>): Played<Id>
    decreases cs
  {
    if cs == [] then Played([], true)
    else
      var first := Plays(key, limit, order, cs[0]);
      if !first.returned then first
      else
        var rest := PlaysAll(key, limit, Hits(order, first.ids, limit), cs[1..]);
        Played(first.ids + rest.ids, rest.returned)
  }

  /** Calls of a function that does not call itself. */
  function Leaves<A>(args: seq<A>): seq<Call<A>> {
    seq(|args|, i requires 0 <= i < |args| => Call(args[i], []))
  }

  function Keys<A, Id>(key: A -> Id, args: seq<A>): seq<Id> {
    seq(|args|, i requires 0 <= i < |args| => key(args[i]))
  }

  /** Such a call touches its key, held or not. */
  lemma LeafPlays<A, Id>(key: A -> Id, limit: nat, order: seq<Id>, a: A)
    ensures Plays(key, limit, order, Call(a, [])) == Played([key(a)], true)
  {
    assert [] + [key(a)] == [key(a)];
  }

  lemma {:induction false} LeavesPlay<A, Id>(key: A -> Id, limit: nat, order: seq<Id>, args: seq<A>)
    ensures PlaysAll(key, limit, order, Leaves(args)) == Played(Keys(key, args), true)
    decreases |args|
  {
    hide Plays, Hits;
    if args != [] {
      LeafPlays(key, limit, order, args[0]);
      assert Leaves(args)[1..] == Leaves(args[1..]);
      LeavesPlay(key, limit, Hits(order, [key(args[0])], limit), args[1..]);
      assert [key(args[0])] + Keys(key, args[1..]) == Keys(key, args);
    }
  }

  /** After any calls without inner calls the keys held are the last different keys called, up to the limit. */
  lemma {:induction false} HeldAreRecent<A, Id>(key: A -> Id, limit: nat, args: seq<A>)
    ensures PlaysAll(key, limit, [], Leaves(args)).returned
    ensures Hits([], PlaysAll(key, limit, [], Leaves(args)).ids, limit) == Recent(Keys(key, args), limit)
  {
    hide *;
    LeavesPlay(key, limit, [], args);
    HitsAreRecent(Keys(key, args), limit);
  }

  /** Any calls at all, inner ones included: the keys held are the last different keys touched. */
  lemma HeldAreTouched<A, Id>(key: A -> Id, limit: nat, history: seq<Id>, cs: seq<Call<A>>)
    ensures var ids := PlaysAll(key, limit, Recent(history, limit), cs).ids;
            Hits(Recent(history, limit), ids, limit) == Recent(history + ids, limit)
  {
    hide *;
    var ids := PlaysAll(key, limit, Recent(history, limit), cs).ids;
    HitsAreRecent(history, limit);
    HitsAreRecent(history + ids, limit);
    HitsConcat([], history, ids, limit);
  }

  class Memo<A(!new), Id(==), R> {
    const f: A -> R
    const key: A -> Id
    const lru: Queue<Id>
    var table: map<Id, R>

    /** Results and queue are on the same keys, and every stored result is the function's. */
    ghost predicate Valid()
      reads this, lru
    {
      && lru.Valid() && lru.size <= lru.limit
      && table.Keys == lru.index.Keys
      && Agrees(table)
    }

    /** Arguments with the same key have the same result, and the table holds no other. */
    ghost predicate Agrees(table: map<Id, R>)
    {
      && (forall a, b: A :: key(a) == key(b) ==> f(a) == f(b))
      && (forall a: A :: key(a) in table ==> table[key(a)] == f(a))
    }

    constructor (f: A -> R, key: A -> Id, max: nat)
      requires forall a, b: A :: key(a) == key(b) ==> f(a) == f(b)
      ensures Valid() && fresh(lru) && lru.limit == max && table == map[] && this.f == f && this.key == key
    {
      this.f := f;
      this.key := key;
      lru := new Queue<Id>(max);
      table := map[];
    }

    // The `delete` event goes to the queue, even when it was the queue that asked for the deletion.
    method Delete(id: Id)
      requires lru.Valid()
      modifies this`table, lru
      ensures lru.Valid() && table == old(table) - {id}
      ensures id in old(table) ==> lru.index == old(lru.index) - {id}
      ensures id !in old(table) ==> lru.index == old(lru.index) && lru.Order() == old(lru.Order())
      ensures id in old(table) ==> lru.Order() == Without(old(lru.Order()), id)
    {
      if id in table {
        table := table - {id};
        lru.Delete(id);
      }
    }

    // The `get` and `set` events: a hit, and the result it pushes out is deleted.
    method Touched(id: Id)
      requires lru.Valid() && lru.size <= lru.limit && 0 < lru.limit
      requires id in table && table.Keys == lru.index.Keys + {id}
      modifies this`table, lru
      ensures lru.Valid() && lru.size <= lru.limit && table.Keys == lru.index.Keys
      ensures forall k :: k in table ==> k in old(table) && table[k] == old(table[k])
      ensures id in table && lru.Order() == HitOrder(old(lru.Order()), id, lru.limit)
    {
      hide Evicted, HitOrder, Listed, Without, Tables, Smallest;
      var evicted := lru.Hit(id);
      if evicted.Some? {
        ghost var left := lru.index;
        NotKept(left, evicted.value);
        AbsentId(lru.queue, lru.index, lru.count, evicted.value);
        Delete(evicted.value);
        assert lru.index == left;
      }
    }

    /** A call returns what the function returns, and afterwards at most `max` results are held. */
    method Invoke(c: Call<A>) returns (r: Outcome<R>)
      requires Valid() && 0 < lru.limit
      modifies this`table, lru
      ensures Valid() && |table| <= lru.limit
      ensures r.Returned? ==> r.value == f(c.arg) && key(c.arg) in table
      ensures table.Keys <= old(table.Keys) + KeysOf(key, c)
      ensures NoReentry(key, c) ==> r.Returned?
      // What is held afterwards: the keys touched are hit, one after the other.
      ensures var played := Plays(key, lru.limit, old(lru.Order()), c);
              lru.Order() == Hits(old(lru.Order()), played.ids, lru.limit) && (r.Returned? <==> played.returned)
      ensures c.inner == [] ==> r.Returned? && lru.Order() == HitOrder(old(lru.Order()), key(c.arg), lru.limit)
      ensures table.Keys == Ids(lru.Order())
      decreases c
    {
      hide Agrees, HitOrder, Hits, Plays, PlaysAll, Listed, Tables, Smallest, Evicted, Without, Ids;
      var id := key(c.arg);
      ghost var order := lru.Order();
      ghost var inner := PlaysAll(key, lru.limit, order, c.inner);
      HeldIs(id);
      PlaysOne(key, lru.limit, order, c);
      NoneInside(key, lru.limit, order, c);
      HitsOne(order, id, lru.limit);
      if id in table {
        Touched(id);
        Narrowed(old(table), table);
        Looked(c.arg);
        r := Returned(table[id]);
      } else {
        var ok := InvokeAll(c.inner);
        HeldIs(id);
        if !ok || id in table {
          HeldIds();
          return CircularInvocation;
        }
        ghost var before := table;
        table := table[id := f(c.arg)];
        Stored(before, c.arg);
        ghost var stored := table;
        HitsConcat(order, inner.ids, [id], lru.limit);
        HitsOne(Hits(order, inner.ids, lru.limit), id, lru.limit);
        Touched(id);
        Narrowed(stored, table);
        r := Returned(f(c.arg));
      }
      HeldIds();
      assert |table| == |table.Keys|;
    }

    // The calls that evaluating the function makes, until one of them fails.
    method InvokeAll(cs: seq<Call<A>>) returns (ok: bool)
      requires Valid() && 0 < lru.limit
      modifies this`table, lru
      ensures Valid()
      ensures table.Keys <= old(table.Keys) + KeysOfAll(key, cs)
      ensures (forall i :: 0 <= i < |cs| ==> NoReentry(key, cs[i])) ==> ok
      ensures var played := PlaysAll(key, lru.limit, old(lru.Order()), cs);
              lru.Order() == Hits(old(lru.Order()), played.ids, lru.limit) && (ok <==> played.returned)
      decreases cs
    {
      hide Hits, Agrees;
      ghost var before, ids: seq<Id> := lru.Order(), [];
      NoneTouched(before, lru.limit);
      assert cs[0..] == cs && [] + PlaysAll(key, lru.limit, before, cs).ids == PlaysAll(key, lru.limit, before, cs).ids;
      for i := 0 to |cs|
        invariant Valid()
        invariant table.Keys <= old(table.Keys) + KeysOfAll(key, cs)
        invariant lru.Order() == Hits(before, ids, lru.limit)
        invariant var rest := PlaysAll(key, lru.limit, lru.Order(), cs[i..]);
                  PlaysAll(key, lru.limit, before, cs) == Played(ids + rest.ids, rest.returned)
      {
        KeysWithin(key, cs, i);
        PlaysStep(key, lru.limit, lru.Order(), cs, i);
        ghost var first := Plays(key, lru.limit, lru.Order(), cs[i]);
        HitsConcat(before, ids, first.ids, lru.limit);
        var r := Invoke(cs[i]);
        if r == CircularInvocation { return false; }
        Regroup(ids, first.ids, PlaysAll(key, lru.limit, lru.Order(), cs[i + 1..]).ids);
        ids := ids + first.ids;
      }
      assert cs[|cs|..] == [] && ids + [] == ids;
      ok := true;
    }

    /** Results are held for exactly the keys the queue lists. */
    lemma HeldIs(id: Id)
      requires Valid()
      ensures id in table <==> id in lru.Order()
    {
      hide Agrees;
      lru.ListedOnce(id);
    }

    lemma HeldIds()
      requires Valid()
      ensures table.Keys == Ids(lru.Order())
    {
      hide Agrees, Listed;
      forall k ensures k in table.Keys <==> k in Ids(lru.Order()) { HeldIs(k); }
      assert table.Keys == Ids(lru.Order());
    }

    lemma Looked(a: A)
      requires Agrees(table) && key(a) in table
      ensures table[key(a)] == f(a)
    {}

    lemma Stored(table: map<Id, R>, a: A)
      requires Agrees(table)
      ensures Agrees(table[key(a) := f(a)])
    {}

    lemma Narrowed(table: map<Id, R>, table': map<Id, R>)
      requires Agrees(table) && forall k :: k in table' ==> k in table && table'[k] == table[k]
      ensures Agrees(table')
    {}

    method Clear()
      requires Valid()
      modifies this`table, lru
      ensures Valid() && table == map[]
    {
      table := map[];
      lru.Clear();
    }
  }

  lemma {:induction false} KeysWithin<A, Id>(key: A -> Id, cs: seq<Call<A>>, i: nat)
    requires i < |cs|
    ensures KeysOf(key, cs[i]) <= KeysOfAll(key, cs)
  {
    if i > 0 { KeysWithin(key, cs[1..], i - 1); }
  }

  lemma NotKept<Id, T>(m: map<Id, T>, id: Id)
    ensures id !in m ==> m - {id} == m
  {}

  function Ids<Id>(order: seq<Id>): set<Id> {
    set k | k in order
  }

  lemma NoneInside<A, Id>(key: A -> Id, limit: nat, order: seq<Id>, c: Call<A>)
    ensures c.inner == [] ==> Plays(key, limit, order, c) == Played([key(c.arg)], true)
  {
    if c.inner == [] {
      LeafPlays(key, limit, order, c.arg);
      assert c == Call(c.arg, []);
    }
  }

  lemma NoneTouched<Id>(order: seq<Id>, limit: nat)
    ensures Hits(order, [], limit) == order
  {}

  lemma PlaysStep<A, Id>(key: A -> Id, limit: nat, order: seq<Id>, cs: seq<Call<A>>, i: nat)
    requires i < |cs|
    ensures var first := Plays(key, limit, order, cs[i]);
            var rest := PlaysAll(key, limit, Hits(order, first.ids, limit), cs[i + 1..]);
            PlaysAll(key, limit, order, cs[i..]) == if first.returned then Played(first.ids + rest.ids, rest.returned)
                                                    else first
  {
    hide Hits;
    assert cs[i..][0] == cs[i] && cs[i..][1..] == cs[i + 1..];
  }

  lemma PlaysOne<A, Id>(key: A -> Id, limit: nat, order: seq<Id>, c: Call<A>)
    ensures var id, inner := key(c.arg), PlaysAll(key, limit, order, c.inner);
            Plays(key, limit, order, c) ==
            if id in order then Played([id], true)
            else if !inner.returned || id in Hits(order, inner.ids, limit) then Played(inner.ids, false)
            else Played(inner.ids + [id], true)
  {
    hide Hits, PlaysAll;
  }
}
