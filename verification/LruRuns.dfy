/** The recency list over every run of hits, deletions and clears. */
module LruRuns {
  import opened Wrappers
  import opened LruQueue

  datatype Op<Id> = Hit(id: Id) | Delete(id: Id) | Clear

  /** The list after a run, by the operations the queue is proved to perform. */
  function OrderAfter<Id(==)>(ops: seq<Op<Id>>, limit: nat): seq<Id> {
    if ops == [] then []
    else
      var before := OrderAfter(ops[..|ops| - 1], limit);
      match ops[|ops| - 1]
      case Hit(id) => HitOrder(before, id, limit)
      case Delete(id) => Without(before, id)
      case Clear => []
  }

  /** When `id` was last hit, -1 if never. */
  function LastHit<Id(==)>(ops: seq<Op<Id>>, id: Id): int {
    if ops == [] then -1
    else if ops[|ops| - 1] == Hit(id) then |ops| - 1
    else LastHit(ops[..|ops| - 1], id)
  }

  /** Longer ago comes first, and nothing is listed twice or without a hit. */
  predicate ByRecency<Id(==)>(order: seq<Id>, ops: seq<Op<Id>>) {
    && (forall i, j :: 0 <= i < j < |order| ==> LastHit(ops, order[i]) < LastHit(ops, order[j]))
    && (forall i :: 0 <= i < |order| ==> 0 <= LastHit(ops, order[i]) < |ops|)
  }

  lemma {:induction false} WithoutMembers<Id>(s: seq<Id>, id: Id)
    ensures forall x :: x in Without(s, id) ==> x in s && x != id
    ensures forall x :: x in s && x != id ==> x in Without(s, id)
    ensures |Without(s, id)| <= |s| && (id in s ==> |Without(s, id)| < |s|)
  {
    if s != [] { WithoutMembers(s[1..], id); }
  }

  lemma WithoutMember<Id>(s: seq<Id>, id: Id, j: nat)
    requires j < |Without(s, id)|
    ensures Without(s, id)[j] in s
  {
    WithoutMembers(s, id);
    assert Without(s, id)[j] in Without(s, id);
  }

  lemma {:induction false} WithoutHead<Id>(s: seq<Id>, id: Id)
    requires s != []
    ensures Without(s, id) == (if s[0] == id then Without(s[1..], id) else [s[0]] + Without(s[1..], id))
  {}

  lemma {:induction false} WithoutByRecency<Id>(s: seq<Id>, id: Id, ops: seq<Op<Id>>)
    requires ByRecency(s, ops)
    ensures ByRecency(Without(s, id), ops)
  {
    if s != [] {
      var rest := s[1..];
      var r := Without(rest, id);
      assert forall i :: 0 <= i < |rest| ==> rest[i] == s[i + 1];
      WithoutByRecency(rest, id, ops);
      hide Without, LastHit;
      forall j | 0 <= j < |r| ensures LastHit(ops, s[0]) < LastHit(ops, r[j]) {
        WithoutMember(rest, id, j);
        var k :| 0 <= k < |rest| && rest[k] == r[j];
      }
      assert ByRecency([s[0]] + r, ops);
      WithoutHead(s, id);
    }
  }

  // Later operations on other ids leave the order of the rest alone.
  lemma OneMoreOp<Id>(order: seq<Id>, ops: seq<Op<Id>>, op: Op<Id>)
    requires ByRecency(order, ops) && (op.Hit? ==> op.id !in order)
    ensures ByRecency(order, ops + [op])
  {
    var ops' := ops + [op];
    assert ops'[..|ops'| - 1] == ops;
    forall i | 0 <= i < |order| ensures LastHit(ops', order[i]) == LastHit(ops, order[i]) {
      assert order[i] in order;
    }
  }

  lemma HitByRecency<Id>(order: seq<Id>, ops: seq<Op<Id>>, id: Id, limit: nat)
    requires ByRecency(order, ops)
    ensures ByRecency(HitOrder(order, id, limit), ops + [Hit(id)])
  {
    WithoutMembers(order, id);
    WithoutByRecency(order, id, ops);
    hide Without, LastHit;
    AppendedByRecency(Without(order, id), ops, id);
    assert ByRecency(Without(order, id) + [id], ops + [Hit(id)]);
  }

  /** On every run the queue lists its ids by their last hit, and never more than the limit. */
  lemma {:induction false} RunsKeepOrder<Id>(ops: seq<Op<Id>>, limit: nat)
    ensures ByRecency(OrderAfter(ops, limit), ops)
    ensures |OrderAfter(ops, limit)| <= limit
  {
    if ops != [] {
      var n := |ops| - 1;
      var before := OrderAfter(ops[..n], limit);
      RunsKeepOrder(ops[..n], limit);
      assert ops == ops[..n] + [ops[n]];
      match ops[n]
      case Hit(id) =>
        HitByRecency(before, ops[..n], id, limit);
        HitSize(before, id, limit);
      case Delete(id) =>
        WithoutMembers(before, id);
        WithoutByRecency(before, id, ops[..n]);
        OneMoreOp(Without(before, id), ops[..n], ops[n]);
      case Clear =>
    }
  }

  lemma HitSize<Id>(order: seq<Id>, id: Id, limit: nat)
    requires |order| <= limit
    ensures |HitOrder(order, id, limit)| <= limit
  {
    WithoutMembers(order, id);
  }

  /** What a hit throws out was hit longer ago than everything that stays. */
  lemma EvictedIsOldest<Id>(ops: seq<Op<Id>>, limit: nat, id: Id)
    ensures var order := OrderAfter(ops, limit);
            var e, ops' := Evicted(order, id, limit), ops + [Hit(id)];
            && (e.Some? <==> id !in order && |order| == limit)
            && (e.Some? ==>
                  && e.value !in OrderAfter(ops', limit)
                  && forall x :: x in OrderAfter(ops', limit) ==> LastHit(ops', e.value) < LastHit(ops', x))
  {
    var order := OrderAfter(ops, limit);
    var ops' := ops + [Hit(id)];
    assert ops'[..|ops'| - 1] == ops;
    RunsKeepOrder(ops, limit);
    if id !in order && |order| == limit {
      NotThere(order, id);
      var all := order + [id];
      assert OrderAfter(ops', limit) == all[1..];
      AppendedByRecency(order, ops, id);
      hide LastHit;
      assert forall x :: x in all[1..] ==> exists i :: 1 <= i < |all| && all[i] == x;
    }
  }

  lemma AppendedByRecency<Id>(order: seq<Id>, ops: seq<Op<Id>>, id: Id)
    requires ByRecency(order, ops) && id !in order
    ensures ByRecency(order + [id], ops + [Hit(id)])
  {
    OneMoreOp(order, ops, Hit(id));
    assert LastHit(ops + [Hit(id)], id) == |ops|;
    hide LastHit;
  }

  // ----- Hits in a row -----

  /** The list after a row of hits. */
  function Hits<Id(==)>(order: seq<Id>, ids: seq<Id>, limit: nat): seq<Id>
    decreases |ids|
  {
    if ids == [] then order else Hits(HitOrder(order, ids[0], limit), ids[1..], limit)
  }

  lemma {:induction false} HitsConcat<Id>(order: seq<Id>, a: seq<Id>, b: seq<Id>, limit: nat)
    ensures Hits(order, a + b, limit) == Hits(Hits(order, a, limit), b, limit)
    decreases |a|
  {
    hide HitOrder;
    if a == [] {
      assert a + b == b;
    } else {
      assert (a + b)[1..] == a[1..] + b;
      HitsConcat(HitOrder(order, a[0], limit), a[1..], b, limit);
    }
  }

  lemma HitsOne<Id>(order: seq<Id>, id: Id, limit: nat)
    ensures Hits(order, [id], limit) == HitOrder(order, id, limit)
  {
    hide HitOrder;
    assert [id][1..] == [];
  }

  /** The different ids of a row, by their last occurrence. */
  function Different<Id(==)>(ids: seq<Id>): seq<Id> {
    if ids == [] then [] else if ids[0] in ids[1..] then Different(ids[1..]) else [ids[0]] + Different(ids[1..])
  }

  function Last<T>(s: seq<T>, n: nat): seq<T> {
    if |s| <= n then s else s[|s| - n..]
  }

  /** The last `n` different ids of a row. */
  function Recent<Id(==)>(ids: seq<Id>, n: nat): seq<Id> {
    Last(Different(ids), n)
  }

  lemma {:induction false} DifferentMembers<Id>(ids: seq<Id>)
    ensures Distinct(Different(ids)) && forall x :: x in Different(ids) <==> x in ids
  {
    if ids != [] { DifferentMembers(ids[1..]); }
  }

  lemma {:induction false} WithoutCons<Id>(x: Id, s: seq<Id>, id: Id)
    ensures Without([x] + s, id) == (if x == id then [] else [x]) + Without(s, id)
  {
    assert ([x] + s)[1..] == s;
  }

  // One more id at the end takes its earlier place away.
  lemma {:induction false} DifferentAppend<Id>(ids: seq<Id>, id: Id)
    ensures Different(ids + [id]) == Without(Different(ids), id) + [id]
  {
    if ids == [] {
      assert Different([id]) == [id] by { assert [id][1..] == []; }
      assert ids + [id] == [id];
    } else {
      var x, rest := ids[0], ids[1..];
      assert (ids + [id])[1..] == rest + [id];
      DifferentAppend(rest, id);
      DifferentMembers(rest);
      if x !in rest {
        WithoutCons(x, Different(rest), id);
        if x == id { WithoutAbsent(Different(rest), id); }
      }
    }
  }

  lemma {:induction false} WithoutConcat<Id>(a: seq<Id>, b: seq<Id>, id: Id)
    ensures Without(a + b, id) == Without(a, id) + Without(b, id)
  {
    if a == [] {
      assert a + b == b;
    } else {
      assert (a + b)[1..] == a[1..] + b;
      WithoutConcat(a[1..], b, id);
    }
  }

  lemma {:induction false} WithoutOnce<Id>(s: seq<Id>, id: Id)
    requires Distinct(s) && id in s
    ensures |Without(s, id)| == |s| - 1
  {
    if s[0] == id {
      WithoutAbsent(s[1..], id);
    } else {
      WithoutOnce(s[1..], id);
    }
  }

  lemma LastSplit<T>(s: seq<T>, n: nat)
    requires |s| > n
    ensures s == s[..|s| - n] + Last(s, n)
  {}

  lemma LastAfter<T>(a: seq<T>, b: seq<T>, n: nat)
    requires |b| >= n
    ensures Last(a + b, n) == Last(b, n)
  {
    if a + b == b { assert a == []; }
  }

  // A hit on the last `n` of different ids gives the last `n` with the id moved to the end.
  lemma {:induction false} HitLast<Id>(s: seq<Id>, id: Id, n: nat)
    requires Distinct(s)
    ensures HitOrder(Last(s, n), id, n) == Last(Without(s, id) + [id], n)
  {
    hide Without;
    var t := Last(s, n);
    if |s| <= n {
      if id in s { WithoutOnce(s, id); } else { NotThere(s, id); }
    } else {
      var a := s[..|s| - n];
      LastSplit(s, n);
      WithoutConcat(a, t, id);
      var moved := Without(t, id) + [id];
      assert Without(s, id) + [id] == Without(a, id) + moved;
      if id in t { WithoutOnce(t, id); } else { NotThere(t, id); }
      LastAfter(Without(a, id), moved, n);
    }
  }

  /** After any row of hits the queue lists the last different ids, up to its limit. */
  lemma {:induction false} HitsAreRecent<Id>(ids: seq<Id>, limit: nat)
    ensures Hits([], ids, limit) == Recent(ids, limit)
  {
    hide HitOrder, Hits, Different;
    if ids == [] {
      NoHits<Id>(limit);
    } else {
      var n := |ids| - 1;
      var before := ids[..n];
      HitsAreRecent(before, limit);
      assert ids == before + [ids[n]];
      HitsConcat([], before, [ids[n]], limit);
      HitsOne(Hits([], before, limit), ids[n], limit);
      DifferentMembers(before);
      DifferentAppend(before, ids[n]);
      HitLast(Different(before), ids[n], limit);
    }
  }

  lemma NoHits<Id>(limit: nat)
    ensures Hits<Id>([], [], limit) == [] == Different<Id>([])
  {}
}
