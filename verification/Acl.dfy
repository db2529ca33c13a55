/** Access lists: rights are kept as lists of users, and must behave as sets. */
module Acl {
  import opened Wrappers

  datatype Right = Read | Write | Delete | Execute

  // ----- One list -----

  /** The list without the first occurrence. */
  function Without(list: seq<string>, user: string): seq<string> {
    if list == [] then [] else if list[0] == user then list[1..] else [list[0]] + Without(list[1..], user)
  }

  function With(list: seq<string>, user: string): seq<string> {
    if user in list then list else list + [user]
  }

  method Del(arr: seq<string>, s: string) returns (narr: seq<string>)
    ensures narr == Without(arr, s)
  {
    narr := [];
    assert arr[0..] == arr && [] + Without(arr, s) == Without(arr, s);
    for i := 0 to |arr|
      invariant Without(arr, s) == narr + Without(arr[i..], s)
    {
      var item := arr[i];
      assert arr[i..][0] == item && arr[i..][1..] == arr[i + 1..];
      if item != s {
        Regroup(narr, [item], Without(arr[i + 1..], s));
        narr := narr + [item];
      } else {
        narr := narr + arr[i + 1..];
        return;
      }
    }
  }

  method Insert(arr: seq<string>, s: string) returns (narr: seq<string>)
    ensures narr == With(arr, s)
  {
    for i := 0 to |arr|
      invariant s !in arr[..i]
    {
      if arr[i] == s { return arr; }
    }
    return arr + [s];
  }

  method Holds(list: seq<string>, user: string) returns (found: bool)
    ensures found <==> user in list
  {
    found := false;
    for i := 0 to |list|
      invariant !found && user !in list[..i]
    {
      if user == list[i] {
        found := true;
        break;
      }
    }
  }

  lemma WithoutFirst(x: string, rest: seq<string>, user: string)
    ensures Without([x] + rest, user) == if x == user then rest else [x] + Without(rest, user)
  {
    assert ([x] + rest)[1..] == rest;
  }

  /** Removal takes the first occurrence out of its place. */
  lemma {:induction false} RemovedInPlace(a: seq<string>, user: string, b: seq<string>)
    requires user !in a
    ensures Without(a + ([user] + b), user) == a + b
  {
    hide Without;
    if a == [] {
      WithoutFirst(user, b, user);
      assert a + ([user] + b) == [user] + b && a + b == b;
    } else {
      var x, rest := a[0], a[1..];
      RemovedInPlace(rest, user, b);
      WithoutFirst(x, rest + ([user] + b), user);
      Regroup([x], rest, [user] + b);
      Regroup([x], rest, b);
      assert a == [x] + rest;
    }
  }

  /** A new user is listed last, and one that is listed stays where it is. */
  lemma InsertedLast(list: seq<string>, user: string)
    ensures list <= With(list, user) && |With(list, user)| <= |list| + 1
    ensures user !in list ==> |With(list, user)| == |list| + 1 && With(list, user)[|list|] == user
    ensures user in list ==> With(list, user) == list
  {}

  // ----- How often a user is listed -----

  lemma {:induction false} WithoutCounts(list: seq<string>, user: string, other: string)
    ensures multiset(Without(list, user))[other] ==
            if other == user && user in list then multiset(list)[other] - 1 else multiset(list)[other]
  {
    if list != [] {
      assert list == [list[0]] + list[1..];
      if list[0] != user { WithoutCounts(list[1..], user, other); }
    }
  }

  lemma WithCounts(list: seq<string>, user: string, other: string)
    ensures multiset(With(list, user))[other] ==
            if other == user && user !in list then 1 else multiset(list)[other]
  {}

  /** Removal takes a user off the list exactly if listed no more than once. */
  lemma RemovedIff(list: seq<string>, user: string)
    ensures user !in Without(list, user) <==> multiset(list)[user] <= 1
  {
    WithoutCounts(list, user, user);
    hide Without;
    assert user in Without(list, user) <==> multiset(Without(list, user))[user] > 0;
    assert user in list <==> multiset(list)[user] > 0;
  }

  // ----- Runs -----

  /** Rights granted to a user, or taken away. */
  datatype Op = Op(grant: bool, user: string, rights: set<Right>)

  function Step(list: seq<string>, op: Op, right: Right): seq<string> {
    if right !in op.rights then list else if op.grant then With(list, op.user) else Without(list, op.user)
  }

  function Run(list: seq<string>, ops: seq<Op>, right: Right): seq<string>
    decreases |ops|
  {
    if ops == [] then list else Run(Step(list, ops[0], right), ops[1..], right)
  }

  /** How often a user is listed after the operations. */
  function Times(n: nat, ops: seq<Op>, user: string, right: Right): nat
    decreases |ops|
  {
    if ops == [] then n
    else
      var op := ops[0];
      var m := if right !in op.rights || op.user != user then n
               else if op.grant then (if n == 0 then 1 else n)
               else (if n == 0 then 0 else n - 1);
      Times(m, ops[1..], user, right)
  }

  lemma {:induction false} StepCounts(list: seq<string>, op: Op, right: Right, user: string)
    ensures multiset(Step(list, op, right))[user] == Times(multiset(list)[user], [op], user, right)
  {
    WithCounts(list, op.user, user);
    WithoutCounts(list, op.user, user);
    hide With, Without;
    assert [op][1..] == [] && [op][0] == op;
    assert op.user in list <==> multiset(list)[op.user] > 0;
  }

  /** From any list: the exact number of times a user is listed after any operations. */
  lemma {:induction false} RunCounts(list: seq<string>, ops: seq<Op>, right: Right, user: string)
    ensures multiset(Run(list, ops, right))[user] == Times(multiset(list)[user], ops, user, right)
    decreases |ops|
  {
    hide Step;
    if ops != [] {
      StepCounts(list, ops[0], right, user);
      RunCounts(Step(list, ops[0], right), ops[1..], right, user);
      TimesOne(multiset(list)[user], ops, user, right);
    }
  }

  lemma {:induction false} TimesOne(n: nat, ops: seq<Op>, user: string, right: Right)
    requires ops != []
    ensures Times(n, ops, user, right) == Times(Times(n, [ops[0]], user, right), ops[1..], user, right)
  {
    assert [ops[0]][1..] == [] && [ops[0]][0] == ops[0];
  }

  ghost predicate NoDuplicates(list: seq<string>) {
    forall user :: multiset(list)[user] <= 1
  }

  predicate Touches(op: Op, user: string, right: Right) {
    op.user == user && right in op.rights
  }

  /** Granted by the last operation that touched the user's right, or from the start if none did. */
  function Granted(initially: bool, ops: seq<Op>, user: string, right: Right): bool {
    if ops == [] then initially
    else
      var n := |ops| - 1;
      if Touches(ops[n], user, right) then ops[n].grant else Granted(initially, ops[..n], user, right)
  }

  lemma {:induction false} RunAppend(list: seq<string>, ops: seq<Op>, op: Op, right: Right)
    ensures Run(list, ops + [op], right) == Step(Run(list, ops, right), op, right)
    decreases |ops|
  {
    hide Step;
    if ops == [] {
      assert ops + [op] == [op] && [op][1..] == [];
    } else {
      assert (ops + [op])[1..] == ops[1..] + [op];
      RunAppend(Step(list, ops[0], right), ops[1..], op, right);
    }
  }

  lemma StepKeepsSet(list: seq<string>, op: Op, right: Right)
    requires NoDuplicates(list)
    ensures NoDuplicates(Step(list, op, right))
    ensures forall user ::
              user in Step(list, op, right) <==> if Touches(op, user, right) then op.grant else user in list
  {
    forall user
      ensures multiset(Step(list, op, right))[user] <= 1
      ensures user in Step(list, op, right) <==> if Touches(op, user, right) then op.grant else user in list
    {
      WithCounts(list, op.user, user);
      WithoutCounts(list, op.user, user);
      hide With, Without;
      assert user in list <==> multiset(list)[user] > 0;
      assert user in Step(list, op, right) <==> multiset(Step(list, op, right))[user] > 0;
    }
  }

  /**
    * From a list without duplicates, after any grants and removals: still without duplicates, and a user is
    * listed exactly if the last operation on the right granted it.
    */
  lemma {:induction false} ListsAreSets(list: seq<string>, ops: seq<Op>, right: Right)
    requires NoDuplicates(list)
    ensures NoDuplicates(Run(list, ops, right))
    ensures forall user :: user in Run(list, ops, right) <==> Granted(user in list, ops, user, right)
    decreases |ops|
  {
    hide Step, NoDuplicates, Touches;
    if ops != [] {
      var n := |ops| - 1;
      ListsAreSets(list, ops[..n], right);
      assert ops == ops[..n] + [ops[n]];
      RunAppend(list, ops[..n], ops[n], right);
      StepKeepsSet(Run(list, ops[..n], right), ops[n], right);
    }
  }

  // ----- The two kinds of access lists -----

  class AccessList {
    var owner: string
    var read: seq<string>
    var write: seq<string>
    var delete: seq<string>

    ghost function List(right: Right): seq<string>
      reads this
    {
      match right case Read => read case Write => write case Delete => delete case Execute => []
    }

    method SetOwner(user: string)
      modifies this`owner
      ensures owner == user
    {
      owner := user;
    }

    method UnSet(user: string, r: set<Right>)
      modifies this
      ensures owner == old(owner)
      ensures forall right :: right != Execute ==> List(right) == Step(old(List(right)), Op(false, user, r), right)
    {
      if Read in r { read := Del(read, user); }
      if Write in r { write := Del(write, user); }
      if Delete in r { delete := Del(delete, user); }
    }

    method Set(user: string, r: set<Right>)
      modifies this
      ensures owner == old(owner)
      ensures forall right :: right != Execute ==> List(right) == Step(old(List(right)), Op(true, user, r), right)
    {
      if Read in r { read := Insert(read, user); }
      if Write in r { write := Insert(write, user); }
      if Delete in r { delete := Insert(delete, user); }
    }

    method Check(user: string) returns (r: map<Right, bool>)
      ensures r.Keys == {Read, Write, Delete} && forall right :: right in r ==> (r[right] <==> user in List(right))
    {
      var inRead := Holds(read, user);
      var inWrite := Holds(write, user);
      var inDelete := Holds(delete, user);
      r := map[Read := inRead, Write := inWrite, Delete := inDelete];
    }

    /** Any operations in a row. */
    method Apply(ops: seq<Op>)
      modifies this
      ensures forall right :: right != Execute ==> List(right) == Run(old(List(right)), ops, right)
    {
      hide Step;
      assert ops[..|ops|] == ops && ops[..0] == [];
      for i := 0 to |ops|
        invariant forall right :: right != Execute ==> List(right) == Run(old(List(right)), ops[..i], right)
      {
        forall right | right != Execute
          ensures Run(old(List(right)), ops[..i + 1], right)
                  == Step(Run(old(List(right)), ops[..i], right), ops[i], right)
        {
          assert ops[..i + 1] == ops[..i] + [ops[i]];
          RunAppend(old(List(right)), ops[..i], ops[i], right);
        }
        if ops[i].grant { Set(ops[i].user, ops[i].rights); } else { UnSet(ops[i].user, ops[i].rights); }
      }
    }
  }

  class ClientGroupAccessList {
    var owner: string
    var read: seq<string>
    var write: seq<string>
    var delete: seq<string>
    var execute: seq<string>

    ghost function List(right: Right): seq<string>
      reads this
    {
      match right case Read => read case Write => write case Delete => delete case Execute => execute
    }

    method UnSet(user: string, r: set<Right>)
      modifies this
      ensures owner == old(owner)
      ensures forall right :: List(right) == Step(old(List(right)), Op(false, user, r), right)
    {
      if Read in r { read := Del(read, user); }
      if Write in r { write := Del(write, user); }
      if Delete in r { delete := Del(delete, user); }
      if Execute in r { execute := Del(execute, user); }
    }

    method Set(user: string, r: set<Right>)
      modifies this
      ensures owner == old(owner)
      ensures forall right :: List(right) == Step(old(List(right)), Op(true, user, r), right)
    {
      if Read in r { read := Insert(read, user); }
      if Write in r { write := Insert(write, user); }
      if Delete in r { delete := Insert(delete, user); }
      if Execute in r { execute := Insert(execute, user); }
    }

    method Check(user: string) returns (r: map<Right, bool>)
      ensures r.Keys == {Read, Write, Delete, Execute}
      ensures forall right :: right in r ==> (r[right] <==> user in List(right))
    {
      var inRead := Holds(read, user);
      var inWrite := Holds(write, user);
      var inDelete := Holds(delete, user);
      var inExecute := Holds(execute, user);
      r := map[Read := inRead, Write := inWrite, Delete := inDelete, Execute := inExecute];
    }

    /** Any operations in a row. */
    method Apply(ops: seq<Op>)
      modifies this
      ensures forall right :: List(right) == Run(old(List(right)), ops, right)
    {
      hide Step;
      assert ops[..|ops|] == ops && ops[..0] == [];
      for i := 0 to |ops|
        invariant forall right :: List(right) == Run(old(List(right)), ops[..i], right)
      {
        forall right
          ensures Run(old(List(right)), ops[..i + 1], right)
                  == Step(Run(old(List(right)), ops[..i], right), ops[i], right)
        {
          assert ops[..i + 1] == ops[..i] + [ops[i]];
          RunAppend(old(List(right)), ops[..i], ops[i], right);
        }
        if ops[i].grant { Set(ops[i].user, ops[i].rights); } else { UnSet(ops[i].user, ops[i].rights); }
      }
    }
  }
}
