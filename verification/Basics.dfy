/** Identifiers and the small sequence vocabulary the other modules share. */
module Basics {

  datatype Option<+T> = None | Some(value: T) {
    function GetOr(default: T): T {
      if Some? then value else default
    }
  }

  /** Task and job ids are minted as (0, nextId), so the low half is the id.
      Worker ids are opaque. Zero is the nil id in every family. */
  type TaskId = nat
  type JobId = nat
  type WorkerId = nat
  type AssetId = nat

  const NIL := 0

  /** No element occurs twice. */
  ghost predicate Distinct<T(!new)>(q: seq<T>) {
    forall x :: multiset(q)[x] <= 1
  }

  /** `order` lists every element of `keys` exactly once: one of the orders a
      hash table may be walked in. */
  ghost predicate Enumerates<T(!new)>(order: seq<T>, keys: set<T>) {
    multiset(order) == multiset(keys)
  }

  lemma EnumeratesMembers<T(!new)>(order: seq<T>, keys: set<T>)
    requires Enumerates(order, keys)
    ensures Distinct(order)
    ensures forall x :: x in order <==> x in keys
  {
    forall x ensures x in order <==> x in keys {
      assert x in multiset(order) <==> x in multiset(keys);
    }
  }

  /** Every finite set can be walked. */
  lemma {:induction false} SomeOrder<T(!new)>(keys: set<T>) returns (order: seq<T>)
    ensures Enumerates(order, keys)
    decreases keys
  {
    if keys == {} {
      order := [];
    } else {
      var x :| x in keys;
      var rest := SomeOrder(keys - {x});
      order := rest + [x];
      assert keys == keys - {x} + {x};
    }
  }

  lemma DistinctInit<T(!new)>(q: seq<T>)
    requires q != [] && Distinct(q)
    ensures Distinct(q[..|q| - 1]) && q[|q| - 1] !in q[..|q| - 1]
  {
    var init, last := q[..|q| - 1], q[|q| - 1];
    assert q == init + [last];
    assert multiset(q)[last] <= 1;
    forall x ensures multiset(init)[x] <= 1 {
      assert multiset(q)[x] <= 1;
    }
  }

  lemma AppendAssoc<T>(a: seq<T>, b: seq<T>, c: seq<T>)
    ensures (a + b) + c == a + (b + c)
  {
  }

  /** The position of the first element satisfying `p`. */
  function FirstMatch<T>(q: seq<T>, p: T -> bool): (r: Option<nat>)
    ensures r.Some? ==> r.value < |q| && p(q[r.value]) && forall i :: 0 <= i < r.value ==> !p(q[i])
    ensures r.None? ==> forall i :: 0 <= i < |q| ==> !p(q[i])
  {
    if q == [] then None
    else if p(q[0]) then Some(0)
    else match FirstMatch(q[1..], p)
      case None => None
      case Some(k) => Some(k + 1)
  }

  /** `FirstMatch` is the only function meeting its contract. */
  lemma FirstMatchUnique<T>(q: seq<T>, p: T -> bool, k: nat)
    requires k < |q| && p(q[k]) && forall i :: 0 <= i < k ==> !p(q[i])
    ensures FirstMatch(q, p) == Some(k)
  {
  }

  function RemoveAt<T>(q: seq<T>, i: nat): (r: seq<T>)
    requires i < |q|
    ensures multiset(r) == multiset(q) - multiset{q[i]}
  {
    assert q == q[..i] + [q[i]] + q[i + 1..];
    q[..i] + q[i + 1..]
  }

  /** The elements satisfying `p`, in order. */
  function Filter<T(!new)>(q: seq<T>, p: T -> bool): (r: seq<T>)
    ensures forall x :: multiset(r)[x] == if p(x) then multiset(q)[x] else 0
    ensures forall x :: x in r <==> x in q && p(x)
  {
    if q == [] then []
    else
      var rest := Filter(q[..|q| - 1], p);
      assert q == q[..|q| - 1] + [q[|q| - 1]];
      if p(q[|q| - 1]) then rest + [q[|q| - 1]] else rest
  }

  /** Every occurrence of `x` removed. */
  function Without<T(!new, ==)>(q: seq<T>, x: T): (r: seq<T>)
    ensures forall y :: multiset(r)[y] == if y != x then multiset(q)[y] else 0
    ensures forall y :: y in r <==> y in q && y != x
  {
    Filter(q, y => y != x)
  }

  function UpTo(n: nat): (r: seq<nat>)
    ensures |r| == n && forall i :: 0 <= i < n ==> r[i] == i
  {
    if n == 0 then [] else UpTo(n - 1) + [n - 1]
  }

  /** Each number below `n`, once. */
  function Numbers(n: nat): (m: multiset<nat>)
    ensures |m| == n && forall x: nat :: m[x] == if x < n then 1 else 0
  {
    if n == 0 then multiset{} else Numbers(n - 1) + multiset{n - 1}
  }
}
