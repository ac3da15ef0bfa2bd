/** Stock types shared by the models. */
module Basics {
  datatype Option<+T> = None | Some(value: T) {
    function Or(other: T): T
    {
      if Some? then value else other
    }
  }

  datatype Result<+T, +E> = Ok(value: T) | Err(error: E) {
    predicate IsFailure()
    {
      Err?
    }

    function PropagateFailure<U>(): Result<U, E>
      requires Err?
    {
      Err(error)
    }

    function Extract(): T
      requires Ok?
    {
      value
    }
  }

  /** One octet. */
  type byte = x: int | 0 <= x < 256

  /** All elements of the sequences, end to end. */
  function Flatten<T>(parts: seq<seq<T>>): (all: seq<T>)
  {
    if parts == [] then [] else parts[0] + Flatten(parts[1..])
  }

  lemma {:induction false} FlattenAppend<T>(a: seq<seq<T>>, b: seq<seq<T>>)
    ensures Flatten(a + b) == Flatten(a) + Flatten(b)
  {
    if a == [] {
      assert a + b == b;
    } else {
      assert (a + b)[1..] == a[1..] + b;
      FlattenAppend(a[1..], b);
    }
  }

  lemma {:induction false} FlattenSnoc<T>(a: seq<seq<T>>, last: seq<T>)
    ensures Flatten(a + [last]) == Flatten(a) + last
  {
    FlattenAppend(a, [last]);
    assert Flatten([last]) == last + Flatten([]);
  }

  function Copies<T>(x: T, n: nat): (all: seq<T>)
    ensures |all| == n && forall k :: 0 <= k < n ==> all[k] == x
  {
    seq(n, k => x)
  }

  lemma {:induction false} SubsetSize<T>(a: set<T>, b: set<T>)
    requires a <= b
    ensures |a| <= |b|
  {
    if a != {} {
      var x :| x in a;
      SubsetSize(a - {x}, b - {x});
    }
  }

  /** The n integers from low on. */
  function Range(low: int, n: nat): (r: set<int>)
    ensures |r| == n && forall k :: k in r <==> low <= k < low + n
  {
    if n == 0 then {} else Range(low, n - 1) + {low + n - 1}
  }
}
