/** Sequence helpers for the list manipulation the providers perform. */
module Seqs {

  /** `[].concat(...lists)`: the lists joined end to end, in order. */
  function Flatten<T>(ss: seq<seq<T>>): (r: seq<T>)
  {
    if |ss| == 0 then [] else ss[0] + Flatten(ss[1..])
  }

  lemma {:induction false} FlattenAppend<T>(a: seq<seq<T>>, b: seq<seq<T>>)
    ensures Flatten(a + b) == Flatten(a) + Flatten(b)
  {
    if |a| == 0 {
      assert a + b == b;
    } else {
      assert (a + b)[1..] == a[1..] + b;
      FlattenAppend(a[1..], b);
    }
  }

  /** The total number of elements in a list of lists. */
  function TotalLength<T>(ss: seq<seq<T>>): nat
  {
    if |ss| == 0 then 0 else |ss[0]| + TotalLength(ss[1..])
  }

  lemma {:induction false} FlattenLength<T>(ss: seq<seq<T>>)
    ensures |Flatten(ss)| == TotalLength(ss)
  {
    if |ss| > 0 {
      FlattenLength(ss[1..]);
    }
  }

  /** `xs.filter(x => allowed.includes(x))`: the elements of `xs` that occur in
      `allowed`, in the order of `xs`, duplicates kept. */
  function KeepMembers<T(==,!new)>(xs: seq<T>, allowed: seq<T>): (r: seq<T>)
    ensures forall x :: x in r <==> x in xs && x in allowed
    ensures forall x :: multiset(r)[x] == if x in allowed then multiset(xs)[x] else 0
    ensures |r| <= |xs|
  {
    if |xs| == 0 then []
    else
      var rest := KeepMembers(xs[1..], allowed);
      assert xs == [xs[0]] + xs[1..];
      if xs[0] in allowed then [xs[0]] + rest else rest
  }

  /** Filtering distributes over concatenation: the kept elements keep their order. */
  lemma {:induction false} KeepMembersAppend<T(!new)>(a: seq<T>, b: seq<T>, allowed: seq<T>)
    ensures KeepMembers(a + b, allowed) == KeepMembers(a, allowed) + KeepMembers(b, allowed)
  {
    if |a| > 0 {
      assert (a + b)[1..] == a[1..] + b;
      KeepMembersAppend(a[1..], b, allowed);
    } else {
      assert a + b == b;
    }
  }
}
