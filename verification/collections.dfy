/** Small sequence helpers the traversal is written with: the `Option`
    result of a lookup, plain reversal (the model of `ModelImpl::Reverse`)
    and concatenation of a list of lists (the source nodes of all ports). */
module Collections {

  /** The result of a lookup that may find nothing (a nullable pointer). */
  datatype Option<+T> = None | Some(value: T)

  /** `xs` read back to front. */
  function Reverse<T>(xs: seq<T>): (r: seq<T>)
    ensures |r| == |xs|
    ensures forall i :: 0 <= i < |xs| ==> r[i] == xs[|xs| - 1 - i]
  {
    if |xs| == 0 then [] else Reverse(xs[1..]) + [xs[0]]
  }

  /** The lists of `xss` joined in order. */
  function Flatten<T(!new)>(xss: seq<seq<T>>): (r: seq<T>)
    ensures |r| == 0 <==> forall p :: 0 <= p < |xss| ==> |xss[p]| == 0
    ensures forall y :: y in r <==> exists p :: 0 <= p < |xss| && y in xss[p]
  {
    if |xss| == 0 then []
    else
      var rest := Flatten(xss[1..]);
      assert forall p :: 1 <= p < |xss| ==> xss[p] == xss[1..][p - 1];
      xss[0] + rest
  }

  /** Reversing the outer list does not change which elements are joined. */
  lemma FlattenReverse<T(!new)>(xss: seq<seq<T>>, y: T)
    ensures y in Flatten(Reverse(xss)) <==> y in Flatten(xss)
  {
    var rev := Reverse(xss);
    if y in Flatten(xss) {
      var p :| 0 <= p < |xss| && y in xss[p];
      assert rev[|xss| - 1 - p] == xss[p];
    }
    if y in Flatten(rev) {
      var p :| 0 <= p < |rev| && y in rev[p];
      assert rev[p] == xss[|xss| - 1 - p];
    }
  }

  /** Joining one more list at the end appends its elements. */
  lemma {:induction false} FlattenAppend<T(!new)>(xss: seq<seq<T>>, xs: seq<T>)
    ensures Flatten(xss + [xs]) == Flatten(xss) + xs
  {
    if |xss| == 0 {
      assert xss + [xs] == [xs];
      assert Flatten([xs]) == xs + Flatten([]);
    } else {
      assert (xss + [xs])[1..] == xss[1..] + [xs];
      FlattenAppend(xss[1..], xs);
    }
  }

  /** Reversing the outer list keeps every element with its multiplicity. */
  lemma {:induction false} FlattenReverseMultiset<T(!new)>(xss: seq<seq<T>>)
    ensures multiset(Flatten(Reverse(xss))) == multiset(Flatten(xss))
  {
    if |xss| > 0 {
      FlattenReverseMultiset(xss[1..]);
      FlattenAppend(Reverse(xss[1..]), xss[0]);
    }
  }

  /** Reversed and joined, the first list comes last. */
  lemma FlattenReverseCons<T(!new)>(xss: seq<seq<T>>)
    ensures |xss| > 0 ==> Flatten(Reverse(xss)) == Flatten(Reverse(xss[1..])) + xss[0]
  {
    if |xss| > 0 {
      FlattenAppend(Reverse(xss[1..]), xss[0]);
    }
  }
}
