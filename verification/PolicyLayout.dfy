/**
 The two layouts a policy and the robot use: observations are reordered and re-signed on the way
 in, actions on the way out. Both tables are optional, and may cover only a prefix.
 */
module PolicyLayout {
  import opened Arithmetic
  import opened Orientation

  function At(order: seq<nat>, i: nat): nat {
    if i < |order| then order[i] else i
  }

  function SignedAt(signs: seq<real>, i: nat, x: real): real {
    if i < |signs| then Times(signs[i], x) else x
  }

  function SignAt(signs: seq<real>, i: nat): real {
    if i < |signs| then signs[i] else 1.0
  }

  ghost predicate Indexes(order: seq<nat>, n: nat) {
    |order| <= n && forall i :: 0 <= i < |order| ==> order[i] < n
  }

  function Reordered(order: seq<nat>, vec: seq<real>): seq<real>
    requires Indexes(order, |vec|)
  {
    seq(|vec|, i requires 0 <= i < |vec| => vec[At(order, i)])
  }

  function Signed(signs: seq<real>, vec: seq<real>): seq<real> {
    seq(|vec|, i requires 0 <= i < |vec| => SignedAt(signs, i, vec[i]))
  }

  /** Serves both the observations' table and the actions'. */
  method Reindex(order: seq<nat>, vec: seq<real>) returns (r: seq<real>)
    requires Indexes(order, |vec|)
    ensures r == Reordered(order, vec)
    ensures |r| == |vec| && forall k :: 0 <= k < |vec| ==> r[k] == if k < |order| then vec[order[k]] else vec[k]
  {
    r := vec;
    if order != [] {
      for i := 0 to |order|
        invariant |r| == |vec|
        invariant forall k :: 0 <= k < |vec| ==> r[k] == if k < i then vec[order[k]] else vec[k]
      {
        r := r[i := vec[order[i]]];
      }
    }
  }

  method ReSign(signs: seq<real>, vec: seq<real>) returns (r: seq<real>)
    requires |signs| <= |vec|
    ensures r == Signed(signs, vec)
    ensures |r| == |vec| && forall k :: 0 <= k < |vec| ==> r[k] == if k < |signs| then signs[k] * vec[k] else vec[k]
  {
    r := vec;
    if signs != [] {
      for i := 0 to |signs|
        invariant |r| == |vec|
        invariant forall k :: 0 <= k < |vec| ==> r[k] == if k < i then Times(signs[k], vec[k]) else vec[k]
      {
        r := r[i := Times(signs[i], vec[i])];
      }
    }
  }

  /** Into the policy's layout and back into the robot's. */
  function ThereAndBack(
    order: seq<nat>, signs: seq<real>, backOrder: seq<nat>, backSigns: seq<real>, vec: seq<real>): seq<real>
    requires Indexes(order, |vec|) && Indexes(backOrder, |vec|)
  {
    Signed(backSigns, Reordered(backOrder, Signed(signs, Reordered(order, vec))))
  }

  function Probe(n: nat, i: nat): seq<real> {
    seq(n, k => if k == i then 1.0 else 0.0)
  }

  lemma SignedIs(signs: seq<real>, i: nat, x: real)
    ensures SignedAt(signs, i, x) == Times(SignAt(signs, i), x)
  {
  }

  /** Element i comes back from where both orders send it, with both signs. */
  lemma BackAt(order: seq<nat>, signs: seq<real>, backOrder: seq<nat>, backSigns: seq<real>, vec: seq<real>, i: nat)
    requires Indexes(order, |vec|) && Indexes(backOrder, |vec|) && i < |vec|
    ensures At(order, At(backOrder, i)) < |vec|
    ensures ThereAndBack(order, signs, backOrder, backSigns, vec)[i]
            == Times(Times(SignAt(backSigns, i), SignAt(signs, At(backOrder, i))), vec[At(order, At(backOrder, i))])
  {
    hide Times, SignAt, SignedAt;
    var x := vec[At(order, At(backOrder, i))];
    SignedIs(signs, At(backOrder, i), x);
    SignedIs(backSigns, i, SignedAt(signs, At(backOrder, i), x));
    Associates(SignAt(backSigns, i), SignAt(signs, At(backOrder, i)), x);
  }

  ghost predicate Undone(order: seq<nat>, signs: seq<real>, backOrder: seq<nat>, backSigns: seq<real>, vec: seq<real>)
    requires Indexes(order, |vec|) && Indexes(backOrder, |vec|)
  {
    ThereAndBack(order, signs, backOrder, backSigns, vec) == vec
  }

  /** Index i goes out and comes back, and its two signs multiply to 1. */
  predicate Inverse(order: seq<nat>, signs: seq<real>, backOrder: seq<nat>, backSigns: seq<real>, i: nat) {
    At(order, At(backOrder, i)) == i && Times(SignAt(backSigns, i), SignAt(signs, At(backOrder, i))) == 1.0
  }

  /**
   The action tables undo the observation tables on every vector exactly if the orders are inverse and the
   signs cancel.
   */
  lemma UndoneIff(order: seq<nat>, signs: seq<real>, backOrder: seq<nat>, backSigns: seq<real>, n: nat)
    requires Indexes(order, n) && Indexes(backOrder, n)
    ensures (forall vec :: |vec| == n ==> Undone(order, signs, backOrder, backSigns, vec))
            <==> (forall i :: 0 <= i < n ==> Inverse(order, signs, backOrder, backSigns, i))
  {
    hide Times, At, SignAt, ThereAndBack;
    if forall vec :: |vec| == n ==> Undone(order, signs, backOrder, backSigns, vec) {
      forall i | 0 <= i < n
        ensures Inverse(order, signs, backOrder, backSigns, i)
      {
        assert Undone(order, signs, backOrder, backSigns, Probe(n, i));
        BackAt(order, signs, backOrder, backSigns, Probe(n, i), i);
        Units(Times(SignAt(backSigns, i), SignAt(signs, At(backOrder, i))));
      }
    }
    if forall i :: 0 <= i < n ==> Inverse(order, signs, backOrder, backSigns, i) {
      forall vec | |vec| == n
        ensures Undone(order, signs, backOrder, backSigns, vec)
      {
        KeepsLength(order, signs, backOrder, backSigns, vec);
        forall i | 0 <= i < n
          ensures ThereAndBack(order, signs, backOrder, backSigns, vec)[i] == vec[i]
        {
          assert Inverse(order, signs, backOrder, backSigns, i);
          BackAt(order, signs, backOrder, backSigns, vec, i);
          Units(vec[i]);
        }
      }
    }
  }

  lemma KeepsLength(order: seq<nat>, signs: seq<real>, backOrder: seq<nat>, backSigns: seq<real>, vec: seq<real>)
    requires Indexes(order, |vec|) && Indexes(backOrder, |vec|)
    ensures |ThereAndBack(order, signs, backOrder, backSigns, vec)| == |vec|
  {
  }
}
