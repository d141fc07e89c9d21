/** `Array.prototype.filter`, order-preserving sublists and `Math.max` with a default. */
module Lists {

  /** r is xs with some elements left out, the rest in their original order. */
  predicate IsSublist<T(==)>(r: seq<T>, xs: seq<T>)
    decreases |xs|
  {
    if r == [] then true
    else if xs == [] then false
    else (r[0] == xs[0] && IsSublist(r[1..], xs[1..])) || IsSublist(r, xs[1..])
  }

  /** `xs.filter(p)`: an order-preserving sublist holding exactly the elements that pass p;
      when every element passes, the whole list. */
  function Filter<T(==)>(xs: seq<T>, p: T -> bool): (r: seq<T>)
    ensures |r| <= |xs|
    ensures forall i :: 0 <= i < |r| ==> p(r[i]) && r[i] in xs
    ensures forall i :: 0 <= i < |xs| && p(xs[i]) ==> xs[i] in r
    ensures IsSublist(r, xs)
    ensures (forall i :: 0 <= i < |xs| ==> p(xs[i])) ==> r == xs
  {
    if xs == [] then []
    else
      var rest := Filter(xs[1..], p);
      assert forall i :: 1 <= i < |xs| ==> xs[i] == xs[1..][i - 1];
      if p(xs[0]) then
        assert ([xs[0]] + rest)[1..] == rest;
        [xs[0]] + rest
      else rest
  }

  /** The filter keeps every passing element as often as xs holds it, and no other. */
  lemma {:induction false} FilterCounts<T>(xs: seq<T>, p: T -> bool, x: T)
    ensures multiset(Filter(xs, p))[x] == if p(x) then multiset(xs)[x] else 0
  {
    if xs != [] {
      FilterCounts(xs[1..], p, x);
      assert xs == [xs[0]] + xs[1..];
      if p(xs[0]) {
        assert Filter(xs, p) == [xs[0]] + Filter(xs[1..], p);
      }
    }
  }

  /** Two complementary tests split a list into two counts that add up to its length. */
  lemma {:induction false} FilterComplement<T>(xs: seq<T>, p: T -> bool, q: T -> bool)
    requires forall x :: p(x) <==> !q(x)
    ensures |Filter(xs, p)| + |Filter(xs, q)| == |xs|
  {
    if xs != [] {
      FilterComplement(xs[1..], p, q);
    }
  }

  /** Three mutually exclusive tests never count more elements than the list holds. */
  lemma {:induction false} FilterExclusive3<T>(xs: seq<T>, p: T -> bool, q: T -> bool, s: T -> bool)
    requires forall x :: !(p(x) && q(x)) && !(p(x) && s(x)) && !(q(x) && s(x))
    ensures |Filter(xs, p)| + |Filter(xs, q)| + |Filter(xs, s)| <= |xs|
  {
    if xs != [] {
      FilterExclusive3(xs[1..], p, q, s);
    }
  }

  /** `xs.length ? Math.max(...xs) : dflt`. */
  function MaxOr(xs: seq<int>, dflt: int): (m: int)
    ensures xs == [] ==> m == dflt
    ensures xs != [] ==> m in xs
    ensures forall i :: 0 <= i < |xs| ==> xs[i] <= m
  {
    if xs == [] then dflt
    else if |xs| == 1 then xs[0]
    else
      var m := MaxOr(xs[1..], dflt);
      assert forall i :: 1 <= i < |xs| ==> xs[i] == xs[1..][i - 1];
      if xs[0] >= m then xs[0] else m
  }
}
