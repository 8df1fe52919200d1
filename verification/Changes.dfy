/** Edge reporting: of a sequence of values written, those that differ from the one before. */
module Changes {
  import opened Prelude

  /** `xs` with consecutive repeats removed, starting from `prev` (None: nothing recorded yet). */
  function Edges<T(==)>(prev: Option<T>, xs: seq<T>): seq<T>
    decreases xs
  {
    if xs == [] then []
    else (if prev == Some(xs[0]) then [] else [xs[0]]) + Edges(Some(xs[0]), xs[1..])
  }

  /** The value in force after writing `xs`. */
  function Latest<T>(prev: Option<T>, xs: seq<T>): Option<T> {
    if xs == [] then prev else Some(xs[|xs| - 1])
  }

  lemma {:induction false} EdgesSnoc<T>(prev: Option<T>, xs: seq<T>, x: T)
    ensures Edges(prev, xs + [x]) == if Latest(prev, xs) == Some(x) then Edges(prev, xs) else Edges(prev, xs) + [x]
    decreases xs
  {
    if xs == [] {
      assert ([] + [x])[1..] == [];
    } else {
      assert (xs + [x])[1..] == xs[1..] + [x];
      assert Latest(Some(xs[0]), xs[1..]) == Latest(prev, xs);
      EdgesSnoc(Some(xs[0]), xs[1..], x);
    }
  }

  /** The reported sequence never repeats itself, starts with a change, and ends in the value in
      force. */
  lemma {:induction false} EdgesAlternate<T>(prev: Option<T>, xs: seq<T>)
    ensures var es := Edges(prev, xs);
            && Latest(prev, es) == Latest(prev, xs)
            && (es != [] ==> prev != Some(es[0]))
            && forall k | 0 <= k < |es| - 1 :: es[k] != es[k + 1]
    decreases xs
  {
    if xs != [] {
      EdgesAlternate(Some(xs[0]), xs[1..]);
      assert Latest(Some(xs[0]), xs[1..]) == Latest(prev, xs);
    }
  }
}
