/** A law of concatenation used by the conservation proofs. */
module Sequences {

  /** Two balanced steps in a row balance: what came in during the first step is `e`, what went
      out is `r`, and `p'` is pending in between. */
  lemma Regroup<E>(p: seq<E>, e: seq<E>, es: seq<E>, r: seq<E>, p': seq<E>, rs: seq<E>, q: seq<E>)
    requires p + e == r + p' && p' + es == rs + q
    ensures p + (e + es) == (r + rs) + q
  {
    assert p + (e + es) == (p + e) + es == r + (p' + es);
  }
}
