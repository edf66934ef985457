/** The order-preserving subsequence relation used to state what a selection keeps. */
module Sequences {

  /** `s` is an order-preserving subsequence of `t`: `t` with some elements deleted. */
  predicate IsSubseq<T(==)>(s: seq<T>, t: seq<T>)
    decreases |t|
  {
    if s == [] then true
    else if t == [] then false
    else (s[0] == t[0] && IsSubseq(s[1..], t[1..])) || IsSubseq(s, t[1..])
  }
}
