/** Small functions on sequences that several modules share. */
module Sequences {
  function Min(a: nat, b: nat): (r: nat)
  {
    if a < b then a else b
  }

  /** The first `n` elements, or all when there are fewer. */
  function Taken<T>(s: seq<T>, n: nat): (r: seq<T>)
    ensures |r| == Min(|s|, n)
    ensures forall i | 0 <= i < |r| :: r[i] == s[i]
    ensures |s| <= n ==> r == s
  {
    if |s| <= n then s else s[..n]
  }

  function Concatenated<T>(pieces: seq<seq<T>>): (r: seq<T>)
  {
    if pieces == [] then [] else pieces[0] + Concatenated(pieces[1..])
  }

  lemma {:induction false} ConcatenatedSnoc<T>(pieces: seq<seq<T>>, last: seq<T>)
    ensures Concatenated(pieces + [last]) == Concatenated(pieces) + last
  {
    if pieces == [] {
      assert pieces + [last] == [last] && [last][1..] == [];
    } else {
      assert (pieces + [last])[1..] == pieces[1..] + [last];
      ConcatenatedSnoc(pieces[1..], last);
      assert pieces[0] + (Concatenated(pieces[1..]) + last) == (pieces[0] + Concatenated(pieces[1..])) + last;
    }
  }
}
