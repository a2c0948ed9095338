/** Small facts about sequence concatenation, stated once for any element type. */
module Seqs {
  lemma ConsAppend<T>(p: seq<T>, t: seq<T>)
    requires p != []
    ensures p + t == [p[0]] + (p[1..] + t)
    ensures (p + t)[1..] == p[1..] + t
  {
    assert (p + t)[1..] == p[1..] + t;
  }
}
