/** Python dictionaries with string keys: pairs in insertion order; overwriting keeps a key's place. */
module Dicts {
  import opened Wrappers

  type Dict = seq<(string, string)>

  function Get(d: Dict, k: string): Option<string> {
    if d == [] then None
    else if d[0].0 == k then Some(d[0].1)
    else Get(d[1..], k)
  }

  function Put(d: Dict, k: string, v: string): Dict {
    if d == [] then [(k, v)]
    else if d[0].0 == k then [(k, v)] + d[1..]
    else [d[0]] + Put(d[1..], k, v)
  }

  /** Every pair satisfies `p`. */
  ghost predicate All(d: Dict, p: (string, string) -> bool) {
    forall i :: 0 <= i < |d| ==> p(d[i].0, d[i].1)
  }

  lemma {:induction false} PutGet(d: Dict, k: string, v: string, j: string)
    ensures Get(Put(d, k, v), j) == if j == k then Some(v) else Get(d, j)
  {
    if d != [] && d[0].0 != k {
      assert Put(d, k, v)[1..] == Put(d[1..], k, v);
      PutGet(d[1..], k, v, j);
    }
  }

  lemma {:induction false} PutAll(d: Dict, k: string, v: string, p: (string, string) -> bool)
    requires All(d, p) && p(k, v)
    ensures All(Put(d, k, v), p)
  {
    if d != [] && d[0].0 != k {
      PutAll(d[1..], k, v, p);
    }
  }

  lemma {:induction false} GetAll(d: Dict, k: string, p: (string, string) -> bool)
    requires All(d, p) && Get(d, k).Some?
    ensures p(k, Get(d, k).value)
  {
    if d[0].0 != k {
      GetAll(d[1..], k, p);
    }
  }
}
