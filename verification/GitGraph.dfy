/** The part of git that publication looks at: commits, ancestry and trailers. */
module GitGraph {
  import opened Wrappers

  type Id = nat

  /** `key` and `summary` are the two Agricola trailers; empty when the commit carries none. */
  datatype Commit = Commit(parents: seq<Id>, key: string, summary: string)

  ghost predicate WellFormed(g: seq<Commit>) {
    forall c: Id, i: nat :: c < |g| && i < |g[c].parents| ==> g[c].parents[i] < c
  }

  /** `git merge-base --is-ancestor a d`. */
  predicate IsAncestor(g: seq<Commit>, a: Id, d: Id)
    decreases d
  {
    a == d ||
    (d < |g| && exists i :: 0 <= i < |g[d].parents| && g[d].parents[i] < d && IsAncestor(g, a, g[d].parents[i]))
  }

  lemma {:induction false} AncestorIsOlder(g: seq<Commit>, a: Id, d: Id)
    requires IsAncestor(g, a, d)
    ensures a <= d
    decreases d
  {
    if a != d {
      var i :| 0 <= i < |g[d].parents| && g[d].parents[i] < d && IsAncestor(g, a, g[d].parents[i]);
      AncestorIsOlder(g, a, g[d].parents[i]);
    }
  }

  lemma {:induction false} AncestorStable(g: seq<Commit>, g': seq<Commit>, a: Id, d: Id)
    requires g <= g' && d < |g|
    ensures IsAncestor(g, a, d) <==> IsAncestor(g', a, d)
    decreases d
  {
    assert g[d] == g'[d];
    forall i | 0 <= i < |g[d].parents| && g[d].parents[i] < d
      ensures IsAncestor(g, a, g[d].parents[i]) <==> IsAncestor(g', a, g[d].parents[i])
    {
      AncestorStable(g, g', a, g[d].parents[i]);
    }
  }

  lemma {:induction false} AncestorTransitive(g: seq<Commit>, a: Id, b: Id, c: Id)
    requires IsAncestor(g, a, b) && IsAncestor(g, b, c)
    ensures IsAncestor(g, a, c)
    decreases c
  {
    if b != c {
      var i :| 0 <= i < |g[c].parents| && g[c].parents[i] < c && IsAncestor(g, b, g[c].parents[i]);
      AncestorTransitive(g, a, b, g[c].parents[i]);
    }
  }

  /**
   The first commit of `rev-list head..remote`, newest first, whose trailer is `key`.
   The search starts below `bound`.
   */
  function FindKeyed(g: seq<Commit>, head: Id, remote: Id, key: string, bound: nat): (r: Option<Id>)
    requires bound <= |g|
    ensures r.Some? ==>
      && r.value < bound && g[r.value].key == key
      && IsAncestor(g, r.value, remote) && !IsAncestor(g, r.value, head)
    ensures r.None? ==>
      forall c: Id :: c < bound && g[c].key == key && IsAncestor(g, c, remote) ==> IsAncestor(g, c, head)
  {
    if bound == 0 then None
    else
      var c := bound - 1;
      if g[c].key == key && IsAncestor(g, c, remote) && !IsAncestor(g, c, head) then Some(c)
      else FindKeyed(g, head, remote, key, bound - 1)
  }
}
