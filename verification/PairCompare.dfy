/**
 Client-server pair comparison (`compare` of `conformance/scripts/pair_runner.py`): recorded steps
 against a snapshot, with expected failures that excuse steps or single fields of them.
 */
module PairCompare {
  import opened Wrappers
  import opened StableJson

  /** A dotted field, split: never empty. */
  type Path = p: seq<string> | p != [] witness [""]

  // ---------------------------------------------------------------- fields

  /** `field_value`; `None` is MISSING. */
  function FieldValue(t: Tree, path: seq<string>): Option<Tree> {
    if path == [] then Some(t)
    else if t.TObj? && path[0] in t.fields then FieldValue(t.fields[path[0]], path[1..])
    else None
  }

  /** One turn of the loop of `without_fields`. */
  function WithoutField(t: Tree, path: seq<string>): Tree
    requires path != []
  {
    if !t.TObj? || path[0] !in t.fields then t
    else if |path| == 1 then TObj(t.fields - {path[0]})
    else TObj(t.fields[path[0] := WithoutField(t.fields[path[0]], path[1..])])
  }

  function WithoutFields(t: Tree, fields: seq<Path>): Tree
    decreases |fields|
  {
    if fields == [] then t else WithoutFields(WithoutField(t, fields[0]), fields[1..])
  }

  method RemoveFields(snapshot: Tree, fields: seq<Path>) returns (copy: Tree)
    ensures copy == WithoutFields(snapshot, fields)
  {
    copy := snapshot;
    for i := 0 to |fields|
      invariant WithoutFields(copy, fields[i..]) == WithoutFields(snapshot, fields)
    {
      assert fields[i..][0] == fields[i] && fields[i..][1..] == fields[i + 1..];
      copy := WithoutField(copy, fields[i]);
    }
  }

  /**
   What removing `g` does to the value at `f`: nothing below `g` is left, what contains `g` loses
   it, the rest stays.
   */
  function ValueLeft(t: Tree, g: seq<string>, f: seq<string>): Option<Tree>
    requires g != []
  {
    if g <= f then None
    else if f <= g then (match FieldValue(t, f) case None => None case Some(x) => Some(WithoutField(x, g[|f|..])))
    else FieldValue(t, f)
  }

  lemma PrefixTails(g: seq<string>, f: seq<string>)
    requires g != [] && f != [] && g[0] == f[0]
    ensures (g <= f <==> g[1..] <= f[1..]) && (f <= g <==> f[1..] <= g[1..])
    ensures |f| <= |g| ==> g[1..][|f[1..]|..] == g[|f|..]
  {
    assert g == [g[0]] + g[1..] && f == [f[0]] + f[1..];
  }

  /** Both sides go one level down together. */
  lemma OneLevelDown(t: Tree, g: seq<string>, f: seq<string>)
    requires |g| > 1 && f != [] && f[0] == g[0] && t.TObj? && g[0] in t.fields
    ensures FieldValue(WithoutField(t, g), f) == FieldValue(WithoutField(t.fields[g[0]], g[1..]), f[1..])
    ensures ValueLeft(t, g, f) == ValueLeft(t.fields[g[0]], g[1..], f[1..])
  {
    PrefixTails(g, f);
  }

  lemma {:induction false} FieldValueWithout(t: Tree, g: seq<string>, f: seq<string>)
    requires g != []
    ensures FieldValue(WithoutField(t, g), f) == ValueLeft(t, g, f)
    decreases |f|
  {
    if f == [] {
      assert g[0..] == g;
    } else if f[0] == g[0] && t.TObj? && g[0] in t.fields && |g| > 1 {
      OneLevelDown(t, g, f);
      FieldValueWithout(t.fields[g[0]], g[1..], f[1..]);
    } else {
      Elsewhere(t, g, f);
    }
  }

  lemma Elsewhere(t: Tree, g: seq<string>, f: seq<string>)
    requires g != [] && f != [] && !(f[0] == g[0] && t.TObj? && g[0] in t.fields && |g| > 1)
    ensures FieldValue(WithoutField(t, g), f) == ValueLeft(t, g, f)
  {
    if g <= f || f <= g {
      assert f[0] == g[0];
    }
  }

  /** Equal without a field, and equal at the field, is equal. */
  lemma {:induction false} SameExceptField(a: Tree, b: Tree, g: seq<string>)
    requires g != [] && WithoutField(a, g) == WithoutField(b, g) && FieldValue(a, g) == FieldValue(b, g)
    ensures a == b
    decreases |g|
  {
    if a.TObj? && b.TObj? {
      var k := g[0];
      if |g| == 1 {
        assert k in a.fields ==> FieldValue(a, g) == Some(a.fields[k]);
        assert k in b.fields ==> FieldValue(b, g) == Some(b.fields[k]);
      } else if k in a.fields && k in b.fields {
        var x, y := WithoutField(a, g).fields, WithoutField(b, g).fields;
        assert x[k] == y[k];
        SameExceptField(a.fields[k], b.fields[k], g[1..]);
      } else {
        assert k in WithoutField(a, g).fields <==> k in a.fields;
        assert k in WithoutField(b, g).fields <==> k in b.fields;
      }
      forall j | j != k ensures j in a.fields <==> j in b.fields {
        assert j in WithoutField(a, g).fields <==> j in a.fields;
        assert j in WithoutField(b, g).fields <==> j in b.fields;
      }
      forall j | j != k && j in a.fields ensures a.fields[j] == b.fields[j] {
        assert WithoutField(a, g).fields[j] == a.fields[j];
        assert WithoutField(b, g).fields[j] == b.fields[j];
      }
      assert a.fields == b.fields;
    }
  }

  /** Trees that are equal without some fields, and equal (or both missing) at each of them, are equal. */
  lemma {:induction false} SameExceptFields(a: Tree, b: Tree, fields: seq<Path>)
    requires WithoutFields(a, fields) == WithoutFields(b, fields)
    requires forall i :: 0 <= i < |fields| ==> FieldValue(a, fields[i]) == FieldValue(b, fields[i])
    ensures a == b
    decreases |fields|
  {
    if fields != [] {
      var g, rest := fields[0], fields[1..];
      forall i | 0 <= i < |rest|
        ensures FieldValue(WithoutField(a, g), rest[i]) == FieldValue(WithoutField(b, g), rest[i])
      {
        assert rest[i] == fields[i + 1];
        FieldValueWithout(a, g, rest[i]);
        FieldValueWithout(b, g, rest[i]);
      }
      SameExceptFields(WithoutField(a, g), WithoutField(b, g), rest);
      SameExceptField(a, b, g);
    }
  }

  /** Neither field contains the other. */
  predicate Apart(f: seq<string>, g: seq<string>) {
    !(f <= g) && !(g <= f)
  }

  /** Trees that are equal without some fields are equal everywhere apart from them. */
  lemma {:induction false} SameApart(a: Tree, b: Tree, fields: seq<Path>, f: seq<string>)
    requires WithoutFields(a, fields) == WithoutFields(b, fields)
    requires forall i :: 0 <= i < |fields| ==> Apart(f, fields[i])
    ensures FieldValue(a, f) == FieldValue(b, f)
    decreases |fields|
  {
    if fields != [] {
      var g := fields[0];
      FieldValueWithout(a, g, f);
      FieldValueWithout(b, g, f);
      assert forall i :: 0 <= i < |fields[1..]| ==> fields[1..][i] == fields[i + 1];
      SameApart(WithoutField(a, g), WithoutField(b, g), fields[1..], f);
    }
  }
}
