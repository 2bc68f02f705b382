/** The Java objects that flow between the Cypher engine, the result renderer
    and the HTTP layer, and the two kinds of ordered map the code builds
    (`LinkedHashMap`, insertion order, and `TreeMap`, key order). */
module Values {
  import opened Results

  /** A boxed Java scalar. `Long` covers `Integer` and `Long` as exact
      integers; a `Double` is kept as the decimal text it was parsed from,
      since floating point is not modelled. */
  datatype Scalar =
    | Bool(b: bool)
    | Long(n: int)
    | Double(text: string)
    | Str(s: string)

  /** A raw value stored on a node or relationship: a scalar or a Java
      array of scalars (for instance a `String[]`). */
  datatype Property = Single(scalar: Scalar) | ArrayOf(elements: seq<Scalar>)

  datatype ElementKind = Node | Relationship

  /** A `PropertyContainer`: its properties in storage order. */
  datatype GraphElement = GraphElement(kind: ElementKind, props: seq<(string, Property)>)

  /** A Java object as the renderer's `convert(Object)` sees it: one
      constructor per runtime kind that its `instanceof` chain tells apart. */
  datatype Value =
    | Null
    | Prim(scalar: Scalar)
    | JArray(elements: seq<Scalar>)             // a Java array: neither a List nor Iterable
    | MapV(entries: seq<(string, Value)>)       // a java.util.Map, in iteration order
    | PathV(path: seq<GraphElement>)            // a graph Path: start node, relationship, node, ...
    | IteratorV(remaining: seq<Value>)          // an Iterator, the items it has still to yield
    | ListV(items: seq<Value>)                  // a java.util.List
    | IterableV(members: seq<Value>)            // any other Iterable, in iteration order
    | Entity(element: GraphElement)             // a node or relationship

  /** One result row: column name to value, in projection order. */
  type Row = seq<(string, Value)>

  /** The object `getProperty` hands back for a stored property. */
  function PropertyValue(p: Property): Value
  {
    match p
    case Single(s) => Prim(s)
    case ArrayOf(xs) => JArray(xs)
  }

  /** The `Value` view of scalars held in a Java list. */
  function Prims(xs: seq<Scalar>): (vs: seq<Value>)
    ensures |vs| == |xs| && forall i :: 0 <= i < |xs| ==> vs[i] == Prim(xs[i])
  {
    seq(|xs|, i requires 0 <= i < |xs| => Prim(xs[i]))
  }

  // ---------------------------------------------------------------------
  // String order: `String.compareTo`, lexicographic by character, a proper
  // prefix coming first.

  predicate StrLt(a: string, b: string)
  {
    |b| > 0 && (|a| == 0 || a[0] < b[0] || (a[0] == b[0] && StrLt(a[1..], b[1..])))
  }

  lemma {:induction false} StrLtIrreflexive(a: string)
    ensures !StrLt(a, a)
  {
    if |a| > 0 {
      StrLtIrreflexive(a[1..]);
    }
  }

  lemma {:induction false} StrLtTransitive(a: string, b: string, c: string)
    requires StrLt(a, b) && StrLt(b, c)
    ensures StrLt(a, c)
  {
    if |a| > 0 && a[0] == b[0] && b[0] == c[0] {
      StrLtTransitive(a[1..], b[1..], c[1..]);
    }
  }

  lemma {:induction false} StrLtTotal(a: string, b: string)
    ensures a == b || StrLt(a, b) || StrLt(b, a)
  {
    if |a| > 0 && |b| > 0 && a[0] == b[0] {
      StrLtTotal(a[1..], b[1..]);
      if a[1..] == b[1..] {
        assert a == [a[0]] + a[1..] && b == [b[0]] + b[1..];
      }
    }
  }

  // ---------------------------------------------------------------------
  // Ordered maps as sequences of entries in iteration order.

  type Entries<V> = seq<(string, V)>

  function KeySet<V>(m: Entries<V>): set<string>
  {
    set i | 0 <= i < |m| :: m[i].0
  }

  function Keys<V>(m: Entries<V>): (ks: seq<string>)
    ensures |ks| == |m| && forall i :: 0 <= i < |m| ==> ks[i] == m[i].0
  {
    seq(|m|, i requires 0 <= i < |m| => m[i].0)
  }

  predicate DistinctKeys<V>(m: Entries<V>)
  {
    forall i, j :: 0 <= i < j < |m| ==> m[i].0 != m[j].0
  }

  /** `Map.get`: the value of the first entry with key `k`. */
  function Get<V>(m: Entries<V>, k: string): (r: Option<V>)
  {
    if |m| == 0 then None
    else if m[0].0 == k then Some(m[0].1)
    else Get(m[1..], k)
  }

  lemma KeySetCons<V>(m: Entries<V>)
    requires |m| > 0
    ensures KeySet(m) == {m[0].0} + KeySet(m[1..])
  {
    forall x | x in KeySet(m) ensures x in {m[0].0} + KeySet(m[1..]) {
      var i :| 0 <= i < |m| && m[i].0 == x;
      if i > 0 { assert m[1..][i - 1].0 == x; }
    }
    forall x | x in KeySet(m[1..]) ensures x in KeySet(m) {
      var i :| 0 <= i < |m[1..]| && m[1..][i].0 == x;
      assert m[i + 1].0 == x;
    }
  }

  lemma {:induction false} GetPresent<V>(m: Entries<V>, k: string)
    ensures Get(m, k).Some? <==> k in KeySet(m)
    ensures Get(m, k).Some? ==> (k, Get(m, k).value) in m
  {
    if |m| > 0 {
      KeySetCons(m);
      if m[0].0 != k {
        GetPresent(m[1..], k);
      }
    }
  }

  /** The value `Map.get` finds for a key the map holds. */
  function Lookup<V>(m: Entries<V>, k: string): (v: V)
    requires k in KeySet(m)
    ensures Get(m, k) == Some(v) && (k, v) in m
  {
    GetPresent(m, k);
    Get(m, k).value
  }

  /** The ordered map seen through the `Map` interface, order forgotten. */
  function AsMap<V>(m: Entries<V>): (r: map<string, V>)
    ensures r.Keys == KeySet(m)
    ensures forall k :: k in r ==> Get(m, k) == Some(r[k])
  {
    map k | k in KeySet(m) :: Lookup(m, k)
  }

  predicate StrictlySorted<V>(m: Entries<V>)
  {
    forall i, j :: 0 <= i < j < |m| ==> StrLt(m[i].0, m[j].0)
  }

  lemma SortedKeysDistinct<V>(m: Entries<V>)
    requires StrictlySorted(m)
    ensures DistinctKeys(m)
  {
    forall i, j | 0 <= i < j < |m| ensures m[i].0 != m[j].0 {
      if m[i].0 == m[j].0 {
        StrLtIrreflexive(m[i].0);
      }
    }
  }

  /** A strictly sorted map whose first key is below every key in `ks`
      stays so when its tail is replaced by a sorted map over those keys. */
  lemma SortedCons<V>(e: (string, V), rest: Entries<V>)
    requires StrictlySorted(rest)
    requires forall x :: x in KeySet(rest) ==> StrLt(e.0, x)
    ensures StrictlySorted([e] + rest)
  {
    var r := [e] + rest;
    forall i, j | 0 <= i < j < |r| ensures StrLt(r[i].0, r[j].0) {
      if i == 0 {
        assert r[j].0 == rest[j - 1].0;
      } else {
        assert r[i] == rest[i - 1] && r[j] == rest[j - 1];
      }
    }
  }

  /** `TreeMap.put`: a new key goes to its place in key order, an existing
      key has its value replaced. */
  function TreePut<V>(m: Entries<V>, k: string, v: V): Entries<V>
  {
    if |m| == 0 then [(k, v)]
    else if k == m[0].0 then [(k, v)] + m[1..]
    else if StrLt(k, m[0].0) then [(k, v)] + m
    else [m[0]] + TreePut(m[1..], k, v)
  }

  lemma {:induction false} TreePutKeys<V>(m: Entries<V>, k: string, v: V)
    ensures KeySet(TreePut(m, k, v)) == KeySet(m) + {k}
  {
    var r := TreePut(m, k, v);
    if |m| > 0 {
      KeySetCons(m);
      KeySetCons(r);
      if k == m[0].0 {
        assert r[1..] == m[1..];
      } else if StrLt(k, m[0].0) {
        assert r[1..] == m;
      } else {
        assert r[1..] == TreePut(m[1..], k, v);
        TreePutKeys(m[1..], k, v);
      }
    } else {
      assert r[0].0 == k;
    }
  }

  lemma {:induction false} TreePutGet<V>(m: Entries<V>, k: string, v: V, q: string)
    ensures Get(TreePut(m, k, v), q) == if q == k then Some(v) else Get(m, q)
  {
    var r := TreePut(m, k, v);
    if |m| > 0 {
      if k == m[0].0 {
        assert r[1..] == m[1..];
      } else if StrLt(k, m[0].0) {
        assert r[1..] == m;
      } else {
        assert r[1..] == TreePut(m[1..], k, v);
        TreePutGet(m[1..], k, v, q);
      }
    }
  }

  lemma {:induction false} TreePutSorted<V>(m: Entries<V>, k: string, v: V)
    requires StrictlySorted(m)
    ensures StrictlySorted(TreePut(m, k, v))
  {
    if |m| > 0 {
      KeySetCons(m);
      assert StrictlySorted(m[1..]);
      forall x | x in KeySet(m[1..]) ensures StrLt(m[0].0, x) {
        var i :| 0 <= i < |m[1..]| && m[1..][i].0 == x;
        assert m[i + 1].0 == x;
      }
      if k == m[0].0 {
        SortedCons((k, v), m[1..]);
      } else if StrLt(k, m[0].0) {
        forall x | x in KeySet(m) ensures StrLt(k, x) {
          if x != m[0].0 { StrLtTransitive(k, m[0].0, x); }
        }
        SortedCons((k, v), m);
      } else {
        StrLtTotal(k, m[0].0);
        TreePutSorted(m[1..], k, v);
        TreePutKeys(m[1..], k, v);
        SortedCons(m[0], TreePut(m[1..], k, v));
      }
    }
  }

  /** `LinkedHashMap.put`: a new key is appended, an existing key keeps its
      place and has its value replaced. */
  function LinkedPut<V>(m: Entries<V>, k: string, v: V): Entries<V>
  {
    if |m| == 0 then [(k, v)]
    else if k == m[0].0 then [(k, v)] + m[1..]
    else [m[0]] + LinkedPut(m[1..], k, v)
  }

  lemma KeysCons<V>(m: Entries<V>)
    requires |m| > 0
    ensures Keys(m) == [m[0].0] + Keys(m[1..])
  {
  }

  lemma {:induction false} LinkedPutKeys<V>(m: Entries<V>, k: string, v: V)
    ensures Keys(LinkedPut(m, k, v)) == if k in KeySet(m) then Keys(m) else Keys(m) + [k]
  {
    var r := LinkedPut(m, k, v);
    if |m| == 0 {
      assert Keys(r) == [k];
    } else {
      KeySetCons(m);
      KeysCons(m);
      KeysCons(r);
      if k == m[0].0 {
        assert r[1..] == m[1..];
      } else {
        var t := LinkedPut(m[1..], k, v);
        assert r[1..] == t;
        LinkedPutKeys(m[1..], k, v);
        if k in KeySet(m[1..]) {
          assert Keys(t) == Keys(m[1..]);
        } else {
          assert Keys(t) == Keys(m[1..]) + [k];
          assert Keys(r) == ([m[0].0] + Keys(m[1..])) + [k];
        }
      }
    }
  }

  lemma {:induction false} LinkedPutGet<V>(m: Entries<V>, k: string, v: V, q: string)
    ensures Get(LinkedPut(m, k, v), q) == if q == k then Some(v) else Get(m, q)
  {
    var r := LinkedPut(m, k, v);
    if |m| > 0 && k != m[0].0 {
      assert r[1..] == LinkedPut(m[1..], k, v);
      LinkedPutGet(m[1..], k, v, q);
    }
  }
}
