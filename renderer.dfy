/** The result renderer: turns the rows of a Cypher result and the values in
    them into a tree of maps, lists and scalars that the JSON codec can
    write. */
module Renderer {
  import opened Results
  import opened Values

  // ---------------------------------------------------------------------
  // The `instanceof` chain of `convert(Object)`.

  /** The runtime types that `convert(Object)` tests for. */
  datatype Capability = IsMap | IsPath | IsIterator | IsList | IsIterable | IsPropertyContainer

  /** The tests a value passes. A `Path` is also an `Iterable` (of its
      elements) and a `List` is also an `Iterable`. */
  function Capabilities(v: Value): (cs: set<Capability>)
    ensures IsMap in cs <==> v.MapV?
    ensures IsPropertyContainer in cs <==> v.Entity?
    ensures IsIterable in cs <==> v.PathV? || v.ListV? || v.IterableV?
  {
    match v
    case MapV(_) => {IsMap}
    case PathV(_) => {IsPath, IsIterable}
    case IteratorV(_) => {IsIterator}
    case ListV(_) => {IsList, IsIterable}
    case IterableV(_) => {IsIterable}
    case Entity(_) => {IsPropertyContainer}
    case _ => {}
  }

  /** The position of a test in the chain. */
  function Rank(c: Capability): nat
  {
    match c
    case IsMap => 0
    case IsPath => 1
    case IsIterator => 2
    case IsList => 3
    case IsIterable => 4
    case IsPropertyContainer => 5
  }

  /** The branch of `convert(Object)` a value takes. */
  datatype Arm = NullArm | TestArm(cap: Capability) | IdentityArm

  /** The dispatch: null first, then the first test, in chain order, that
      the value passes; a value that passes none is returned as it is. */
  function Dispatch(v: Value): (a: Arm)
    ensures a == NullArm <==> v.Null?
    ensures a == IdentityArm <==> !v.Null? && Capabilities(v) == {}
    ensures a.TestArm? ==> a.cap in Capabilities(v)
    ensures a.TestArm? ==> forall c :: c in Capabilities(v) ==> Rank(a.cap) <= Rank(c)
  {
    var cs := Capabilities(v);
    if v.Null? then NullArm
    else if IsMap in cs then TestArm(IsMap)
    else if IsPath in cs then TestArm(IsPath)
    else if IsIterator in cs then TestArm(IsIterator)
    else if IsList in cs then TestArm(IsList)
    else if IsIterable in cs then TestArm(IsIterable)
    else if IsPropertyContainer in cs then TestArm(IsPropertyContainer)
    else IdentityArm
  }

  // ---------------------------------------------------------------------
  // Canonical output

  /** What `convert` produces: null, scalars, raw property arrays, and lists
      and maps of such; no path, iterator, other iterable or graph element. */
  predicate Canonical(v: Value)
  {
    match v
    case Null => true
    case Prim(_) => true
    case JArray(_) => true
    case MapV(es) => forall i :: 0 <= i < |es| ==> Canonical(es[i].1)
    case ListV(items) => forall i :: 0 <= i < |items| ==> Canonical(items[i])
    case _ => false
  }

  // ---------------------------------------------------------------------
  // convert

  /** `convert(Object)`: the arms in the order of the source's chain. */
  function Convert(v: Value): (r: Value)
    ensures Canonical(r)
    decreases v, 1
  {
    match v
    case Null => Null
    case MapV(entries) => MapV(ConvertEntries(entries))
    case PathV(path) => ListV(ConvertPath(path))
    case IteratorV(remaining) => ListV(ConvertEach(remaining))
    case ListV(items) => ListV(ConvertEach(items))
    case IterableV(members) => ListV(ConvertEach(members))
    case Entity(e) => ElementToMap(e)
    case Prim(_) => v
    case JArray(_) => v
  }

  /** `convert(Map)`: a fresh `LinkedHashMap` with every value converted,
      the keys kept in the input's iteration order. */
  function ConvertEntries(entries: seq<(string, Value)>): (r: seq<(string, Value)>)
    ensures Keys(r) == Keys(entries)
    ensures forall i :: 0 <= i < |r| ==> r[i] == ConvertEntry(entries[i]) && Canonical(r[i].1)
    decreases entries, 0
  {
    seq(|entries|, i requires 0 <= i < |entries| => ConvertEntry(entries[i]))
  }

  /** `result.put(entry.getKey(), convert(entry.getValue()))`. */
  function ConvertEntry(entry: (string, Value)): (string, Value)
    decreases entry, 0
  {
    (entry.0, Convert(entry.1))
  }

  /** `convert(List)` and `convert(Iterator)`: a fresh `ArrayList` of the
      converted elements, in order. */
  function ConvertEach(items: seq<Value>): (r: seq<Value>)
    ensures |r| == |items|
    ensures forall i :: 0 <= i < |r| ==> r[i] == Convert(items[i]) && Canonical(r[i])
    decreases items, 0
  {
    seq(|items|, i requires 0 <= i < |items| => Convert(items[i]))
  }

  /** A path goes through `convert(path.iterator())`: its elements, each a
      node or relationship, converted in iteration order. */
  function ConvertPath(path: seq<GraphElement>): (r: seq<Value>)
    ensures |r| == |path|
    ensures forall i :: 0 <= i < |r| ==> Canonical(r[i])
  {
    seq(|path|, i requires 0 <= i < |path| => ElementToMap(path[i]))
  }

  // ---------------------------------------------------------------------
  // convert(PropertyContainer)

  /** `pc.getProperty(key)` for a key the container has. */
  function GetProperty(props: Entries<Property>, key: string): Value
    requires key in KeySet(props)
  {
    PropertyValue(Lookup(props, key))
  }

  /** The loop of `convert(PropertyContainer)`: `result.put(prop,
      pc.getProperty(prop))` into a `TreeMap` for each key in turn. */
  function FillSorted(acc: Entries<Value>, keys: seq<string>, props: Entries<Property>): Entries<Value>
    requires forall i :: 0 <= i < |keys| ==> keys[i] in KeySet(props)
    decreases |keys|
  {
    if |keys| == 0 then acc
    else FillSorted(TreePut(acc, keys[0], GetProperty(props, keys[0])), keys[1..], props)
  }

  /** `convert(PropertyContainer)`: the empty map when there are no keys,
      otherwise a `TreeMap` from each key to its RAW property value. */
  function ElementToMap(e: GraphElement): (r: Value)
    ensures Canonical(r)
  {
    if |e.props| == 0 then MapV([])
    else
      var m := FillSorted([], Keys(e.props), e.props);
      FillSortedSpec([], Keys(e.props), e.props);
      MapV(m)
  }

  /** A raw property value is already canonical. */
  predicate RawValued(m: Entries<Value>)
  {
    forall i :: 0 <= i < |m| ==> m[i].1.Prim? || m[i].1.JArray?
  }

  lemma {:induction false} TreePutRawValued(m: Entries<Value>, k: string, v: Value)
    requires RawValued(m) && (v.Prim? || v.JArray?)
    ensures RawValued(TreePut(m, k, v))
  {
    var r := TreePut(m, k, v);
    if |m| > 0 && k != m[0].0 && !StrLt(k, m[0].0) {
      TreePutRawValued(m[1..], k, v);
      assert r[1..] == TreePut(m[1..], k, v);
    }
  }

  /** What the fill loop builds, whatever it starts from. */
  lemma {:induction false} FillSortedSpec(acc: Entries<Value>, keys: seq<string>, props: Entries<Property>)
    requires forall i :: 0 <= i < |keys| ==> keys[i] in KeySet(props)
    ensures StrictlySorted(acc) ==> StrictlySorted(FillSorted(acc, keys, props))
    ensures RawValued(acc) ==> RawValued(FillSorted(acc, keys, props))
    ensures KeySet(FillSorted(acc, keys, props)) == KeySet(acc) + (set x | x in keys)
    ensures forall q ::
      Get(FillSorted(acc, keys, props), q) == (if q in keys then Some(GetProperty(props, q)) else Get(acc, q))
    decreases |keys|
  {
    FillSortedShape(acc, keys, props);
    forall q ensures Get(FillSorted(acc, keys, props), q) == if q in keys then Some(GetProperty(props, q)) else Get(acc, q) {
      FillSortedGet(acc, keys, props, q);
    }
  }

  /** The fill loop keeps the map sorted and raw-valued, and adds exactly
      the keys it visits. */
  lemma {:induction false} FillSortedShape(acc: Entries<Value>, keys: seq<string>, props: Entries<Property>)
    requires forall i :: 0 <= i < |keys| ==> keys[i] in KeySet(props)
    ensures StrictlySorted(acc) ==> StrictlySorted(FillSorted(acc, keys, props))
    ensures RawValued(acc) ==> RawValued(FillSorted(acc, keys, props))
    ensures KeySet(FillSorted(acc, keys, props)) == KeySet(acc) + (set x | x in keys)
    decreases |keys|
  {
    if |keys| > 0 {
      var v := GetProperty(props, keys[0]);
      var acc' := TreePut(acc, keys[0], v);
      TreePutKeys(acc, keys[0], v);
      if StrictlySorted(acc) { TreePutSorted(acc, keys[0], v); }
      if RawValued(acc) { TreePutRawValued(acc, keys[0], v); }
      FillSortedShape(acc', keys[1..], props);
      assert keys == [keys[0]] + keys[1..];
      assert (set x | x in keys) == {keys[0]} + (set x | x in keys[1..]);
    }
  }

  /** After the fill loop, a visited key maps to its property and any
      other key to what it mapped to before. */
  lemma {:induction false} FillSortedGet(acc: Entries<Value>, keys: seq<string>, props: Entries<Property>, q: string)
    requires forall i :: 0 <= i < |keys| ==> keys[i] in KeySet(props)
    ensures Get(FillSorted(acc, keys, props), q) == if q in keys then Some(GetProperty(props, q)) else Get(acc, q)
    decreases |keys|
  {
    if |keys| > 0 {
      var v := GetProperty(props, keys[0]);
      TreePutGet(acc, keys[0], v, q);
      FillSortedGet(TreePut(acc, keys[0], v), keys[1..], props, q);
      assert q in keys <==> q == keys[0] || q in keys[1..] by {
        assert keys == [keys[0]] + keys[1..];
      }
    }
  }

  // ---------------------------------------------------------------------
  // Properties of convert

  /** A node or relationship becomes the map of its properties: keys in
      ascending order, each once, exactly the container's keys, each mapped
      to the raw stored value; no keys gives the empty map. */
  lemma ElementToMapSpec(e: GraphElement)
    ensures ElementToMap(e).MapV?
    ensures StrictlySorted(ElementToMap(e).entries)
    ensures DistinctKeys(ElementToMap(e).entries)
    ensures KeySet(ElementToMap(e).entries) == KeySet(e.props)
    ensures forall k :: k in KeySet(e.props) ==>
      Get(ElementToMap(e).entries, k) == Some(GetProperty(e.props, k))
    ensures |e.props| == 0 ==> ElementToMap(e) == MapV([])
  {
    var keys := Keys(e.props);
    FillSortedSpec([], keys, e.props);
    var m := ElementToMap(e).entries;
    assert (set x | x in keys) == KeySet(e.props) by {
      forall x | x in KeySet(e.props) ensures x in keys {
        var i :| 0 <= i < |e.props| && e.props[i].0 == x;
        assert keys[i] == x;
      }
    }
    SortedKeysDistinct(m);
    forall k | k in KeySet(e.props)
      ensures Get(m, k) == Some(GetProperty(e.props, k))
    {
      var i :| 0 <= i < |e.props| && e.props[i].0 == k;
      assert keys[i] == k;
      assert k in keys;
    }
  }

  /** Canonical values are fixed points of `convert`. */
  lemma {:induction false} CanonicalIsFixedPoint(v: Value)
    requires Canonical(v)
    ensures Convert(v) == v
    decreases v
  {
    match v
    case MapV(es) =>
      forall i | 0 <= i < |es| ensures Convert(es[i].1) == es[i].1 {
        CanonicalIsFixedPoint(es[i].1);
      }
      var r := ConvertEntries(es);
      assert |r| == |es|;
      forall i | 0 <= i < |es| ensures r[i] == es[i] {
        assert r[i].0 == Keys(r)[i] == Keys(es)[i] == es[i].0;
      }
      assert r == es;
    case ListV(items) =>
      forall i | 0 <= i < |items| ensures Convert(items[i]) == items[i] {
        CanonicalIsFixedPoint(items[i]);
      }
      assert ConvertEach(items) == items;
    case _ =>
  }

  /** Converting an already converted value changes nothing. */
  lemma ConvertIdempotent(v: Value)
    ensures Convert(Convert(v)) == Convert(v)
  {
    CanonicalIsFixedPoint(Convert(v));
  }

  /** What the iterator obtained from an iterable-like value yields. */
  function Iteration(v: Value): seq<Value>
    requires v.PathV? || v.IteratorV? || v.ListV? || v.IterableV?
  {
    match v
    case PathV(path) => seq(|path|, i requires 0 <= i < |path| => Entity(path[i]))
    case IteratorV(remaining) => remaining
    case ListV(items) => items
    case IterableV(members) => members
  }

  /** The result each arm of the chain produces. */
  function ArmResult(v: Value): Value
  {
    match Dispatch(v)
    case NullArm => Null
    case IdentityArm => v
    case TestArm(c) =>
      if c == IsMap then MapV(ConvertEntries(v.entries))
      else if c == IsPropertyContainer then ElementToMap(v.element)
      else ListV(ConvertEach(Iteration(v)))
  }

  /** `convert` agrees with the `instanceof` chain taken in source order: a
      path, which is also iterable, takes the path arm; a list, which is also
      iterable, takes the list arm; scalars and arrays take the identity arm. */
  lemma ConvertFollowsDispatch(v: Value)
    ensures Convert(v) == ArmResult(v)
    ensures v.PathV? ==> Dispatch(v) == TestArm(IsPath)
    ensures v.ListV? ==> Dispatch(v) == TestArm(IsList)
    ensures v.Prim? || v.JArray? ==> Dispatch(v) == IdentityArm && Convert(v) == v
  {
    match v
    case PathV(path) =>
      assert ConvertEach(Iteration(v)) == ConvertPath(path);
    case ListV(items) =>
      assert Dispatch(v) == TestArm(IsList);
    case MapV(entries) =>
      assert Dispatch(v) == TestArm(IsMap);
    case Entity(e) =>
      assert Dispatch(v) == TestArm(IsPropertyContainer);
    case _ =>
  }

  /** A path flattens to the list of its converted elements, in order. */
  lemma PathFlattens(path: seq<GraphElement>)
    ensures Convert(PathV(path)) == ListV(seq(|path|, i requires 0 <= i < |path| => ElementToMap(path[i])))
  {
  }

  /** The node-relationship-node path of the renderer's tests:
      `[{}, {"since":"forever"}, {}]`. */
  lemma PathExample()
    ensures Convert(PathV([GraphElement(Node, []),
                            GraphElement(Relationship, [("since", Single(Str("forever")))]),
                            GraphElement(Node, [])]))
         == ListV([MapV([]), MapV([("since", Prim(Str("forever")))]), MapV([])])
  {
    var rel := GraphElement(Relationship, [("since", Single(Str("forever")))]);
    assert Keys(rel.props) == ["since"];
    assert ElementToMap(rel) == MapV([("since", Prim(Str("forever")))]);
  }

  // ---------------------------------------------------------------------
  // render and convertRows

  /** `render`: null when the result has no rows, otherwise one converted
      map per row, in row order. */
  function Render(rows: seq<Row>): Value
  {
    if |rows| == 0 then Null
    else ListV(seq(|rows|, i requires 0 <= i < |rows| => MapV(ConvertEntries(rows[i]))))
  }

  /** The rendered rows keep row order and, in each row, column order. */
  lemma RenderSpec(rows: seq<Row>)
    ensures Render(rows).Null? <==> |rows| == 0
    ensures |rows| > 0 ==> Render(rows).ListV? && |Render(rows).items| == |rows|
    ensures |rows| > 0 ==> forall i :: 0 <= i < |rows| ==>
      Render(rows).items[i].MapV? && Keys(Render(rows).items[i].entries) == Keys(rows[i])
    ensures Canonical(Render(rows))
  {
  }

  /** `render` with its `convertRows` loop. */
  method RenderRows(rows: seq<Row>) returns (rendered: Value)
    ensures rendered == Render(rows)
  {
    rendered := Null;
    if |rows| > 0 {
      var list: seq<Value> := [];
      var i := 0;
      while i < |rows|
        invariant 0 <= i <= |rows|
        invariant |list| == i
        invariant forall j :: 0 <= j < i ==> list[j] == MapV(ConvertEntries(rows[j]))
      {
        list := list + [MapV(ConvertEntries(rows[i]))];
        i := i + 1;
      }
      rendered := ListV(list);
    }
  }

  /** `convert(PropertyContainer)` with its key loop. */
  method ConvertPropertyContainer(e: GraphElement) returns (r: Value)
    ensures r == ElementToMap(e)
  {
    var keys := Keys(e.props);
    if |keys| == 0 {
      return MapV([]);
    }
    var result: Entries<Value> := [];
    var i := 0;
    while i < |keys|
      invariant 0 <= i <= |keys|
      invariant FillSorted(result, keys[i..], e.props) == FillSorted([], keys, e.props)
    {
      assert keys[i..][1..] == keys[i + 1..];
      result := TreePut(result, keys[i], GetProperty(e.props, keys[i]));
      i := i + 1;
    }
    r := MapV(result);
  }

  /** A live `Iterator`: the items it has still to yield. */
  class Cursor {
    var remaining: seq<Value>

    constructor (items: seq<Value>)
      ensures remaining == items
    {
      remaining := items;
    }

    method Next() returns (x: Value)
      requires remaining != []
      modifies this
      ensures x == old(remaining)[0] && remaining == old(remaining)[1..]
    {
      x := remaining[0];
      remaining := remaining[1..];
    }
  }

  /** `convert(Iterator)`: drains the iterator into a fresh list. */
  method DrainIterator(it: Cursor) returns (result: seq<Value>)
    modifies it
    ensures result == ConvertEach(old(it.remaining))
    ensures it.remaining == []
  {
    ghost var all := it.remaining;
    result := [];
    while it.remaining != []
      invariant |result| + |it.remaining| == |all|
      invariant it.remaining == all[|result|..]
      invariant forall j :: 0 <= j < |result| ==> result[j] == Convert(all[j])
      decreases |it.remaining|
    {
      var x := it.Next();
      result := result + [Convert(x)];
    }
  }
}
