/** Validation of untrusted values as JSON (isJsonValue, packages/core/src/schema/enrich.ts)
    on arbitrary object graphs, and the cloning it makes safe (cloneEnrichmentReport,
    packages/core/src/inspect-async.ts). */
module JsonGraph {

  /** A JavaScript value; objects are references into a graph, so they may be shared or cyclic.
      `Hole` stands for an absent element of a sparse array. */
  datatype Value =
    | Hole | Null | Text(text: string) | Flag(flag: bool) | Number(number: real)
    | NonFiniteNumber | OtherPrimitive
    | Ref(id: nat)

  /** `ExoticNode` is an object that is neither an array nor a plain record. */
  datatype Node = ArrayNode(items: seq<Value>) | RecordNode(keys: seq<string>, items: seq<Value>) | ExoticNode

  type Graph = map<nat, Node>

  ghost predicate InGraph(g: Graph, v: Value) {
    v.Ref? ==> v.id in g
  }

  /** Every reference points somewhere, and a record pairs its keys with its values. */
  ghost predicate WellFormed(g: Graph) {
    && (forall id, i :: id in g && !g[id].ExoticNode? && 0 <= i < |g[id].items| ==> InGraph(g, g[id].items[i]))
    && (forall id :: id in g && g[id].RecordNode? ==> |g[id].keys| == |g[id].items| && Hole !in g[id].items)
  }

  function Children(g: Graph, v: Value): seq<Value> {
    if v.Ref? && v.id in g && !g[v.id].ExoticNode? then g[v.id].items else []
  }

  /** A finite JSON document. */
  datatype Json =
    | JNull | JText(text: string) | JFlag(flag: bool) | JNumber(number: real)
    | JArray(items: seq<Json>) | JRecord(keys: seq<string>, items: seq<Json>)

  /** The value spells out the document. */
  ghost predicate Denotes(g: Graph, v: Value, t: Json)
    decreases t
  {
    match t
    case JNull => v == Null || v == Hole // serialization writes holes as null
    case JText(s) => v == Text(s)
    case JFlag(b) => v == Flag(b)
    case JNumber(n) => v == Number(n)
    case JArray(items) =>
      && v.Ref? && v.id in g && g[v.id].ArrayNode? && |items| == |g[v.id].items|
      && (forall i :: 0 <= i < |items| ==> Denotes(g, g[v.id].items[i], items[i]))
    case JRecord(keys, items) =>
      && v.Ref? && v.id in g && g[v.id].RecordNode? && keys == g[v.id].keys && |items| == |g[v.id].items|
      && (forall i :: 0 <= i < |items| ==> Denotes(g, g[v.id].items[i], items[i]))
  }

  /** The value unfolds into some finite document. */
  ghost predicate Unfolds(g: Graph, v: Value) {
    exists t: Json :: Denotes(g, v, t)
  }

  /** Not JSON by itself. */
  ghost predicate Bad(g: Graph, v: Value) {
    v.NonFiniteNumber? || v.OtherPrimitive? || (v.Ref? && v.id in g && g[v.id].ExoticNode?)
  }

  ghost predicate IsWalk(g: Graph, w: seq<Value>) {
    w != [] && forall i :: 0 <= i < |w| - 1 ==> w[i + 1] in Children(g, w[i])
  }

  /** A walk from `v` that ends in a non-JSON leaf, or comes back to an object it passed. */
  ghost predicate IsDefect(g: Graph, v: Value, w: seq<Value>) {
    && IsWalk(g, w) && w[0] == v
    && (Bad(g, w[|w| - 1]) || exists i :: 0 <= i < |w| - 1 && w[i] == w[|w| - 1])
  }

  // ---------- documents ----------

  lemma {:induction false} DenotesUnique(g: Graph, v: Value, a: Json, b: Json)
    requires Denotes(g, v, a) && Denotes(g, v, b)
    ensures a == b
    decreases a
  {
    if v.Ref? {
      forall i | 0 <= i < |a.items| ensures a.items[i] == b.items[i] {
        DenotesUnique(g, g[v.id].items[i], a.items[i], b.items[i]);
      }
      assert a.items == b.items;
    }
  }

  function Size(t: Json): nat
    decreases t, 0
  {
    match t
    case JArray(items) => 1 + TotalSize(items)
    case JRecord(_, items) => 1 + TotalSize(items)
    case _ => 1
  }

  function TotalSize(ts: seq<Json>): nat
    decreases ts, 1
  {
    if ts == [] then 0 else Size(ts[0]) + TotalSize(ts[1..])
  }

  lemma {:induction false} PartIsSmaller(ts: seq<Json>, i: nat)
    requires i < |ts|
    ensures Size(ts[i]) <= TotalSize(ts)
  {
    if i > 0 {
      PartIsSmaller(ts[1..], i - 1);
    }
  }

  /** Along a walk the document shrinks with every step. */
  lemma {:induction false} WalkShrinks(g: Graph, w: seq<Value>, t: Json, k: nat) returns (part: Json)
    requires IsWalk(g, w) && Denotes(g, w[0], t) && k < |w|
    ensures Denotes(g, w[k], part) && Size(part) + k <= Size(t)
  {
    part := t;
    if k > 0 {
      var above := WalkShrinks(g, w, t, k - 1);
      var items := Children(g, w[k - 1]);
      assert w[k - 1 + 1] in items;
      var i :| 0 <= i < |items| && items[i] == w[k];
      part := above.items[i];
      PartIsSmaller(above.items, i);
    }
  }

  /** A defect anywhere below a value rules out every document. */
  lemma DefectRefutes(g: Graph, v: Value, w: seq<Value>, t: Json)
    requires IsDefect(g, v, w)
    ensures !Denotes(g, v, t)
  {
    if Denotes(g, v, t) {
      var n := |w| - 1;
      var last := WalkShrinks(g, w, t, n);
      if !Bad(g, w[n]) {
        var i :| 0 <= i < n && w[i] == w[n];
        var earlier := WalkShrinks(g, w, t, i);
        TailIsWalk(g, w, i);
        var again := WalkShrinks(g, w[i..], earlier, n - i);
        DenotesUnique(g, w[n], again, earlier);
      }
    }
  }

  lemma TailIsWalk(g: Graph, w: seq<Value>, i: nat)
    requires IsWalk(g, w) && i < |w|
    ensures IsWalk(g, w[i..])
  {
    forall k | 0 <= k < |w| - i - 1 ensures w[i..][k + 1] in Children(g, w[i..][k]) {
      assert w[i + k + 1] in Children(g, w[i + k]);
    }
  }

  lemma DefectMeansNoDocument(g: Graph, v: Value, w: seq<Value>)
    requires IsDefect(g, v, w)
    ensures !Unfolds(g, v)
  {
    forall t: Json ensures !Denotes(g, v, t) {
      DefectRefutes(g, v, w, t);
    }
  }

  // ---------- the validator ----------

  /** `a` leads to `b` in one step or more. */
  ghost predicate Leads(g: Graph, a: Value, b: Value) {
    exists w: seq<Value> :: IsWalk(g, w) && |w| > 1 && w[0] == a && w[|w| - 1] == b
  }

  lemma LeadsOn(g: Graph, a: Value, b: Value, c: Value)
    requires Leads(g, a, b) && c in Children(g, b)
    ensures Leads(g, a, c)
  {
    var w: seq<Value> :| IsWalk(g, w) && |w| > 1 && w[0] == a && w[|w| - 1] == b;
    var longer := w + [c];
    forall i | 0 <= i < |longer| - 1 ensures longer[i + 1] in Children(g, longer[i]) {
      assert i < |w| - 1 ==> w[i + 1] in Children(g, w[i]);
    }
    assert IsWalk(g, longer);
  }

  lemma LeadsToChild(g: Graph, b: Value, c: Value)
    requires c in Children(g, b)
    ensures Leads(g, b, c)
  {
    assert IsWalk(g, [b, c]);
  }

  lemma DefectBelow(g: Graph, v: Value, c: Value, w: seq<Value>)
    requires c in Children(g, v) && IsDefect(g, c, w)
    ensures IsDefect(g, v, [v] + w)
  {
    var longer := [v] + w;
    forall i | 0 <= i < |longer| - 1 ensures longer[i + 1] in Children(g, longer[i]) {
      assert i > 0 ==> w[i - 1 + 1] in Children(g, w[i - 1]);
    }
    if i :| 0 <= i < |w| - 1 && w[i] == w[|w| - 1] {
      assert longer[i + 1] == longer[|longer| - 1];
    }
  }

  /** The objects on the current path. */
  class Validator {
    var seen: set<nat>

    constructor ()
      ensures seen == {}
    {
      seen := {};
    }

    /** Depth-first, with early exit. The path is restored on return, acceptance is exactly
        the existence of a document, and a refusal comes with the defect that caused it. */
    method IsJsonValue(g: Graph, v: Value) returns (ok: bool, ghost defect: seq<Value>)
      requires WellFormed(g) && InGraph(g, v) && v != Hole && seen <= g.Keys
      requires forall a :: a in seen ==> Leads(g, Ref(a), v)
      modifies this
      ensures seen == old(seen)
      ensures ok ==> Unfolds(g, v)
      ensures !ok ==> IsDefect(g, v, defect)
      decreases g.Keys - seen, 0
    {
      defect := [v];
      match v {
        case Null =>
          assert Denotes(g, v, JNull);
          return true, defect;
        case Text(s) =>
          assert Denotes(g, v, JText(s));
          return true, defect;
        case Flag(b) =>
          assert Denotes(g, v, JFlag(b));
          return true, defect;
        case Number(n) =>
          assert Denotes(g, v, JNumber(n));
          return true, defect;
        case NonFiniteNumber => return false, defect;
        case OtherPrimitive => return false, defect;
        case Ref(id) =>
          if id in seen {
            defect :| IsWalk(g, defect) && |defect| > 1 && defect[0] == v && defect[|defect| - 1] == v;
            return false, defect;
          }
          if g[id].ExoticNode? {
            return false, defect;
          }
          seen := seen + {id};
          ok, defect := AllJson(g, v);
          seen := seen - {id};
      }
    }

    /** `every` over the items of an array, which skips holes, or over a record's values. */
    method AllJson(g: Graph, v: Value) returns (ok: bool, ghost defect: seq<Value>)
      requires WellFormed(g) && v.Ref? && v.id in g && !g[v.id].ExoticNode? && v.id in seen && seen <= g.Keys
      requires forall a :: a in seen && a != v.id ==> Leads(g, Ref(a), v)
      modifies this
      ensures seen == old(seen)
      ensures ok ==> Unfolds(g, v)
      ensures !ok ==> IsDefect(g, v, defect)
      decreases g.Keys - seen, 1
    {
      hide Leads, IsDefect;
      var items := g[v.id].items;
      ghost var parts: seq<Json> := [];
      for k := 0 to |items|
        invariant seen == old(seen) && |parts| == k
        invariant forall i :: 0 <= i < k ==> Denotes(g, items[i], parts[i])
      {
        var c := items[k];
        assert c in Children(g, v);
        if c == Hole {
          assert Denotes(g, c, JNull);
          parts := parts + [JNull];
          continue;
        }
        forall a | a in seen ensures Leads(g, Ref(a), c) {
          if a == v.id {
            LeadsToChild(g, v, c);
          } else {
            LeadsOn(g, Ref(a), v, c);
          }
        }
        ok, defect := IsJsonValue(g, c);
        if !ok {
          DefectBelow(g, v, c, defect);
          return false, [v] + defect;
        }
        ghost var part :| Denotes(g, c, part);
        parts := parts + [part];
      }
      ghost var whole := if g[v.id].ArrayNode? then JArray(parts) else JRecord(g[v.id].keys, parts);
      assert Denotes(g, v, whole);
      return true, [];
    }
  }

  /** Validation with a fresh path: a value is accepted exactly when it spells out a finite
      document, which is exactly when no non-JSON leaf and no cycle can be reached from it. */
  method IsJson(g: Graph, v: Value) returns (ok: bool)
    requires WellFormed(g) && InGraph(g, v) && v != Hole
    ensures ok <==> Unfolds(g, v)
    ensures ok <==> forall w: seq<Value> :: !IsDefect(g, v, w)
  {
    var validator := new Validator();
    ghost var defect;
    ok, defect := validator.IsJsonValue(g, v);
    if ok {
      forall w: seq<Value> ensures !IsDefect(g, v, w) {
        if IsDefect(g, v, w) {
          DefectMeansNoDocument(g, v, w);
        }
      }
    } else {
      DefectMeansNoDocument(g, v, defect);
    }
  }

  /** Cloning an accepted value keeps no path at all, and still terminates: it writes out
      the one document the value stands for. */
  method Clone(g: Graph, v: Value, ghost t: Json) returns (copy: Json)
    requires Denotes(g, v, t)
    ensures copy == t
    decreases t
  {
    match v {
      case Hole => return JNull;
      case Null => return JNull;
      case Text(s) => return JText(s);
      case Flag(b) => return JFlag(b);
      case Number(n) => return JNumber(n);
      case Ref(id) =>
        var items := g[id].items;
        var copies: seq<Json> := [];
        for k := 0 to |items|
          invariant |copies| == k && forall i :: 0 <= i < k ==> copies[i] == t.items[i]
        {
          var one := Clone(g, items[k], t.items[k]);
          copies := copies + [one];
        }
        assert copies == t.items;
        return if g[id].ArrayNode? then JArray(copies) else JRecord(g[id].keys, copies);
    }
  }
}
