/**
 * `recursiveAddToGraph` (crosscloudclient.js:427-443): turns a shape object
 * into triples. The shape's type triple is added under the given reference;
 * every property with a truthy value then adds one triple whose subject is
 * always the document itself (""), whatever the reference; a sub-shape adds a
 * link to its fragment "#reference" followed by the sub-shape's own triples.
 */
module GraphWriter {
  import opened Wrappers
  import opened Rdf
  import opened ShapeObjects

  /** The type triple `(reference, rdf:type, shape.vocab)`. */
  function TypeTriple(reference: string, obj: ShapeObject): Triple
    requires obj.vocab.Some?
  {
    Triple(Named(reference), RdfType, obj.vocab.value)
  }

  /** The triples recursiveAddToGraph(g, reference, obj) appends to g, in order. */
  function Emitted(reference: string, obj: ShapeObject): (r: Graph)
    requires Typed(obj)
    ensures |r| >= 1 && r[0] == TypeTriple(reference, obj)
    decreases obj, |obj.properties| + 1
  {
    [TypeTriple(reference, obj)] + PropertiesEmitted(obj, |obj.properties|)
  }

  /** The triples the first n properties of obj append. */
  function PropertiesEmitted(obj: ShapeObject, n: nat): Graph
    requires Typed(obj) && n <= |obj.properties|
    decreases obj, n
  {
    if n == 0 then [] else PropertiesEmitted(obj, n - 1) + PropertyEmitted(obj, n - 1)
  }

  /** The triples property i of obj appends: none when its value is falsy. */
  function PropertyEmitted(obj: ShapeObject, i: nat): Graph
    requires Typed(obj) && i < |obj.properties|
    decreases obj, i
  {
    var p := obj.properties[i].1;
    if !Truthy(p.value) then []
    else if p.value.Embedded? then [Triple(Named(""), p.vocab, Named(Fragment(p)))] + Emitted(Fragment(p), p.value.shape)
    else [Triple(Named(""), p.vocab, ScalarTerm(p))]
  }

  /** recursiveAddToGraph, statement for statement, over a triple buffer. */
  method RecursiveAddToGraph(g: TripleStore, reference: string, obj: ShapeObject)
    requires Typed(obj)
    modifies g
    ensures g.triples == old(g.triples) + Emitted(reference, obj)
    decreases obj, |obj.properties| + 1
  {
    g.Add(Named(reference), RdfType, obj.vocab.value);
    var i := 0;
    while i < |obj.properties|
      invariant 0 <= i <= |obj.properties|
      invariant g.triples == old(g.triples) + [TypeTriple(reference, obj)] + PropertiesEmitted(obj, i)
    {
      AddProperty(g, obj, i);
      i := i + 1;
    }
  }
  /** One turn of recursiveAddToGraph's loop: the triples of property i, if its value is truthy. */
  method AddProperty(g: TripleStore, obj: ShapeObject, i: nat)
    requires Typed(obj) && i < |obj.properties|
    modifies g
    ensures g.triples == old(g.triples) + PropertyEmitted(obj, i)
    decreases obj, i
  {
    var attr := obj.properties[i].1;
    if Truthy(attr.value) {
      if attr.value.Embedded? {
        g.Add(Named(""), attr.vocab, Named(Fragment(attr)));
        RecursiveAddToGraph(g, Fragment(attr), attr.value.shape);
      } else {
        g.Add(Named(""), attr.vocab, ScalarTerm(attr));
      }
    }
  }

  /** A shape whose properties are all falsy adds its type triple and nothing else. */
  lemma {:induction false} FalsyPropertiesEmitNothing(obj: ShapeObject, n: nat)
    requires Typed(obj) && n <= |obj.properties|
    requires forall i :: 0 <= i < n ==> !Truthy(obj.properties[i].1.value)
    ensures PropertiesEmitted(obj, n) == []
  {
    if n > 0 {
      FalsyPropertiesEmitNothing(obj, n - 1);
    }
  }

  /** Hence a shape with no truthy property is written as its type triple alone. */
  lemma FalsyShapeEmitsTypeOnly(reference: string, obj: ShapeObject)
    requires Typed(obj)
    requires forall i :: 0 <= i < |obj.properties| ==> !Truthy(obj.properties[i].1.value)
    ensures Emitted(reference, obj) == [TypeTriple(reference, obj)]
  {
    FalsyPropertiesEmitNothing(obj, |obj.properties|);
  }

  /** The properties that have a truthy value, in key order: an independent reading of "one triple per truthy property". */
  function TruthyProperties(props: seq<(string, Property)>): (r: seq<Property>)
    ensures |r| <= |props|
    ensures forall p :: p in r ==> Truthy(p.value)
    ensures forall i :: 0 <= i < |props| && Truthy(props[i].1.value) ==> props[i].1 in r
  {
    if props == [] then []
    else
      var rest := TruthyProperties(props[..|props| - 1]);
      var last := props[|props| - 1].1;
      if Truthy(last.value) then rest + [last] else rest
  }

  /** The triples flat properties produce: one per property, with subject "" and the property's predicate and term. */
  function ScalarTriples(ps: seq<Property>): (r: Graph)
    requires forall p :: p in ps ==> Writable(p)
    ensures |r| == |ps|
  {
    seq(|ps|, i requires 0 <= i < |ps| => Triple(Named(""), ps[i].vocab, ScalarTerm(ps[i])))
  }

  lemma {:induction false} FlatPropertiesEmitted(obj: ShapeObject, n: nat)
    requires Typed(obj) && Flat(obj) && n <= |obj.properties|
    ensures forall p :: p in TruthyProperties(obj.properties[..n]) ==> Writable(p)
    ensures PropertiesEmitted(obj, n) == ScalarTriples(TruthyProperties(obj.properties[..n]))
  {
    var ps := TruthyProperties(obj.properties[..n]);
    assert forall p :: p in ps ==> Writable(p) by {
      forall p | p in ps
        ensures Writable(p)
      {
        TruthyPropertiesFrom(obj.properties[..n], p);
      }
    }
    if n > 0 {
      FlatPropertiesEmitted(obj, n - 1);
      assert obj.properties[..n][..n - 1] == obj.properties[..n - 1];
      var p := obj.properties[n - 1].1;
      assert !p.value.Embedded?;
    }
  }

  /** Every truthy property comes from the list it was filtered from. */
  lemma {:induction false} TruthyPropertiesFrom(props: seq<(string, Property)>, p: Property)
    requires p in TruthyProperties(props)
    ensures exists i :: 0 <= i < |props| && props[i].1 == p
  {
    var rest := TruthyProperties(props[..|props| - 1]);
    if p in rest {
      TruthyPropertiesFrom(props[..|props| - 1], p);
      var i :| 0 <= i < |props[..|props| - 1]| && props[..|props| - 1][i].1 == p;
      assert props[i].1 == p;
    } else {
      assert props[|props| - 1].1 == p;
    }
  }

  /**
   * A flat shape is written as its type triple followed by exactly one triple
   * per truthy property, in key order, and nothing for the falsy ones.
   */
  lemma FlatShapeEmitted(reference: string, obj: ShapeObject)
    requires Typed(obj) && Flat(obj)
    ensures forall p :: p in TruthyProperties(obj.properties) ==> Writable(p)
    ensures Emitted(reference, obj) ==
      [TypeTriple(reference, obj)] + ScalarTriples(TruthyProperties(obj.properties))
  {
    FlatPropertiesEmitted(obj, |obj.properties|);
    assert obj.properties[..|obj.properties|] == obj.properties;
  }

  /** The triples of the first j properties come before those of the first n, for j <= n. */
  lemma {:induction false} PropertiesEmittedPrefix(obj: ShapeObject, j: nat, n: nat)
    requires Typed(obj) && j <= n <= |obj.properties|
    ensures PropertiesEmitted(obj, j) <= PropertiesEmitted(obj, n)
  {
    if j < n {
      PropertiesEmittedPrefix(obj, j, n - 1);
    }
  }

  /**
   * A truthy sub-shape under property i is written as the link
   * ("", vocab, "#reference") immediately followed by the sub-shape's own
   * triples (whose type triple has the fragment as subject), right after the
   * type triple and the triples of the properties before it.
   */
  lemma EmbeddedShapeEmitted(reference: string, obj: ShapeObject, i: nat)
    requires Typed(obj) && i < |obj.properties|
    requires obj.properties[i].1.value.Embedded?
    ensures var p := obj.properties[i].1;
      var k := 1 + |PropertiesEmitted(obj, i)|;
      k <= |Emitted(reference, obj)| &&
      [Triple(Named(""), p.vocab, Named(Fragment(p)))] + Emitted(Fragment(p), p.value.shape) <= Emitted(reference, obj)[k..]
  {
    var p := obj.properties[i].1;
    var block := [Triple(Named(""), p.vocab, Named(Fragment(p)))] + Emitted(Fragment(p), p.value.shape);
    assert PropertyEmitted(obj, i) == block;
    PropertiesEmittedPrefix(obj, i + 1, |obj.properties|);
    var before := PropertiesEmitted(obj, i);
    var all := PropertiesEmitted(obj, |obj.properties|);
    assert before + block <= all;
    var k := 1 + |before|;
    assert Emitted(reference, obj)[k..] == all[|before|..];
  }

  /** Every triple the writer adds is a type triple or has the document "" as its subject. */
  lemma {:induction false} EmittedSubjects(reference: string, obj: ShapeObject)
    requires Typed(obj)
    ensures forall t :: t in Emitted(reference, obj) ==> t.pred == RdfType || t.subj == Named("")
    decreases obj, |obj.properties| + 1
  {
    PropertiesEmittedSubjects(obj, |obj.properties|);
  }

  lemma {:induction false} PropertiesEmittedSubjects(obj: ShapeObject, n: nat)
    requires Typed(obj) && n <= |obj.properties|
    ensures forall t :: t in PropertiesEmitted(obj, n) ==> t.pred == RdfType || t.subj == Named("")
    decreases obj, n
  {
    if n > 0 {
      PropertiesEmittedSubjects(obj, n - 1);
      var p := obj.properties[n - 1].1;
      if Truthy(p.value) && p.value.Embedded? {
        EmittedSubjects(Fragment(p), p.value.shape);
      }
    }
  }
}
