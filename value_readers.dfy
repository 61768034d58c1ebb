/**
 * The value-filling readers of the top-level client (crosscloudclient.js:59-164):
 * a copy of the shape object is made, and each property's `value` is
 * overwritten with the `.value` of the first graph object found for
 * (subject, property vocab); a property whose value is an object (a term or a
 * sub-shape) is instead read one level down, through the node the subject
 * links to. The graph is the collaborator's store, queried only with `any`
 * and `statementsMatching`; the readers never add to it.
 */
module ValueReaders {
  import opened Wrappers
  import opened JsString
  import opened Rdf
  import opened ShapeObjects
  import opened GraphWriter

  /** What the fetcher reports for a document: its triples, or failure with the response body. */
  datatype Fetch = Loaded(triples: Graph) | Failed(body: string)

  /** getUserCard's result: the filled shape and its `webid` field. */
  datatype UserCard = UserCard(webid: string, shape: ShapeObject)

  /** A container found by getContainers: the filled shape and its `uri` field. */
  datatype Container = Container(uri: string, shape: ShapeObject)

  /** A resource found by getResource: the filled shape, its `uri` (`undefined` for a non-named subject) and `containerUri`. */
  datatype Resource = Resource(uri: Option<string>, containerUri: string, shape: ShapeObject)

  /** `if (tmp) prop.value = tmp.value`. */
  function FillValue(p: Property, found: Option<Term>): Property
  {
    if found.Some? then p.(value := Text(found.value.value)) else p
  }

  /** Every property overwritten from (node, vocab) when the graph has a match, without looking at its current value. */
  function FillFlat(g: Graph, node: Option<Term>, obj: ShapeObject): (r: ShapeObject)
  {
    obj.(properties := seq(|obj.properties|, i requires 0 <= i < |obj.properties| =>
      (obj.properties[i].0, FillValue(obj.properties[i].1, Any(g, node, Some(obj.properties[i].1.vocab))))))
  }

  /** One property of a container or resource read for subject: scalars are filled, sub-shapes filled through the linked node, terms copied as they are. */
  function ReadProperty(g: Graph, subject: Term, p: Property): Property
  {
    var tmp := Any(g, Some(subject), Some(p.vocab));
    if p.value.Embedded? then p.(value := Embedded(FillFlat(g, tmp, p.value.shape)))
    else if p.value.TermValue? then p
    else FillValue(p, tmp)
  }

  /** The shape object read for subject. */
  function ReadShape(g: Graph, subject: Term, obj: ShapeObject): (r: ShapeObject)
  {
    obj.(properties := seq(|obj.properties|, i requires 0 <= i < |obj.properties| =>
      (obj.properties[i].0, ReadProperty(g, subject, obj.properties[i].1))))
  }

  /** The loop `for (var s in shape.properties) { ... if (tmp) ....value = tmp.value; }`, reading from node. */
  method FillProperties(g: Graph, node: Option<Term>, obj: ShapeObject) returns (r: ShapeObject)
    ensures r == FillFlat(g, node, obj)
  {
    var props := obj.properties;
    var i := 0;
    while i < |obj.properties|
      invariant 0 <= i <= |obj.properties| == |props|
      invariant forall k :: 0 <= k < i ==>
        props[k] == (obj.properties[k].0, FillValue(obj.properties[k].1, Any(g, node, Some(obj.properties[k].1.vocab))))
      invariant props[i..] == obj.properties[i..]
    {
      var curr := obj.properties[i].1;
      var tmp := Any(g, node, Some(curr.vocab));
      if tmp.Some? {
        props := props[i := (obj.properties[i].0, curr.(value := Text(tmp.value.value)))];
      }
      assert props[i + 1..] == obj.properties[i + 1..] by {
        assert forall k :: i + 1 <= k < |props| ==> props[k] == props[i..][k - i];
      }
      i := i + 1;
    }
    r := obj.(properties := props);
  }

  /** The property loop of getContainers and getResource for one subject. */
  method ReadProperties(g: Graph, subject: Term, obj: ShapeObject) returns (r: ShapeObject)
    ensures r == ReadShape(g, subject, obj)
  {
    var props := obj.properties;
    var i := 0;
    while i < |obj.properties|
      invariant 0 <= i <= |obj.properties| == |props|
      invariant forall k :: 0 <= k < i ==> props[k] == (obj.properties[k].0, ReadProperty(g, subject, obj.properties[k].1))
      invariant props[i..] == obj.properties[i..]
    {
      var attr := obj.properties[i].1;
      var tmp := Any(g, Some(subject), Some(attr.vocab));
      if IsObject(attr.value) {
        if attr.value.Embedded? {
          var subObj := FillProperties(g, tmp, attr.value.shape);
          props := props[i := (obj.properties[i].0, attr.(value := Embedded(subObj)))];
        }
        // A term is copied as it is: it has no `properties` to fill.
      } else if tmp.Some? {
        props := props[i := (obj.properties[i].0, attr.(value := Text(tmp.value.value)))];
      }
      assert props[i + 1..] == obj.properties[i + 1..] by {
        assert forall k :: i + 1 <= k < |props| ==> props[k] == props[i..][k - i];
      }
      i := i + 1;
    }
    r := obj.(properties := props);
  }

  /**
   * getUserCard (crosscloudclient.js:59-81): fetches the profile document of
   * webid and fills the shape from the triples about webid. The document is
   * computed as written, `webid.slice(0, webid.indexOf('#'))`: the webid
   * before its fragment, or the webid less its last character when it has
   * no fragment.
   */
  method GetUserCard(webid: string, shape: ShapeObject, fetch: Fetch) returns (docUri: string, r: Result<UserCard, string>)
    ensures docUri == ProfileDocumentAsWritten(webid)
    ensures '#' in webid ==> docUri == ProfileDocument(webid)
    ensures '#' !in webid && webid != "" ==> docUri == webid[..|webid| - 1]
    ensures fetch.Failed? ==> r == Failure(fetch.body)
    ensures fetch.Loaded? ==> r == Success(UserCard(webid, FillFlat(fetch.triples, Some(Named(webid)), shape)))
  {
    docUri := ProfileDocumentAsWritten(webid);
    ProfileDocumentSpec(webid);
    if '#' !in webid && webid != "" {
      ProfileDocumentAsWrittenDropsLastChar(webid);
    }
    if fetch.Loaded? {
      var userObj := FillProperties(fetch.triples, Some(Named(webid)), shape);
      r := Success(UserCard(webid, userObj));
    } else {
      r := Failure(fetch.body);
    }
  }

  /** The subjects typed `vocab` (any type when the shape has none), in the order the store holds them. */
  function TypedSubjects(g: Graph, vocab: Option<Term>): (r: seq<Term>)
    ensures forall t :: t in r <==> exists o :: Triple(t, RdfType, o) in g && (vocab.None? || o == vocab.value)
  {
    var ts := StatementsMatching(g, None, Some(RdfType), vocab);
    assert forall t :: t in Subjects(ts) <==> exists o :: Triple(t, RdfType, o) in g && (vocab.None? || o == vocab.value) by {
      forall t
        ensures t in Subjects(ts) <==> exists o :: Triple(t, RdfType, o) in g && (vocab.None? || o == vocab.value)
      {
        if t in Subjects(ts) {
          var k :| 0 <= k < |ts| && Subjects(ts)[k] == t;
          assert ts[k] in ts && ts[k] == Triple(t, RdfType, ts[k].obj);
        }
        if exists o :: Triple(t, RdfType, o) in g && (vocab.None? || o == vocab.value) {
          var o :| Triple(t, RdfType, o) in g && (vocab.None? || o == vocab.value);
          assert Triple(t, RdfType, o) in ts;
          var k :| 0 <= k < |ts| && ts[k] == Triple(t, RdfType, o);
          assert Subjects(ts)[k] == t;
        }
      }
    }
    Subjects(ts)
  }

  /** The containers found in g: one per subject of the shape's type. */
  function ContainersIn(g: Graph, shape: ShapeObject): (r: seq<Container>)
    ensures |r| == |TypedSubjects(g, shape.vocab)|
  {
    var subjects := TypedSubjects(g, shape.vocab);
    seq(|subjects|, k requires 0 <= k < |subjects| => Container(subjects[k].value, ReadShape(g, subjects[k], shape)))
  }

  /** The results array after the callbacks of the first workspaces, which all push onto it. */
  function Cumulative(snapshots: seq<Graph>, shape: ShapeObject): seq<Container>
  {
    if snapshots == [] then []
    else Cumulative(snapshots[..|snapshots| - 1], shape) + ContainersIn(snapshots[|snapshots| - 1], shape)
  }

  /** The workspaces of a listing: the subjects typed sioc:Space. */
  function Workspaces(g: Graph): seq<Term>
  {
    TypedSubjects(g, Some(SiocSpace))
  }

  /** The container loop of one workspace callback: pushes the containers found in g onto results. */
  method PushContainers(g: Graph, shape: ShapeObject, results: seq<Container>) returns (r: seq<Container>)
    ensures r == results + ContainersIn(g, shape)
  {
    var containers := TypedSubjects(g, shape.vocab);
    r := results;
    var k := 0;
    while k < |containers|
      invariant 0 <= k <= |containers|
      invariant r == results + ContainersIn(g, shape)[..k]
    {
      var contObj := containers[k];
      var currShape := ReadProperties(g, contObj, shape);
      r := r + [Container(contObj.value, currShape)];
      k := k + 1;
    }
    assert ContainersIn(g, shape)[..k] == ContainersIn(g, shape);
  }

  /**
   * getContainers (crosscloudclient.js:91-131): for each workspace of the
   * listing, the workspace's documents are fetched and the callback receives
   * every container found so far. The workspace fetches run concurrently;
   * snapshots[i] is the store as it stands when the (i+1)-th callback runs,
   * in the order the fetches complete.
   */
  method GetContainers(listing: Fetch, shape: ShapeObject, snapshots: seq<Graph>) returns (calls: seq<Result<seq<Container>, string>>)
    requires listing.Loaded? ==> |snapshots| == |Workspaces(listing.triples)|
    ensures listing.Failed? ==> calls == [Failure(listing.body)]
    ensures listing.Loaded? ==> |calls| == |snapshots|
    ensures listing.Loaded? ==>
      forall i :: 0 <= i < |calls| ==> calls[i] == Success(Cumulative(snapshots[..i + 1], shape))
  {
    if listing.Failed? {
      return [Failure(listing.body)];
    }
    var workspaces := Workspaces(listing.triples);
    var results: seq<Container> := [];
    calls := [];
    var i := 0;
    while i < |workspaces|
      invariant 0 <= i <= |workspaces|
      invariant results == Cumulative(snapshots[..i], shape)
      invariant |calls| == i
      invariant forall j :: 0 <= j < i ==> calls[j] == Success(Cumulative(snapshots[..j + 1], shape))
    {
      results := PushContainers(snapshots[i], shape, results);
      assert snapshots[..i + 1][..i] == snapshots[..i];
      calls := calls + [Success(results)];
      i := i + 1;
    }
  }

  /**
   * getResource (crosscloudclient.js:135-164): one filled shape per subject of
   * the shape's type, in the order the store holds them, all delivered in a
   * single callback.
   */
  method GetResource(g: Graph, uri: string, shape: ShapeObject) returns (results: seq<Resource>)
    ensures |results| == |TypedSubjects(g, shape.vocab)|
    ensures forall k :: 0 <= k < |results| ==>
      var item := TypedSubjects(g, shape.vocab)[k];
      results[k] == Resource(UriOf(item), uri, ReadShape(g, item, shape))
  {
    var items := TypedSubjects(g, shape.vocab);
    results := [];
    var k := 0;
    while k < |items|
      invariant 0 <= k <= |items| && |results| == k
      invariant forall j :: 0 <= j < k ==> results[j] == Resource(UriOf(items[j]), uri, ReadShape(g, items[j], shape))
    {
      var currentItem := items[k];
      var resource := ReadProperties(g, currentItem, shape);
      results := results + [Resource(UriOf(currentItem), uri, resource)];
      k := k + 1;
    }
  }

  /**
   * Filling from a subject: each property keeps its key, predicate, kind and
   * reference, and its value becomes the first object stored for
   * (subject, predicate), or stays as it was when there is none.
   */
  lemma FillFlatSpec(g: Graph, subject: Term, obj: ShapeObject, i: nat)
    requires i < |obj.properties|
    ensures var p := obj.properties[i].1;
      var q := FillFlat(g, Some(subject), obj).properties[i];
      q.0 == obj.properties[i].0 && q.1.vocab == p.vocab && q.1.valueType == p.valueType && q.1.reference == p.reference &&
      q.1.value == (if FirstObject(g, subject, p.vocab).Some? then Text(FirstObject(g, subject, p.vocab).value.value) else p.value)
  {
    AnyIsFirstObject(g, subject, obj.properties[i].1.vocab);
  }

  /**
   * Reading a container or resource: a scalar property is filled from the
   * subject, a term is left alone, and a sub-shape is filled from the node the
   * subject's first (subject, predicate) triple points to.
   */
  lemma ReadShapeSpec(g: Graph, subject: Term, obj: ShapeObject, i: nat)
    requires i < |obj.properties|
    ensures |ReadShape(g, subject, obj).properties| == |obj.properties|
    ensures var p := obj.properties[i].1;
      var q := ReadShape(g, subject, obj).properties[i];
      var node := FirstObject(g, subject, p.vocab);
      q.0 == obj.properties[i].0 && q.1.vocab == p.vocab && q.1.valueType == p.valueType && q.1.reference == p.reference &&
      (p.value.TermValue? ==> q.1.value == p.value) &&
      (!IsObject(p.value) ==> q.1.value == (if node.Some? then Text(node.value.value) else p.value)) &&
      (p.value.Embedded? ==> q.1.value == Embedded(FillFlat(g, node, p.value.shape)))
  {
    AnyIsFirstObject(g, subject, obj.properties[i].1.vocab);
  }

  /**
   * When the subject has no triple for a sub-shape's predicate, the sub-shape
   * is read with an open subject: each sub-property takes the subject of the
   * first triple anywhere in the graph that has its predicate.
   */
  lemma MissingNodeReadsAnySubject(g: Graph, subject: Term, obj: ShapeObject, i: nat, j: nat)
    requires i < |obj.properties| && obj.properties[i].1.value.Embedded?
    requires FirstObject(g, subject, obj.properties[i].1.vocab).None?
    requires j < |obj.properties[i].1.value.shape.properties|
    ensures var sub := obj.properties[i].1.value.shape.properties[j].1;
      var read := ReadShape(g, subject, obj).properties[i].1.value;
      read.Embedded? && |read.shape.properties| == |obj.properties[i].1.value.shape.properties| &&
      read.shape.properties[j].1.value ==
        (if FirstSubjectWith(g, sub.vocab).Some? then Text(FirstSubjectWith(g, sub.vocab).value.value) else sub.value)
  {
    ReadShapeSpec(g, subject, obj, i);
    AnyWithoutSubject(g, obj.properties[i].1.value.shape.properties[j].1.vocab);
  }

  /** The template a reader starts from: the shape with every value left undefined. */
  function Cleared(obj: ShapeObject): (r: ShapeObject)
    ensures r.vocab == obj.vocab && |r.properties| == |obj.properties|
    ensures forall i :: 0 <= i < |obj.properties| ==>
      r.properties[i] == (obj.properties[i].0, obj.properties[i].1.(value := Undefined))
  {
    obj.(properties := seq(|obj.properties|, i requires 0 <= i < |obj.properties| =>
      (obj.properties[i].0, obj.properties[i].1.(value := Undefined))))
  }

  /** A flat, typed shape whose properties use distinct predicates other than rdf:type. */
  predicate Recoverable(obj: ShapeObject)
  {
    Typed(obj) && Flat(obj) &&
    (forall i :: 0 <= i < |obj.properties| ==> obj.properties[i].1.vocab != RdfType) &&
    (forall i, j :: 0 <= i < j < |obj.properties| ==> obj.properties[i].1.vocab != obj.properties[j].1.vocab)
  }

  /**
   * What a value reads back as: a falsy value is not written, so it reads as
   * undefined; a term reads as the string of its lexical value; a string is
   * unchanged.
   */
  function NormalisedValue(v: PropValue): PropValue
  {
    if !Truthy(v) then Undefined
    else if v.TermValue? then Text(v.term.value)
    else v
  }

  /** The shape with every value as it reads back. */
  function Normalised(obj: ShapeObject): ShapeObject
  {
    obj.(properties := seq(|obj.properties|, i requires 0 <= i < |obj.properties| =>
      (obj.properties[i].0, obj.properties[i].1.(value := NormalisedValue(obj.properties[i].1.value)))))
  }

  lemma {:induction false} AllTruthyProperties(props: seq<(string, Property)>)
    requires forall i :: 0 <= i < |props| ==> Truthy(props[i].1.value)
    ensures TruthyProperties(props) == seq(|props|, i requires 0 <= i < |props| => props[i].1)
  {
    if props != [] {
      AllTruthyProperties(props[..|props| - 1]);
    }
  }

  /** The graph writeResource builds for a flat shape whose values are all truthy: its type triple, then one triple per property. */
  lemma WrittenGraph(obj: ShapeObject)
    requires Typed(obj) && Flat(obj)
    requires forall i :: 0 <= i < |obj.properties| ==> Truthy(obj.properties[i].1.value)
    ensures forall i :: 0 <= i < |obj.properties| ==> Writable(obj.properties[i].1)
    ensures var g := Emitted("", obj);
      |g| == |obj.properties| + 1 && g[0] == TypeTriple("", obj) &&
      forall i :: 0 <= i < |obj.properties| ==> g[i + 1] == Triple(Named(""), obj.properties[i].1.vocab, ScalarTerm(obj.properties[i].1))
  {
    FlatShapeEmitted("", obj);
    AllTruthyProperties(obj.properties);
    forall i | 0 <= i < |obj.properties|
      ensures Writable(obj.properties[i].1)
    {
      assert obj.properties[i].1 in TruthyProperties(obj.properties);
    }
  }

  /** A triple of the written graph with subject "" and the predicate of property i is that property's triple, so the value is truthy. */
  lemma WrittenPropertyTriples(obj: ShapeObject, i: nat)
    requires Recoverable(obj) && i < |obj.properties|
    ensures var p := obj.properties[i].1;
      forall t :: t in Emitted("", obj) && t.subj == Named("") && t.pred == p.vocab ==>
        Writable(p) && Truthy(p.value) && t.obj == ScalarTerm(p)
  {
    var g := Emitted("", obj);
    var ps := TruthyProperties(obj.properties);
    FlatShapeEmitted("", obj);
    var p := obj.properties[i].1;
    forall t | t in g && t.subj == Named("") && t.pred == p.vocab
      ensures Writable(p) && Truthy(p.value) && t.obj == ScalarTerm(p)
    {
      var k :| 0 <= k < |g| && g[k] == t;
      assert k != 0;
      WrittenTripleSource(obj, k);
      var q := ps[k - 1];
      TruthyPropertiesFrom(obj.properties, q);
      var m :| 0 <= m < |obj.properties| && obj.properties[m].1 == q;
      assert m == i;
    }
  }

  /** Every triple of a flat shape's graph after the type triple is that of a truthy property. */
  lemma WrittenTripleSource(obj: ShapeObject, k: nat)
    requires Typed(obj) && Flat(obj) && 1 <= k < |Emitted("", obj)|
    ensures k - 1 < |TruthyProperties(obj.properties)|
    ensures Writable(TruthyProperties(obj.properties)[k - 1])
    ensures var q := TruthyProperties(obj.properties)[k - 1];
      Emitted("", obj)[k] == Triple(Named(""), q.vocab, ScalarTerm(q))
  {
    FlatShapeEmitted("", obj);
  }

  /** A truthy property of a flat shape has its triple in the written graph. */
  lemma WrittenPropertyTriple(obj: ShapeObject, i: nat)
    requires Typed(obj) && Flat(obj) && i < |obj.properties| && Truthy(obj.properties[i].1.value)
    ensures Writable(obj.properties[i].1)
    ensures Triple(Named(""), obj.properties[i].1.vocab, ScalarTerm(obj.properties[i].1)) in Emitted("", obj)
  {
    var g := Emitted("", obj);
    var ps := TruthyProperties(obj.properties);
    FlatShapeEmitted("", obj);
    var p := obj.properties[i].1;
    assert p in ps;
    var j :| 0 <= j < |ps| && ps[j] == p;
    assert g[j + 1] == Triple(Named(""), p.vocab, ScalarTerm(p));
  }

  /** No triple of the written graph other than the first is an rdf:type triple. */
  lemma WrittenTypeTriple(obj: ShapeObject)
    requires Recoverable(obj)
    ensures StatementsMatching(Emitted("", obj), None, Some(RdfType), obj.vocab) == [Emitted("", obj)[0]]
  {
    var g := Emitted("", obj);
    var ps := TruthyProperties(obj.properties);
    FlatShapeEmitted("", obj);
    forall t | t in g[1..]
      ensures t.pred != RdfType
    {
      var k :| 0 <= k < |g[1..]| && g[1..][k] == t;
      TruthyPropertiesFrom(obj.properties, ps[k]);
    }
    NoMatchNoStatements(g[1..], None, Some(RdfType), obj.vocab);
    assert g == [g[0]] + g[1..];
  }

  /**
   * Round trip of writeResource and getResource: the graph written for a
   * recoverable shape holds exactly one subject of the shape's type, the
   * document "", and reading it back into the cleared shape gives every
   * value as it reads back: truthy strings unchanged, terms as their
   * lexical value, falsy values undefined.
   */
  lemma WriteThenRead(obj: ShapeObject)
    requires Recoverable(obj)
    ensures TypedSubjects(Emitted("", obj), obj.vocab) == [Named("")]
    ensures ReadShape(Emitted("", obj), Named(""), Cleared(obj)) == Normalised(obj)
    ensures (forall i :: 0 <= i < |obj.properties| ==>
      obj.properties[i].1.value.Text? && obj.properties[i].1.value.text != "") ==>
      ReadShape(Emitted("", obj), Named(""), Cleared(obj)) == obj
  {
    var g := Emitted("", obj);
    WrittenTypeTriple(obj);
    var read := ReadShape(g, Named(""), Cleared(obj));
    var norm := Normalised(obj);
    forall i | 0 <= i < |obj.properties|
      ensures read.properties[i] == norm.properties[i]
    {
      var p := obj.properties[i].1;
      WrittenPropertyTriples(obj, i);
      ReadShapeSpec(g, Named(""), Cleared(obj), i);
      if Truthy(p.value) {
        WrittenPropertyTriple(obj, i);
        FirstObjectOfOnly(g, Named(""), p.vocab, ScalarTerm(p));
      } else {
        FirstObjectSpec(g, Named(""), p.vocab);
      }
    }
    assert read.properties == norm.properties;
    if forall i :: 0 <= i < |obj.properties| ==> obj.properties[i].1.value.Text? && obj.properties[i].1.value.text != "" {
      assert norm.properties == obj.properties;
    }
  }
}
