/**
 * The default-substituting readers of js/crosscloudclient.js. A shape here is
 * a plain object whose keys map to descriptors `{vocab, default, shape}`;
 * reading builds a fresh object with the same keys, each resolved to the
 * `.value` of the first graph object for (subject, vocab) or to the
 * descriptor's default. All readers share one store, which the fetcher fills
 * and the readers only query.
 */
module DefaultReaders {
  import opened Wrappers
  import opened JsString
  import opened Rdf
  import opened ValueReaders

  /** A value of the plain objects the readers build. */
  datatype Value = Undefined | Str(s: string) | Obj(fields: map<string, Value>)

  /** What a shape holds under a key: a descriptor, a term (the `vocab` of a resource shape), or `undefined`. */
  datatype Entry =
    | Descriptor(vocab: Option<Term>, default: Value, sub: Option<seq<(string, Entry)>>)
    | TypeTerm(term: Term)
    | Absent

  /** A shape's keys and entries, in the order `for ... in` visits them. */
  type Shape = seq<(string, Entry)>

  /** `curr.vocab`: a term has no `vocab` field (the readers never dereference an `undefined` entry). */
  function VocabOf(e: Entry): Option<Term>
  {
    if e.Descriptor? then e.vocab else None
  }

  /** `curr.default`. */
  function DefaultOf(e: Entry): Value
  {
    if e.Descriptor? then e.default else Undefined
  }

  /** `curr.shape`. */
  function SubOf(e: Entry): Option<Shape>
  {
    if e.Descriptor? then e.sub else None
  }

  /** `!tmp ? curr.default : tmp.value`. */
  function Resolve(found: Option<Term>, default: Value): (v: Value)
    ensures found.Some? ==> v == Str(found.value.value)
    ensures found.None? ==> v == default
  {
    if found.Some? then Str(found.value.value) else default
  }

  /** An `undefined` JavaScript value for a missing `.uri`. */
  function OptionValue(o: Option<string>): Value
  {
    if o.Some? then Str(o.value) else Undefined
  }

  /** The object `{}` after `obj[key] = value` for each pair in turn: a later key overwrites an earlier one. */
  function Assemble(pairs: seq<(string, Value)>): map<string, Value>
  {
    if pairs == [] then map[]
    else Assemble(pairs[..|pairs| - 1])[pairs[|pairs| - 1].0 := pairs[|pairs| - 1].1]
  }

  /** The assembled object has exactly the keys of the pairs. */
  lemma {:induction false} AssembleKeys(pairs: seq<(string, Value)>)
    ensures forall k :: k in Assemble(pairs) <==> exists i :: 0 <= i < |pairs| && pairs[i].0 == k
  {
    if pairs != [] {
      var n := |pairs| - 1;
      AssembleKeys(pairs[..n]);
      forall k | k in Assemble(pairs)
        ensures exists i :: 0 <= i < |pairs| && pairs[i].0 == k
      {
        if k != pairs[n].0 {
          assert k in Assemble(pairs[..n]);
          var i :| 0 <= i < |pairs[..n]| && pairs[..n][i].0 == k;
          assert pairs[i].0 == k;
        }
      }
      forall k | exists i :: 0 <= i < |pairs| && pairs[i].0 == k
        ensures k in Assemble(pairs)
      {
        var i :| 0 <= i < |pairs| && pairs[i].0 == k;
        if i < n {
          assert pairs[..n][i].0 == k;
        }
      }
    }
  }

  /** A key holds the value of its last pair. */
  lemma {:induction false} AssembleLookup(pairs: seq<(string, Value)>, i: nat)
    requires i < |pairs|
    requires forall j :: i < j < |pairs| ==> pairs[j].0 != pairs[i].0
    ensures pairs[i].0 in Assemble(pairs) && Assemble(pairs)[pairs[i].0] == pairs[i].1
  {
    var n := |pairs| - 1;
    if i < n {
      AssembleLookup(pairs[..n], i);
    }
  }

  /** One more pair sets one more key. */
  lemma AssembleSnoc(pairs: seq<(string, Value)>, k: string, v: Value)
    ensures Assemble(pairs + [(k, v)]) == Assemble(pairs)[k := v]
  {
    assert (pairs + [(k, v)])[..|pairs|] == pairs;
  }

  /** No key is visited twice, as in a JavaScript object. */
  predicate UniqueKeys<T>(pairs: seq<(string, T)>)
  {
    forall i, j :: 0 <= i < j < |pairs| ==> pairs[i].0 != pairs[j].0
  }

  /** The pairs the getUserCard loop assigns (js/crosscloudclient.js:25-29). */
  function CardPairs(g: Graph, webid: string, shape: Shape): (r: seq<(string, Value)>)
    requires forall i :: 0 <= i < |shape| ==> !shape[i].1.Absent?
    ensures |r| == |shape|
  {
    seq(|shape|, i requires 0 <= i < |shape| =>
      (shape[i].0, Resolve(Any(g, Some(Named(webid)), VocabOf(shape[i].1)), DefaultOf(shape[i].1))))
  }

  /** The pairs of a sub-object read from node (js/crosscloudclient.js:56-61). */
  function SubPairs(g: Graph, node: Option<Term>, sub: Shape): (r: seq<(string, Value)>)
    requires forall j :: 0 <= j < |sub| ==> !sub[j].1.Absent?
    ensures |r| == |sub|
  {
    seq(|sub|, j requires 0 <= j < |sub| =>
      (sub[j].0, Resolve(Any(g, node, VocabOf(sub[j].1)), DefaultOf(sub[j].1))))
  }

  /** Entries the container and resource loops can read without dereferencing `undefined`. */
  predicate Readable(e: Entry)
  {
    !e.Absent? &&
    (VocabOf(e).Some? && SubOf(e).Some? ==> forall j :: 0 <= j < |SubOf(e).value| ==> !SubOf(e).value[j].1.Absent?)
  }

  /**
   * The value of one entry for subject, where self is what a missing vocab
   * stands for (`contObj.value` for a container, `currentItem.uri` for a resource).
   */
  function EntryValue(g: Graph, subject: Term, self: Value, e: Entry): Value
    requires Readable(e)
  {
    if VocabOf(e).None? then self
    else if SubOf(e).Some? then Obj(Assemble(SubPairs(g, Any(g, Some(subject), VocabOf(e)), SubOf(e).value)))
    else Resolve(Any(g, Some(subject), VocabOf(e)), DefaultOf(e))
  }

  /** The pairs the getContainers loop assigns for one container (js/crosscloudclient.js:49-67). */
  function ContainerPairs(g: Graph, subject: Term, shape: Shape): (r: seq<(string, Value)>)
    requires forall i :: 0 <= i < |shape| ==> Readable(shape[i].1)
    ensures |r| == |shape|
  {
    seq(|shape|, i requires 0 <= i < |shape| =>
      (shape[i].0, EntryValue(g, subject, Str(subject.value), shape[i].1)))
  }

  /** Resource shapes: every entry but `containerUri` (never dereferenced) is readable, and `vocab` holds a term or nothing. */
  predicate ResourceShape(shape: Shape)
  {
    forall i :: 0 <= i < |shape| ==>
      (shape[i].0 == "vocab" ==> !shape[i].1.Descriptor?) &&
      (shape[i].0 != "containerUri" && shape[i].0 != "vocab" ==> Readable(shape[i].1))
  }

  /** `shape.vocab`: the term under the key "vocab", if any. */
  function ShapeVocab(shape: Shape): Option<Term>
  {
    if shape == [] then None
    else if shape[|shape| - 1].0 == "vocab" then
      (if shape[|shape| - 1].1.TypeTerm? then Some(shape[|shape| - 1].1.term) else None)
    else ShapeVocab(shape[..|shape| - 1])
  }

  /** The pairs the getResource loop assigns for one item (js/crosscloudclient.js:84-104): `vocab` is skipped. */
  function ResourcePairs(g: Graph, item: Term, uri: string, shape: Shape): (r: seq<(string, Value)>)
    requires ResourceShape(shape)
    ensures |r| <= |shape|
  {
    if shape == [] then []
    else
      var n := |shape| - 1;
      var before := ResourcePairs(g, item, uri, shape[..n]);
      if shape[n].0 == "containerUri" then before + [(shape[n].0, Str(uri))]
      else if shape[n].0 == "vocab" then before
      else before + [(shape[n].0, EntryValue(g, item, OptionValue(UriOf(item)), shape[n].1))]
  }

  /** What the fetcher adds to the store. */
  function FetchedTriples(fetch: Fetch): Graph
  {
    if fetch.Loaded? then fetch.triples else []
  }

  /** Everything the fetches add, in order. */
  function AllFetched(fetches: seq<Fetch>): Graph
  {
    if fetches == [] then [] else AllFetched(fetches[..|fetches| - 1]) + FetchedTriples(fetches[|fetches| - 1])
  }

  /** The objects of the containers in g: one per subject typed sioc:Container. */
  function ContainerObjects(g: Graph, shape: Shape): (r: seq<map<string, Value>>)
    requires forall i :: 0 <= i < |shape| ==> Readable(shape[i].1)
    ensures |r| == |TypedSubjects(g, Some(SiocContainer))|
  {
    var cs := TypedSubjects(g, Some(SiocContainer));
    seq(|cs|, k requires 0 <= k < |cs| => Assemble(ContainerPairs(g, cs[k], shape)))
  }

  /** The shared results array after the callbacks of the given workspace fetches, each run on the store as it then stands. */
  function CumulativeObjects(base: Graph, spaces: seq<Fetch>, shape: Shape): seq<map<string, Value>>
    requires forall i :: 0 <= i < |shape| ==> Readable(shape[i].1)
  {
    if spaces == [] then []
    else CumulativeObjects(base, spaces[..|spaces| - 1], shape) + ContainerObjects(base + AllFetched(spaces), shape)
  }

  /** One more workspace fetch appends its triples to the store. */
  lemma FetchedStep(base: Graph, spaces: seq<Fetch>, i: nat)
    requires i < |spaces|
    ensures base + AllFetched(spaces[..i]) + FetchedTriples(spaces[i]) == base + AllFetched(spaces[..i + 1])
  {
    assert spaces[..i + 1][..i] == spaces[..i];
  }

  /** One more workspace callback appends the containers of the store as it then stands. */
  lemma CumulativeStep(base: Graph, spaces: seq<Fetch>, i: nat, shape: Shape)
    requires i < |spaces|
    requires forall k :: 0 <= k < |shape| ==> Readable(shape[k].1)
    ensures CumulativeObjects(base, spaces[..i + 1], shape) ==
      CumulativeObjects(base, spaces[..i], shape) + ContainerObjects(base + AllFetched(spaces[..i + 1]), shape)
  {
    assert spaces[..i + 1][..i] == spaces[..i];
  }

  /** The container loop of getContainers' workspace callback: one object per container, in match order. */
  method CollectContainers(g: Graph, shape: Shape) returns (objs: seq<map<string, Value>>)
    requires forall i :: 0 <= i < |shape| ==> Readable(shape[i].1)
    ensures objs == ContainerObjects(g, shape)
  {
    var containers := TypedSubjects(g, Some(SiocContainer));
    objs := [];
    var k := 0;
    while k < |containers|
      invariant 0 <= k <= |containers|
      invariant objs == ContainerObjects(g, shape)[..k]
    {
      var currCont := BuildContainer(g, containers[k], shape);
      objs := objs + [currCont];
      k := k + 1;
    }
  }

  /** The object-building loop of getUserCard. */
  method BuildCard(g: Graph, webid: string, shape: Shape) returns (emptyObj: map<string, Value>)
    requires forall i :: 0 <= i < |shape| ==> !shape[i].1.Absent?
    ensures emptyObj == Assemble(CardPairs(g, webid, shape))
  {
    emptyObj := map[];
    var i := 0;
    while i < |shape|
      invariant 0 <= i <= |shape|
      invariant emptyObj == Assemble(CardPairs(g, webid, shape)[..i])
    {
      var curr := shape[i].1;
      var tmp := Any(g, Some(Named(webid)), VocabOf(curr));
      emptyObj := emptyObj[shape[i].0 := if tmp.None? then DefaultOf(curr) else Str(tmp.value.value)];
      assert CardPairs(g, webid, shape)[..i + 1][..i] == CardPairs(g, webid, shape)[..i];
      i := i + 1;
    }
    assert CardPairs(g, webid, shape)[..i] == CardPairs(g, webid, shape);
  }

  /** The sub-object loop: every key of the sub-shape resolved through node. */
  method BuildSubObject(g: Graph, node: Option<Term>, sub: Shape) returns (subObj: map<string, Value>)
    requires forall j :: 0 <= j < |sub| ==> !sub[j].1.Absent?
    ensures subObj == Assemble(SubPairs(g, node, sub))
  {
    subObj := map[];
    var j := 0;
    while j < |sub|
      invariant 0 <= j <= |sub|
      invariant subObj == Assemble(SubPairs(g, node, sub)[..j])
    {
      var tmp2 := Any(g, node, VocabOf(sub[j].1));
      subObj := subObj[sub[j].0 := if tmp2.None? then DefaultOf(sub[j].1) else Str(tmp2.value.value)];
      assert SubPairs(g, node, sub)[..j + 1][..j] == SubPairs(g, node, sub)[..j];
      j := j + 1;
    }
    assert SubPairs(g, node, sub)[..j] == SubPairs(g, node, sub);
  }

  /** The value one entry gets: self when it has no vocab, a sub-object, or a resolved value. */
  method ReadEntry(g: Graph, subject: Term, self: Value, curr: Entry) returns (v: Value)
    requires Readable(curr)
    ensures v == EntryValue(g, subject, self, curr)
  {
    if VocabOf(curr).None? {
      v := self;
    } else if SubOf(curr).Some? {
      var tmp := Any(g, Some(subject), VocabOf(curr));
      var subObj := BuildSubObject(g, tmp, SubOf(curr).value);
      v := Obj(subObj);
    } else {
      var tmp := Any(g, Some(subject), VocabOf(curr));
      v := if tmp.None? then DefaultOf(curr) else Str(tmp.value.value);
    }
  }

  /** The object-building loop of one container. */
  method BuildContainer(g: Graph, contObj: Term, shape: Shape) returns (currCont: map<string, Value>)
    requires forall i :: 0 <= i < |shape| ==> Readable(shape[i].1)
    ensures currCont == Assemble(ContainerPairs(g, contObj, shape))
  {
    currCont := map[];
    var i := 0;
    while i < |shape|
      invariant 0 <= i <= |shape|
      invariant currCont == Assemble(ContainerPairs(g, contObj, shape)[..i])
    {
      var v := ReadEntry(g, contObj, Str(contObj.value), shape[i].1);
      currCont := currCont[shape[i].0 := v];
      assert ContainerPairs(g, contObj, shape)[..i + 1][..i] == ContainerPairs(g, contObj, shape)[..i];
      i := i + 1;
    }
    assert ContainerPairs(g, contObj, shape)[..i] == ContainerPairs(g, contObj, shape);
  }

  /** The object-building loop of one resource. */
  method BuildResource(g: Graph, currentItem: Term, uri: string, shape: Shape) returns (resource: map<string, Value>)
    requires ResourceShape(shape)
    ensures resource == Assemble(ResourcePairs(g, currentItem, uri, shape))
  {
    resource := map[];
    var i := 0;
    while i < |shape|
      invariant 0 <= i <= |shape|
      invariant resource == Assemble(ResourcePairs(g, currentItem, uri, shape[..i]))
    {
      var s := shape[i].0;
      assert shape[..i + 1][..i] == shape[..i];
      if s == "containerUri" {
        resource := resource[s := Str(uri)];
      } else if s != "vocab" {
        var v := ReadEntry(g, currentItem, OptionValue(UriOf(currentItem)), shape[i].1);
        resource := resource[s := v];
      }
      i := i + 1;
    }
    assert shape[..i] == shape;
  }

  /**
   * getUserCard's object has exactly the shape's keys, and a key whose
   * descriptor names a predicate holds the first object stored for
   * (webid, predicate), or the descriptor's default when there is none.
   */
  lemma CardSpec(g: Graph, webid: string, shape: Shape, i: nat)
    requires forall j :: 0 <= j < |shape| ==> !shape[j].1.Absent?
    requires i < |shape| && UniqueKeys(shape)
    requires shape[i].1.Descriptor? && shape[i].1.vocab.Some?
    ensures forall k :: k in Assemble(CardPairs(g, webid, shape)) <==> exists j :: 0 <= j < |shape| && shape[j].0 == k
    ensures var found := FirstObject(g, Named(webid), shape[i].1.vocab.value);
      shape[i].0 in Assemble(CardPairs(g, webid, shape)) &&
      Assemble(CardPairs(g, webid, shape))[shape[i].0] == (if found.Some? then Str(found.value.value) else shape[i].1.default)
  {
    var pairs := CardPairs(g, webid, shape);
    AssembleKeys(pairs);
    forall k | k in Assemble(pairs)
      ensures exists j :: 0 <= j < |shape| && shape[j].0 == k
    {
      var j :| 0 <= j < |pairs| && pairs[j].0 == k;
      assert shape[j].0 == k;
    }
    forall j | 0 <= j < |shape|
      ensures shape[j].0 in Assemble(pairs)
    {
      assert pairs[j].0 == shape[j].0;
    }
    AssembleLookup(pairs, i);
    AnyIsFirstObject(g, Named(webid), shape[i].1.vocab.value);
  }

  /** A container entry with no vocab is the container's own URI, whatever the graph holds. */
  lemma ContainerSelfUri(g: Graph, subject: Term, shape: Shape, i: nat)
    requires forall j :: 0 <= j < |shape| ==> Readable(shape[j].1)
    requires i < |shape| && UniqueKeys(shape) && VocabOf(shape[i].1).None?
    ensures shape[i].0 in Assemble(ContainerPairs(g, subject, shape))
    ensures Assemble(ContainerPairs(g, subject, shape))[shape[i].0] == Str(subject.value)
  {
    AssembleLookup(ContainerPairs(g, subject, shape), i);
  }

  /**
   * A container entry with a vocab and a sub-shape becomes a fresh object
   * with exactly the sub-shape's keys; a sub-key with a predicate holds the
   * first object stored for (node, predicate), where node is the first object
   * of (container, vocab), or its default when there is none.
   */
  lemma ContainerSubObject(g: Graph, subject: Term, shape: Shape, i: nat, j: nat)
    requires forall k :: 0 <= k < |shape| ==> Readable(shape[k].1)
    requires i < |shape| && UniqueKeys(shape)
    requires VocabOf(shape[i].1).Some? && SubOf(shape[i].1).Some?
    requires UniqueKeys(SubOf(shape[i].1).value) && j < |SubOf(shape[i].1).value|
    requires var e := SubOf(shape[i].1).value[j].1; e.Descriptor? && e.vocab.Some?
    ensures shape[i].0 in Assemble(ContainerPairs(g, subject, shape))
    ensures var node := FirstObject(g, subject, VocabOf(shape[i].1).value);
      var sub := SubOf(shape[i].1).value;
      var e := sub[j].1;
      var v := Assemble(ContainerPairs(g, subject, shape))[shape[i].0];
      v.Obj? &&
      (forall k :: k in v.fields <==> exists m :: 0 <= m < |sub| && sub[m].0 == k) &&
      sub[j].0 in v.fields &&
      v.fields[sub[j].0] ==
        (if node.Some? && FirstObject(g, node.value, e.vocab.value).Some?
         then Str(FirstObject(g, node.value, e.vocab.value).value.value)
         else if node.Some? then e.default
         else Resolve(Any(g, None, e.vocab), e.default))
  {
    var sub := SubOf(shape[i].1).value;
    var node := FirstObject(g, subject, VocabOf(shape[i].1).value);
    AssembleLookup(ContainerPairs(g, subject, shape), i);
    AnyIsFirstObject(g, subject, VocabOf(shape[i].1).value);
    var pairs := SubPairs(g, node, sub);
    AssembleKeys(pairs);
    forall k | k in Assemble(pairs)
      ensures exists m :: 0 <= m < |sub| && sub[m].0 == k
    {
      var m :| 0 <= m < |pairs| && pairs[m].0 == k;
      assert sub[m].0 == k;
    }
    forall m | 0 <= m < |sub|
      ensures sub[m].0 in Assemble(pairs)
    {
      assert pairs[m].0 == sub[m].0;
    }
    AssembleLookup(pairs, j);
    if node.Some? {
      AnyIsFirstObject(g, node.value, sub[j].1.vocab.value);
    }
  }

  /** A shape key is present among the entries. */
  predicate HasKey(shape: Shape, k: string)
  {
    exists i :: 0 <= i < |shape| && shape[i].0 == k
  }
  lemma HasKeySnoc(shape: Shape, k: string)
    requires shape != []
    ensures HasKey(shape, k) <==> HasKey(shape[..|shape| - 1], k) || shape[|shape| - 1].0 == k
  {
    var n := |shape| - 1;
    if HasKey(shape, k) && shape[n].0 != k {
      var i :| 0 <= i < |shape| && shape[i].0 == k;
      assert shape[..n][i].0 == k;
    }
    if HasKey(shape[..n], k) {
      var i :| 0 <= i < n && shape[..n][i].0 == k;
      assert shape[i].0 == k;
    }
  }
  /** Appending one entry to the shape adds its key, unless it is `vocab`. */
  lemma ResourceKeysSnoc(g: Graph, item: Term, uri: string, shape: Shape)
    requires ResourceShape(shape) && shape != []
    ensures ResourceShape(shape[..|shape| - 1])
    ensures forall k :: k in Assemble(ResourcePairs(g, item, uri, shape)) <==>
      k in Assemble(ResourcePairs(g, item, uri, shape[..|shape| - 1])) ||
      (k == shape[|shape| - 1].0 && k != "vocab")
  {
    var n := |shape| - 1;
    ShapePrefix(shape, n);
    var before := ResourcePairs(g, item, uri, shape[..n]);
    if shape[n].0 == "containerUri" {
      AssembleSnoc(before, shape[n].0, Str(uri));
    } else if shape[n].0 != "vocab" {
      AssembleSnoc(before, shape[n].0, EntryValue(g, item, OptionValue(UriOf(item)), shape[n].1));
    }
  }
  /** Appending one entry keeps the other keys' values and sets its own. */
  lemma ResourceValueSnoc(g: Graph, item: Term, uri: string, shape: Shape)
    requires ResourceShape(shape) && shape != []
    ensures ResourceShape(shape[..|shape| - 1])
    ensures forall k :: k != shape[|shape| - 1].0 && k in Assemble(ResourcePairs(g, item, uri, shape[..|shape| - 1])) ==>
      k in Assemble(ResourcePairs(g, item, uri, shape)) &&
      Assemble(ResourcePairs(g, item, uri, shape))[k] == Assemble(ResourcePairs(g, item, uri, shape[..|shape| - 1]))[k]
    ensures shape[|shape| - 1].0 != "vocab" && shape[|shape| - 1].0 != "containerUri" ==>
      shape[|shape| - 1].0 in Assemble(ResourcePairs(g, item, uri, shape)) &&
      Assemble(ResourcePairs(g, item, uri, shape))[shape[|shape| - 1].0] ==
        EntryValue(g, item, OptionValue(UriOf(item)), shape[|shape| - 1].1)
  {
    var n := |shape| - 1;
    ShapePrefix(shape, n);
    var before := ResourcePairs(g, item, uri, shape[..n]);
    if shape[n].0 == "containerUri" {
      AssembleSnoc(before, shape[n].0, Str(uri));
    } else if shape[n].0 != "vocab" {
      AssembleSnoc(before, shape[n].0, EntryValue(g, item, OptionValue(UriOf(item)), shape[n].1));
    }
  }

  /** A resource object never has the key `vocab`; it has every other key of the shape. */
  lemma {:induction false} ResourceKeys(g: Graph, item: Term, uri: string, shape: Shape)
    requires ResourceShape(shape)
    ensures forall k :: k in Assemble(ResourcePairs(g, item, uri, shape)) <==> k != "vocab" && HasKey(shape, k)
  {
    if shape != [] {
      var n := |shape| - 1;
      ResourceKeysSnoc(g, item, uri, shape);
      ResourceKeys(g, item, uri, shape[..n]);
      forall k
        ensures k in Assemble(ResourcePairs(g, item, uri, shape)) <==> k != "vocab" && HasKey(shape, k)
      {
        HasKeySnoc(shape, k);
      }
    }
  }
  lemma {:induction false} ResourceContainerUri(g: Graph, item: Term, uri: string, shape: Shape)
    requires ResourceShape(shape)
    ensures "containerUri" in Assemble(ResourcePairs(g, item, uri, shape)) ==>
      Assemble(ResourcePairs(g, item, uri, shape))["containerUri"] == Str(uri)
  {
    if shape != [] {
      ResourceContainerUri(g, item, uri, shape[..|shape| - 1]);
    }
  }

  /** A prefix of a resource shape is a resource shape, with unique keys when the shape has them. */
  lemma ShapePrefix(shape: Shape, n: nat)
    requires ResourceShape(shape) && n <= |shape|
    ensures ResourceShape(shape[..n])
    ensures UniqueKeys(shape) ==> UniqueKeys(shape[..n])
  {
    assert forall j :: 0 <= j < n ==> shape[..n][j] == shape[j];
  }

  /**
   * Any other resource key holds its entry's value for the item; an entry
   * with no vocab holds the item's URI (`undefined` when the item is not a named node).
   */
  lemma {:induction false} ResourceEntry(g: Graph, item: Term, uri: string, shape: Shape, i: nat)
    requires ResourceShape(shape) && i < |shape| && UniqueKeys(shape)
    requires shape[i].0 != "containerUri" && shape[i].0 != "vocab"
    ensures shape[i].0 in Assemble(ResourcePairs(g, item, uri, shape))
    ensures Assemble(ResourcePairs(g, item, uri, shape))[shape[i].0] == EntryValue(g, item, OptionValue(UriOf(item)), shape[i].1)
  {
    var n := |shape| - 1;
    ResourceValueSnoc(g, item, uri, shape);
    if i < n {
      ShapePrefix(shape, n);
      assert shape[..n][i] == shape[i];
      assert shape[n].0 != shape[i].0;
      ResourceEntry(g, item, uri, shape[..n], i);
    }
  }

  /** An entry without a predicate holds the item's own URI. */
  lemma ResourceSelfUri(g: Graph, item: Term, uri: string, shape: Shape, i: nat)
    requires ResourceShape(shape) && i < |shape| && UniqueKeys(shape)
    requires shape[i].0 != "containerUri" && shape[i].0 != "vocab" && VocabOf(shape[i].1).None?
    ensures shape[i].0 in Assemble(ResourcePairs(g, item, uri, shape))
    ensures Assemble(ResourcePairs(g, item, uri, shape))[shape[i].0] == OptionValue(UriOf(item))
  {
    ResourceEntry(g, item, uri, shape, i);
  }

  /** The client of js/crosscloudclient.js: one store shared by every call. */
  class Client {
    var graph: Graph

    constructor ()
      ensures graph == []
    {
      graph := [];
    }

    /** `f.nowOrWhenFetched`: what the fetcher loads is added to the shared store. */
    method Load(fetch: Fetch)
      modifies this
      ensures graph == old(graph) + FetchedTriples(fetch)
    {
      graph := graph + FetchedTriples(fetch);
    }

    /**
     * getUserCard (js/crosscloudclient.js:18-36): the callback receives a
     * one-element list holding the card, or an empty list and the body when
     * the fetch failed. The document fetched is computed as written, so a
     * webid without a fragment loses its last character.
     */
    method GetUserCard(webid: string, shape: Shape, fetch: Fetch) returns (docUri: string, results: seq<map<string, Value>>, body: Option<string>)
      requires forall i :: 0 <= i < |shape| ==> !shape[i].1.Absent?
      modifies this
      ensures docUri == ProfileDocumentAsWritten(webid)
      ensures '#' in webid ==> docUri == ProfileDocument(webid)
      ensures '#' !in webid && webid != "" ==> docUri == webid[..|webid| - 1]
      ensures graph == old(graph) + FetchedTriples(fetch)
      ensures fetch.Loaded? ==> results == [Assemble(CardPairs(graph, webid, shape))] && body.None?
      ensures fetch.Failed? ==> results == [] && body == Some(fetch.body)
    {
      docUri := ProfileDocumentAsWritten(webid);
      ProfileDocumentSpec(webid);
      if '#' !in webid && webid != "" {
        ProfileDocumentAsWrittenDropsLastChar(webid);
      }
      Load(fetch);
      if fetch.Loaded? {
        var emptyObj := BuildCard(graph, webid, shape);
        results := [emptyObj];
        body := None;
      } else {
        results := [];
        body := Some(fetch.body);
      }
    }

    /**
     * getContainers (js/crosscloudclient.js:38-74): the listing is fetched,
     * then each workspace's documents; after each workspace fetch the callback
     * receives every container object found so far. spaces holds the
     * workspace fetches in the order they complete; spaces[i] is what the
     * (i+1)-th fetch to complete loads.
     */
    method GetContainers(uri: string, shape: Shape, listing: Fetch, spaces: seq<Fetch>) returns (calls: seq<seq<map<string, Value>>>)
      requires forall i :: 0 <= i < |shape| ==> Readable(shape[i].1)
      requires |spaces| == |TypedSubjects(graph + FetchedTriples(listing), Some(SiocSpace))|
      modifies this
      ensures graph == old(graph) + FetchedTriples(listing) + AllFetched(spaces)
      ensures |calls| == |spaces|
      ensures forall i :: 0 <= i < |spaces| ==>
        calls[i] == CumulativeObjects(old(graph) + FetchedTriples(listing), spaces[..i + 1], shape)
    {
      Load(listing);
      ghost var base := graph;
      var workspaces := TypedSubjects(graph, Some(SiocSpace));
      var results: seq<map<string, Value>> := [];
      calls := [];
      var i := 0;
      while i < |workspaces|
        invariant 0 <= i <= |workspaces| && |calls| == i
        invariant graph == base + AllFetched(spaces[..i])
        invariant results == CumulativeObjects(base, spaces[..i], shape)
        invariant forall j :: 0 <= j < i ==> calls[j] == CumulativeObjects(base, spaces[..j + 1], shape)
      {
        Load(spaces[i]);
        FetchedStep(base, spaces, i);
        var containers := CollectContainers(graph, shape);
        results := results + containers;
        CumulativeStep(base, spaces, i, shape);
        calls := calls + [results];
        i := i + 1;
      }
      assert spaces[..i] == spaces;
    }

    /**
     * getResource (js/crosscloudclient.js:77-109): one object per subject
     * typed `shape.vocab`, in match order, delivered in a single callback.
     */
    method GetResource(uri: string, shape: Shape, fetch: Fetch) returns (results: seq<map<string, Value>>)
      requires ResourceShape(shape)
      modifies this
      ensures graph == old(graph) + FetchedTriples(fetch)
      ensures |results| == |TypedSubjects(graph, ShapeVocab(shape))|
      ensures forall k :: 0 <= k < |results| ==>
        results[k] == Assemble(ResourcePairs(graph, TypedSubjects(graph, ShapeVocab(shape))[k], uri, shape))
    {
      Load(fetch);
      var items := TypedSubjects(graph, ShapeVocab(shape));
      results := [];
      var k := 0;
      while k < |items|
        invariant 0 <= k <= |items| && |results| == k
        invariant graph == old(graph) + FetchedTriples(fetch)
        invariant forall j :: 0 <= j < k ==> results[j] == Assemble(ResourcePairs(graph, items[j], uri, shape))
      {
        var resource := BuildResource(graph, items[k], uri, shape);
        results := results + [resource];
        k := k + 1;
      }
    }
  }
}
