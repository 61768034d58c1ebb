/**
 * The shape objects of the top-level client: a shape names the RDF class of
 * the things it describes (`vocab`) and holds, key by key, properties that
 * pair a predicate (`vocab`) with a `value`. A value may itself be a shape
 * object, which the writer stores under a fragment (`reference`) of the
 * document and the readers fill one level deep.
 */
module ShapeObjects {
  import opened Wrappers
  import opened Rdf

  /** The term constructor a property names in `value_type`: `$rdf.lit` or `$rdf.sym`. */
  datatype ValueKind = AsLiteral | AsSymbol

  /** What a property's `value` holds. */
  datatype PropValue =
    | Undefined                       // `undefined`, as the shape constructors leave it
    | Text(text: string)              // a JavaScript string
    | TermValue(term: Term)           // an `$rdf.Literal` or `$rdf.Symbol` object
    | Embedded(shape: ShapeObject)    // a sub-shape object (for instance a creator inside a post)

  /** One entry of `shape.properties`; `value_type` may be left out, as the example shapes do for some keys. */
  datatype Property = Property(vocab: Term, value: PropValue, valueType: Option<ValueKind>, reference: Option<string>)

  /** A shape object: its RDF class, when it has one, and its properties in key order. */
  datatype ShapeObject = ShapeObject(vocab: Option<Term>, properties: seq<(string, Property)>)

  /** JavaScript truthiness of a value: `undefined` and the empty string are false, any object is true. */
  predicate Truthy(v: PropValue)
  {
    match v
    case Undefined => false
    case Text(s) => s != ""
    case TermValue(_) => true
    case Embedded(_) => true
  }

  /** `attr.value instanceof Object`: true of terms and sub-shapes, false of strings and `undefined`. */
  predicate IsObject(v: PropValue)
  {
    v.TermValue? || v.Embedded?
  }

  /**
   * A value the writer stores as a single object term: a string, or an
   * `$rdf.Literal` or `$rdf.Symbol`. A blank node is an object of neither
   * class, so the writer's `instanceof` test would treat it as a sub-shape.
   */
  predicate Scalar(v: PropValue)
  {
    v.Text? || (v.TermValue? && !v.term.Blank?)
  }

  /**
   * A property the writer can store as one triple: its value is scalar and it
   * names a `value_type` to call (without one, `attr.value_type(...)` throws).
   */
  predicate Writable(p: Property)
  {
    Scalar(p.value) && p.valueType.Some?
  }

  /** `attr.value_type(attr.value)` for a string or a term: the term of the property's kind with that lexical value. */
  function ScalarTerm(p: Property): (t: Term)
    requires Writable(p)
    ensures t.value == (if p.value.Text? then p.value.text else p.value.term.value)
    ensures p.valueType == Some(AsLiteral) <==> t.Literal?
    ensures p.valueType == Some(AsSymbol) <==> t.Named?
  {
    var lexical := if p.value.Text? then p.value.text else p.value.term.value;
    match p.valueType.value
    case AsLiteral => Literal(lexical)
    case AsSymbol => Named(lexical)
  }

  /** `"#" + attr.reference`: string concatenation turns a missing reference into "#undefined". */
  function Fragment(p: Property): (f: string)
    ensures |f| >= 1 && f[0] == '#'
    ensures p.reference.Some? ==> f[1..] == p.reference.value
    ensures p.reference.None? ==> f == "#undefined"
  {
    "#" + (if p.reference.Some? then p.reference.value else "undefined")
  }

  /**
   * The shapes the writer handles without throwing: a shape object, and every
   * sub-shape it embeds, has a class to give its type triple, and every
   * truthy value that is not a sub-shape is writable (no blank node, and a
   * `value_type` is named).
   */
  predicate Typed(obj: ShapeObject)
    decreases obj
  {
    obj.vocab.Some? &&
    (forall i :: 0 <= i < |obj.properties| && Truthy(obj.properties[i].1.value) && !obj.properties[i].1.value.Embedded? ==>
      Writable(obj.properties[i].1)) &&
    forall i :: 0 <= i < |obj.properties| && obj.properties[i].1.value.Embedded? ==>
      Typed(obj.properties[i].1.value.shape)
  }

  /** No property embeds a sub-shape. */
  predicate Flat(obj: ShapeObject)
  {
    forall i :: 0 <= i < |obj.properties| ==> !obj.properties[i].1.value.Embedded?
  }
}
