/**
 * The RDF graph the client reads and writes, as an ordered list of triples.
 * The graph store is a collaborator of the client; only the three of its
 * operations the client uses are modelled: add (append), statementsMatching
 * (filter, in insertion order) and any (the first match).
 */
module Rdf {
  import opened Wrappers

  /** A named node (`$rdf.sym`), a literal (`$rdf.lit`) or a blank node; `value` is the term's `.value`. */
  datatype Term = Named(value: string) | Literal(value: string) | Blank(value: string)

  datatype Triple = Triple(subj: Term, pred: Term, obj: Term)

  type Graph = seq<Triple>

  const RdfNamespace := "http://www.w3.org/1999/02/22-rdf-syntax-ns#"
  const AclNamespace := "http://www.w3.org/ns/auth/acl#"
  const FoafNamespace := "http://xmlns.com/foaf/0.1/"
  const SiocNamespace := "http://rdfs.org/sioc/ns#"
  const RdfsNamespace := "http://www.w3.org/2000/01/rdf-schema#"

  const RdfType := Named(RdfNamespace + "type")

  /** A term of the W3C Web Access Control vocabulary, `WAC(local)`. */
  function Wac(local: string): Term
  {
    Named(AclNamespace + local)
  }

  const FoafAgent := Named(FoafNamespace + "Agent")
  const SiocSpace := Named(SiocNamespace + "Space")
  const SiocContainer := Named(SiocNamespace + "Container")
  const RdfsResource := Named(RdfsNamespace + "Resource")

  /** The `.uri` of a term: named nodes have one, other terms do not. */
  function UriOf(t: Term): Option<string>
  {
    if t.Named? then Some(t.value) else None
  }

  /** Does t fit the pattern? An absent position is a wildcard, as `undefined` is for the graph store. */
  predicate Matches(t: Triple, s: Option<Term>, p: Option<Term>, o: Option<Term>)
  {
    (s.None? || t.subj == s.value) &&
    (p.None? || t.pred == p.value) &&
    (o.None? || t.obj == o.value)
  }

  /** `g.statementsMatching(s, p, o)`: the matching triples, in the order they were added. */
  function StatementsMatching(g: Graph, s: Option<Term>, p: Option<Term>, o: Option<Term>): (r: Graph)
    ensures |r| <= |g|
    ensures forall t :: t in r <==> t in g && Matches(t, s, p, o)
  {
    if g == [] then []
    else (if Matches(g[0], s, p, o) then [g[0]] else []) + StatementsMatching(g[1..], s, p, o)
  }

  /** The subjects of a list of statements, in order (`statements[i]['subject']`). */
  function Subjects(ts: Graph): (r: seq<Term>)
    ensures |r| == |ts|
    ensures forall i :: 0 <= i < |ts| ==> r[i] == ts[i].subj
  {
    seq(|ts|, i requires 0 <= i < |ts| => ts[i].subj)
  }

  /**
   * `g.any(s, p)`: the first triple matching (s, p, _), and from it the term in
   * the first open position: its subject when s is absent, else its predicate
   * when p is absent, else its object; none when nothing matches.
   */
  function Any(g: Graph, s: Option<Term>, p: Option<Term>): Option<Term>
  {
    var m := StatementsMatching(g, s, p, None);
    if m == [] then None
    else if s.None? then Some(m[0].subj)
    else if p.None? then Some(m[0].pred)
    else Some(m[0].obj)
  }

  /** The object of the first triple with subject s and predicate p: the reference reading of `any`. */
  function FirstObject(g: Graph, s: Term, p: Term): (r: Option<Term>)
  {
    if g == [] then None
    else if g[0].subj == s && g[0].pred == p then Some(g[0].obj)
    else FirstObject(g[1..], s, p)
  }

  /** FirstObject finds a triple (s, p, o) that no earlier (s, p, _) triple precedes, and finds none exactly when there is none. */
  lemma {:induction false} FirstObjectSpec(g: Graph, s: Term, p: Term)
    ensures FirstObject(g, s, p).None? <==> forall t :: t in g ==> !(t.subj == s && t.pred == p)
    ensures FirstObject(g, s, p).Some? ==>
      exists i :: 0 <= i < |g| && g[i] == Triple(s, p, FirstObject(g, s, p).value) &&
        forall j :: 0 <= j < i ==> !(g[j].subj == s && g[j].pred == p)
  {
    if g != [] && !(g[0].subj == s && g[0].pred == p) {
      FirstObjectSpec(g[1..], s, p);
      if FirstObject(g, s, p).Some? {
        var i :| 0 <= i < |g[1..]| && g[1..][i] == Triple(s, p, FirstObject(g, s, p).value) &&
          forall j :: 0 <= j < i ==> !(g[1..][j].subj == s && g[1..][j].pred == p);
        assert g[i + 1] == Triple(s, p, FirstObject(g, s, p).value);
      }
      assert g == [g[0]] + g[1..];
    } else if g != [] {
      assert g[0] == Triple(s, p, g[0].obj);
    }
  }

  /** With subject and predicate both given, `any` returns the first matching object. */
  lemma {:induction false} AnyIsFirstObject(g: Graph, s: Term, p: Term)
    ensures Any(g, Some(s), Some(p)) == FirstObject(g, s, p)
  {
    if g != [] {
      AnyIsFirstObject(g[1..], s, p);
    }
  }

  /** With no triple matching the pattern, statementsMatching returns nothing. */
  lemma {:induction false} NoMatchNoStatements(g: Graph, s: Option<Term>, p: Option<Term>, o: Option<Term>)
    requires forall t :: t in g ==> !Matches(t, s, p, o)
    ensures StatementsMatching(g, s, p, o) == []
  {
    if g != [] {
      assert g[0] in g;
      NoMatchNoStatements(g[1..], s, p, o);
    }
  }

  /** The only object stored for (s, p) is the one `any` finds. */
  lemma {:induction false} FirstObjectOfOnly(g: Graph, s: Term, p: Term, o: Term)
    requires Triple(s, p, o) in g
    requires forall t :: t in g && t.subj == s && t.pred == p ==> t.obj == o
    ensures FirstObject(g, s, p) == Some(o)
  {
    if !(g[0].subj == s && g[0].pred == p) {
      assert Triple(s, p, o) in g[1..];
      FirstObjectOfOnly(g[1..], s, p, o);
    }
  }

  /** The subject of the first triple with predicate p. */
  function FirstSubjectWith(g: Graph, p: Term): Option<Term>
  {
    if g == [] then None
    else if g[0].pred == p then Some(g[0].subj)
    else FirstSubjectWith(g[1..], p)
  }

  /** With the subject left open, `any` returns the subject of the first triple with the predicate, not an object. */
  lemma {:induction false} AnyWithoutSubject(g: Graph, p: Term)
    ensures Any(g, None, Some(p)) == FirstSubjectWith(g, p)
  {
    if g != [] {
      AnyWithoutSubject(g[1..], p);
    }
  }

  /** The graph store seen as a mutable buffer that `g.add` appends to. */
  class TripleStore {
    var triples: Graph

    constructor ()
      ensures triples == []
    {
      triples := [];
    }

    /** `g.add(s, p, o)`. */
    method Add(s: Term, p: Term, o: Term)
      modifies this
      ensures triples == old(triples) + [Triple(s, p, o)]
    {
      triples := triples + [Triple(s, p, o)];
    }
  }
}
