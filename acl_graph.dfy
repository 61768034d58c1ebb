/**
 * The access-control document setAcl writes (crosscloudclient.js:244-316),
 * in the W3C Web Access Control vocabulary. The document always holds an
 * owner authorisation `<>` granting the owner Read and Write on the document
 * itself, the resource and its meta document; when modes are given it holds
 * a second authorisation `<#name>` (name = basename of the resource) granting
 * those modes to the listed agents, or to everyone when no group is given.
 */
module AclGraph {
  import opened Wrappers
  import opened JsString
  import opened Rdf
  import opened LinkHeader

  const Authorization := Wac("Authorization")
  const AccessTo := Wac("accessTo")
  const Agent := Wac("agent")
  const AgentClass := Wac("agentClass")
  const Mode := Wac("mode")
  const Read := Wac("Read")
  const Write := Wac("Write")

  /** The document itself, `$rdf.sym('')`. */
  const Doc := Named("")

  /** The second authorisation's node, `"#" + basename(uri)`. */
  function Frag(uri: string): (t: Term)
    ensures t != Doc
  {
    Named("#" + Basename(uri))
  }

  /** The owner authorisation (crosscloudclient.js:267-278); the meta document is granted only when its URI is non-empty. */
  function OwnerAuthorization(uri: string, owner: string, metaUri: Option<string>): Graph
  {
    [Triple(Doc, RdfType, Authorization), Triple(Doc, AccessTo, Doc), Triple(Doc, AccessTo, Named(uri))] +
    (if metaUri.Some? && metaUri.value != "" then [Triple(Doc, AccessTo, Named(metaUri.value))] else []) +
    [Triple(Doc, Agent, Named(owner)), Triple(Doc, Mode, Read), Triple(Doc, Mode, Write)]
  }

  /** One `agent` triple per group member, in order. */
  function GroupTriples(frag: Term, group: seq<string>): (r: Graph)
    ensures |r| == |group|
  {
    seq(|group|, j requires 0 <= j < |group| => Triple(frag, Agent, Named(group[j])))
  }

  /** One `mode` triple per mode name, normalised by firstLetterUpperCase. */
  function ModeTriples(frag: Term, modes: seq<string>): (r: Graph)
    ensures |r| == |modes|
  {
    seq(|modes|, i requires 0 <= i < |modes| => Triple(frag, Mode, Wac(FirstLetterUpperCase(modes[i]))))
  }

  /** The second authorisation (crosscloudclient.js:280-296): to the group's agents, or to every agent when there is no group. */
  function ModesAuthorization(uri: string, modes: seq<string>, group: Option<seq<string>>): Graph
  {
    var frag := Frag(uri);
    [Triple(frag, RdfType, Authorization), Triple(frag, AccessTo, Named(uri))] +
    (if group.Some? then GroupTriples(frag, group.value) else [Triple(frag, AgentClass, FoafAgent)]) +
    ModeTriples(frag, modes)
  }

  /** The whole access-control graph, in the order setAcl adds it. */
  function AclTriples(uri: string, owner: string, modes: Option<seq<string>>, group: Option<seq<string>>, metaUri: Option<string>): Graph
  {
    OwnerAuthorization(uri, owner, metaUri) +
    (if modes.Some? then ModesAuthorization(uri, modes.value, group) else [])
  }

  /** The graph-building statements of setAcl's HEAD handler, over a fresh store. */
  method BuildAcl(uri: string, owner: string, modes: Option<seq<string>>, group: Option<seq<string>>, metaUri: Option<string>)
    returns (g: TripleStore)
    ensures fresh(g)
    ensures g.triples == AclTriples(uri, owner, modes, group, metaUri)
  {
    g := new TripleStore();
    AddOwner(g, uri, owner, metaUri);
    assert g.triples == OwnerAuthorization(uri, owner, metaUri);
    if modes.Some? {
      AddModesAuthorization(g, uri, modes.value, group);
    }
  }

  /** The owner statements (crosscloudclient.js:267-278). */
  method AddOwner(g: TripleStore, uri: string, owner: string, metaUri: Option<string>)
    modifies g
    ensures g.triples == old(g.triples) + OwnerAuthorization(uri, owner, metaUri)
  {
    ghost var g0 := g.triples;
    g.Add(Doc, RdfType, Authorization);
    g.Add(Doc, AccessTo, Doc);
    g.Add(Doc, AccessTo, Named(uri));
    ghost var head := [Triple(Doc, RdfType, Authorization), Triple(Doc, AccessTo, Doc), Triple(Doc, AccessTo, Named(uri))];
    assert g.triples == g0 + head;
    ghost var meta := if metaUri.Some? && metaUri.value != "" then [Triple(Doc, AccessTo, Named(metaUri.value))] else [];
    if metaUri.Some? && metaUri.value != "" {
      g.Add(Doc, AccessTo, Named(metaUri.value));
    }
    assert g.triples == g0 + head + meta;
    ghost var g1 := g.triples;
    g.Add(Doc, Agent, Named(owner));
    g.Add(Doc, Mode, Read);
    g.Add(Doc, Mode, Write);
    ghost var grant := [Triple(Doc, Agent, Named(owner)), Triple(Doc, Mode, Read), Triple(Doc, Mode, Write)];
    assert g.triples == g1 + grant;
    AppendAssoc(g0, head, meta, grant);
  }

  /** The statements of the second authorisation (crosscloudclient.js:280-296). */
  method AddModesAuthorization(g: TripleStore, uri: string, modes: seq<string>, group: Option<seq<string>>)
    modifies g
    ensures g.triples == old(g.triples) + ModesAuthorization(uri, modes, group)
  {
    var frag := Frag(uri);
    ghost var g0 := g.triples;
    g.Add(frag, RdfType, Authorization);
    g.Add(frag, AccessTo, Named(uri));
    ghost var head := [Triple(frag, RdfType, Authorization), Triple(frag, AccessTo, Named(uri))];
    assert g.triples == g0 + head;
    ghost var agents := if group.Some? then GroupTriples(frag, group.value) else [Triple(frag, AgentClass, FoafAgent)];
    if group.Some? {
      AddGroup(g, frag, group.value);
    } else {
      g.Add(frag, AgentClass, FoafAgent);
    }
    assert g.triples == g0 + head + agents;
    AddModes(g, frag, modes);
    AppendAssoc(g0, head, agents, ModeTriples(frag, modes));
  }

  /** Regrouping four appends, which the two builders above need to match their specifications. */
  lemma AppendAssoc(a: Graph, b: Graph, c: Graph, d: Graph)
    ensures a + b + c + d == a + (b + c + d)
  {
  }

  /** The loop over the group: one `agent` statement per member. */
  method AddGroup(g: TripleStore, frag: Term, group: seq<string>)
    modifies g
    ensures g.triples == old(g.triples) + GroupTriples(frag, group)
  {
    var j := 0;
    while j < |group|
      invariant 0 <= j <= |group|
      invariant g.triples == old(g.triples) + GroupTriples(frag, group[..j])
    {
      g.Add(frag, Agent, Named(group[j]));
      j := j + 1;
    }
    assert group[..j] == group;
  }

  /** The loop over the modes: one `mode` statement per name. */
  method AddModes(g: TripleStore, frag: Term, modes: seq<string>)
    modifies g
    ensures g.triples == old(g.triples) + ModeTriples(frag, modes)
  {
    var i := 0;
    while i < |modes|
      invariant 0 <= i <= |modes|
      invariant g.triples == old(g.triples) + ModeTriples(frag, modes[..i])
    {
      g.Add(frag, Mode, Wac(FirstLetterUpperCase(modes[i])));
      i := i + 1;
    }
    assert modes[..i] == modes;
  }

  /** Wac terms are equal only for equal local names. */
  lemma WacInjective(a: string, b: string)
    requires Wac(a) == Wac(b)
    ensures a == b
  {
    assert a == Wac(a).value[|AclNamespace|..];
    assert b == Wac(b).value[|AclNamespace|..];
  }

  /** Distinct local names give distinct Wac terms. */
  lemma WacDistinct(a: string, b: string)
    requires a != b
    ensures Wac(a) != Wac(b)
  {
    if Wac(a) == Wac(b) {
      WacInjective(a, b);
    }
  }

  /** No Wac term is rdf:type: the namespaces part at their 19th character. */
  lemma WacIsNotRdfType(local: string)
    ensures Wac(local) != RdfType
  {
    assert Wac(local).value[18] == 'n';
    assert RdfType.value[18] == '1';
  }

  /** Every owner triple is about the document itself. */
  lemma OwnerSubjects(uri: string, owner: string, metaUri: Option<string>)
    ensures forall t :: t in OwnerAuthorization(uri, owner, metaUri) ==> t.subj == Doc
  {
  }

  /** The owner triples, one by one. */
  lemma InOwner(t: Triple, uri: string, owner: string, metaUri: Option<string>)
    ensures t in OwnerAuthorization(uri, owner, metaUri) <==>
      t == Triple(Doc, RdfType, Authorization) || t == Triple(Doc, AccessTo, Doc) || t == Triple(Doc, AccessTo, Named(uri)) ||
      (metaUri.Some? && metaUri.value != "" && t == Triple(Doc, AccessTo, Named(metaUri.value))) ||
      t == Triple(Doc, Agent, Named(owner)) || t == Triple(Doc, Mode, Read) || t == Triple(Doc, Mode, Write)
  {
  }

  /** A triple of the document is an owner triple or, with modes, one of the second authorisation. */
  lemma InAcl(t: Triple, uri: string, owner: string, modes: Option<seq<string>>, group: Option<seq<string>>, metaUri: Option<string>)
    ensures t in AclTriples(uri, owner, modes, group, metaUri) <==>
      t in OwnerAuthorization(uri, owner, metaUri) || (modes.Some? && t in ModesAuthorization(uri, modes.value, group))
  {
  }

  /** The triples of the second authorisation, part by part. */
  lemma InModesAuthorization(t: Triple, uri: string, modes: seq<string>, group: Option<seq<string>>)
    ensures t in ModesAuthorization(uri, modes, group) <==>
      t == Triple(Frag(uri), RdfType, Authorization) || t == Triple(Frag(uri), AccessTo, Named(uri)) ||
      (group.Some? && t in GroupTriples(Frag(uri), group.value)) ||
      (group.None? && t == Triple(Frag(uri), AgentClass, FoafAgent)) ||
      t in ModeTriples(Frag(uri), modes)
  {
  }

  /** The group triples grant `agent` to the members and nothing else. */
  lemma InGroupTriples(t: Triple, frag: Term, group: seq<string>)
    ensures t in GroupTriples(frag, group) <==> t.subj == frag && t.pred == Agent && t.obj.Named? && t.obj.value in group
  {
    if t.subj == frag && t.pred == Agent && t.obj.Named? && t.obj.value in group {
      var j :| 0 <= j < |group| && group[j] == t.obj.value;
      assert GroupTriples(frag, group)[j] == t;
    }
  }

  /** The mode triples grant `mode` with the normalised names and nothing else. */
  lemma InModeTriples(t: Triple, frag: Term, modes: seq<string>)
    ensures t in ModeTriples(frag, modes) <==>
      t.subj == frag && t.pred == Mode && exists i :: 0 <= i < |modes| && t.obj == Wac(FirstLetterUpperCase(modes[i]))
  {
    if t.subj == frag && t.pred == Mode && exists i :: 0 <= i < |modes| && t.obj == Wac(FirstLetterUpperCase(modes[i])) {
      var i :| 0 <= i < |modes| && t.obj == Wac(FirstLetterUpperCase(modes[i]));
      assert ModeTriples(frag, modes)[i] == t;
    }
  }

  /** The owner authorisation is always there: the document, the resource, the owner, Read and Write. */
  lemma OwnerAlwaysGranted(uri: string, owner: string, modes: Option<seq<string>>, group: Option<seq<string>>, metaUri: Option<string>)
    ensures var g := AclTriples(uri, owner, modes, group, metaUri);
      Triple(Doc, RdfType, Authorization) in g &&
      Triple(Doc, AccessTo, Doc) in g &&
      Triple(Doc, AccessTo, Named(uri)) in g &&
      Triple(Doc, Agent, Named(owner)) in g &&
      Triple(Doc, Mode, Read) in g &&
      Triple(Doc, Mode, Write) in g
  {
    forall t | t in OwnerAuthorization(uri, owner, metaUri) ensures t in AclTriples(uri, owner, modes, group, metaUri) {
      InAcl(t, uri, owner, modes, group, metaUri);
    }
    InOwner(Triple(Doc, RdfType, Authorization), uri, owner, metaUri);
    InOwner(Triple(Doc, AccessTo, Doc), uri, owner, metaUri);
    InOwner(Triple(Doc, AccessTo, Named(uri)), uri, owner, metaUri);
    InOwner(Triple(Doc, Agent, Named(owner)), uri, owner, metaUri);
    InOwner(Triple(Doc, Mode, Read), uri, owner, metaUri);
    InOwner(Triple(Doc, Mode, Write), uri, owner, metaUri);
  }

  /**
   * The document grants access to exactly itself, the resource and (when the
   * response named a non-empty meta URI) the meta document.
   */
  lemma OwnerAccessTargets(uri: string, owner: string, modes: Option<seq<string>>, group: Option<seq<string>>, metaUri: Option<string>, target: Term)
    ensures Triple(Doc, AccessTo, target) in AclTriples(uri, owner, modes, group, metaUri) <==>
      target == Doc || target == Named(uri) || (metaUri.Some? && metaUri.value != "" && target == Named(metaUri.value))
  {
    var t := Triple(Doc, AccessTo, target);
    InAcl(t, uri, owner, modes, group, metaUri);
    InOwner(t, uri, owner, metaUri);
    WacDistinct("agent", "accessTo");
    WacDistinct("mode", "accessTo");
    WacIsNotRdfType("accessTo");
    if modes.Some? {
      ModesSubjects(uri, modes.value, group);
    }
  }

  /** The second authorisation appears exactly when modes are given; without modes every triple is about the document. */
  lemma ModesAuthorizationIffModes(uri: string, owner: string, modes: Option<seq<string>>, group: Option<seq<string>>, metaUri: Option<string>)
    ensures Triple(Frag(uri), RdfType, Authorization) in AclTriples(uri, owner, modes, group, metaUri) <==> modes.Some?
    ensures modes.None? ==> forall t :: t in AclTriples(uri, owner, modes, group, metaUri) ==> t.subj == Doc
  {
    var t := Triple(Frag(uri), RdfType, Authorization);
    InAcl(t, uri, owner, modes, group, metaUri);
    OwnerSubjects(uri, owner, metaUri);
    if modes.Some? {
      InModesAuthorization(t, uri, modes.value, group);
    }
  }

  /** The triples of the second authorisation, as they stand: all about its node. */
  lemma ModesSubjects(uri: string, modes: seq<string>, group: Option<seq<string>>)
    ensures forall t :: t in ModesAuthorization(uri, modes, group) ==> t.subj == Frag(uri)
  {
    forall t | t in ModesAuthorization(uri, modes, group) ensures t.subj == Frag(uri) {
      InModesAuthorization(t, uri, modes, group);
      if group.Some? {
        InGroupTriples(t, Frag(uri), group.value);
      }
      InModeTriples(t, Frag(uri), modes);
    }
  }

  /** With modes, an agent is granted exactly when it is a member of the group. */
  lemma GroupAgents(uri: string, owner: string, modes: seq<string>, group: Option<seq<string>>, metaUri: Option<string>, a: string)
    ensures Triple(Frag(uri), Agent, Named(a)) in AclTriples(uri, owner, Some(modes), group, metaUri) <==>
      group.Some? && a in group.value
  {
    var t := Triple(Frag(uri), Agent, Named(a));
    InAcl(t, uri, owner, Some(modes), group, metaUri);
    InOwner(t, uri, owner, metaUri);
    InModesAuthorization(t, uri, modes, group);
    if group.Some? {
      InGroupTriples(t, Frag(uri), group.value);
    }
    InModeTriples(t, Frag(uri), modes);
    WacIsNotRdfType("agent");
    WacDistinct("agent", "accessTo");
    WacDistinct("agent", "agentClass");
    WacDistinct("agent", "mode");
  }

  /** The authorisation is public (agentClass foaf:Agent) exactly when modes are given without a group. */
  lemma PublicIffNoGroup(uri: string, owner: string, modes: Option<seq<string>>, group: Option<seq<string>>, metaUri: Option<string>)
    ensures Triple(Frag(uri), AgentClass, FoafAgent) in AclTriples(uri, owner, modes, group, metaUri) <==>
      modes.Some? && group.None?
  {
    var t := Triple(Frag(uri), AgentClass, FoafAgent);
    InAcl(t, uri, owner, modes, group, metaUri);
    InOwner(t, uri, owner, metaUri);
    if modes.Some? {
      InModesAuthorization(t, uri, modes.value, group);
      if group.Some? {
        InGroupTriples(t, Frag(uri), group.value);
      }
      InModeTriples(t, Frag(uri), modes.value);
    }
    WacDistinct("agentClass", "agent");
    WacDistinct("agentClass", "mode");
    WacDistinct("agentClass", "accessTo");
    WacIsNotRdfType("agentClass");
  }

  /** The second authorisation grants exactly the given modes, each normalised by firstLetterUpperCase. */
  lemma GrantedModes(uri: string, owner: string, modes: seq<string>, group: Option<seq<string>>, metaUri: Option<string>, m: string)
    ensures Triple(Frag(uri), Mode, Wac(m)) in AclTriples(uri, owner, Some(modes), group, metaUri) <==>
      exists i :: 0 <= i < |modes| && FirstLetterUpperCase(modes[i]) == m
  {
    var t := Triple(Frag(uri), Mode, Wac(m));
    InAcl(t, uri, owner, Some(modes), group, metaUri);
    InOwner(t, uri, owner, metaUri);
    InModesAuthorization(t, uri, modes, group);
    if group.Some? {
      InGroupTriples(t, Frag(uri), group.value);
    }
    InModeTriples(t, Frag(uri), modes);
    WacIsNotRdfType("mode");
    WacDistinct("mode", "accessTo");
    WacDistinct("mode", "agent");
    WacDistinct("mode", "agentClass");
    forall i | 0 <= i < |modes| && Wac(m) == Wac(FirstLetterUpperCase(modes[i]))
      ensures FirstLetterUpperCase(modes[i]) == m
    {
      WacInjective(FirstLetterUpperCase(modes[i]), m);
    }
  }

  /** The size of the document: seven owner triples with a meta URI, six without; with modes, two more, the agents (or one agentClass) and the modes. */
  lemma AclSize(uri: string, owner: string, modes: Option<seq<string>>, group: Option<seq<string>>, metaUri: Option<string>)
    ensures |AclTriples(uri, owner, modes, group, metaUri)| ==
      (if metaUri.Some? && metaUri.value != "" then 7 else 6) +
      (if modes.None? then 0 else 2 + (if group.Some? then |group.value| else 1) + |modes.value|)
  {
  }

  /** Why the HEAD handler would throw before writing anything. */
  datatype AclFailure =
    | BadLinkHeader(error: LinkError)   // parseLinkHeader throws
    | NoAclLink                        // `acl['acl']` is undefined

  /** The PUT setAcl sends: the access-control document to the acl URI. */
  datatype AclPut = AclPut(aclUri: string, body: Graph)

  /**
   * setAcl's HEAD handler (crosscloudclient.js:257-314), given the segments of
   * the response's Link header: the acl and meta URIs are read from it, the
   * graph is built, and it is PUT to the acl URI when that URI is non-empty.
   */
  method SetAcl(uri: string, owner: string, modes: Option<seq<string>>, group: Option<seq<string>>, linkSegments: seq<string>)
    returns (r: Result<Option<AclPut>, AclFailure>)
    ensures Parse(linkSegments).Failure? ==> r == Failure(BadLinkHeader(Parse(linkSegments).error))
    ensures Parse(linkSegments).Success? && "acl" !in Parse(linkSegments).value ==> r == Failure(NoAclLink)
    ensures Parse(linkSegments).Success? && "acl" in Parse(linkSegments).value ==>
      var rels := Parse(linkSegments).value;
      "href" in rels["acl"] && ("meta" in rels ==> "href" in rels["meta"]) &&
      var aclUri := rels["acl"]["href"];
      var metaUri := if "meta" in rels then Some(rels["meta"]["href"]) else None;
      r == Success(if aclUri != "" then Some(AclPut(aclUri, AclTriples(uri, owner, modes, group, metaUri))) else None)
  {
    var parsed := ParseLinkHeader(linkSegments);
    if parsed.Failure? {
      return Failure(BadLinkHeader(parsed.error));
    }
    var acl := parsed.value;
    ParsedLinks(linkSegments);
    if "acl" !in acl {
      return Failure(NoAclLink);
    }
    var aclUri := acl["acl"]["href"];
    var metaUri := if "meta" in acl then Some(acl["meta"]["href"]) else None;
    var g := BuildAcl(uri, owner, modes, group, metaUri);
    if aclUri != "" {
      r := Success(Some(AclPut(aclUri, g.triples)));
    } else {
      r := Success(None);
    }
  }
}
