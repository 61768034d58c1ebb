# CrossCloud client: the shape-driven RDF mapping core

This project models the deterministic core of the CrossCloud client library. The client reads and writes application data ("shapes") in users' Linked Data pods, and it models the graph as a sequence of `(subject, predicate, object)` triples. The modelled parts are:

- **Link-header parser** (`LinkHeader`): `parseLinkHeader` and `unquote`.
  - The regular-expression matches of the whole header are the input, one string per link segment.
  - The parameter regular expression is a scanner (`ParamMatches`).
  - `split('>')`, `split('=')`, `substring` and `unquote` follow JavaScript's semantics exactly (`JsString`).
- **Graph writer** (`GraphWriter`): `recursiveAddToGraph`. It appends to a triple buffer (`Rdf.TripleStore`).
- **Value-filling readers** (`ValueReaders`): the loops of `getUserCard`, `getContainers` and `getResource` in `crosscloudclient.js`. They fill the `value` of a copy of a shape object.
- **Default-substituting readers** (`DefaultReaders`): the readers of `js/crosscloudclient.js`. They build fresh dictionaries and substitute each descriptor's `default` when the graph has no value.
- **ACL document builder** (`AclGraph`): the `setAcl` HEAD handler. It builds a Web Access Control graph: an owner authorisation, and optionally a second authorisation for a group or for the public.
- **Delete joins** (`DeleteJoins`): two sequential state machines, driven by "request succeeded" events.
  - The countdown of `deleteContainer` over its member deletes.
  - The two-of-two `complete` flag of `deleteEmptyContainer`.
- **Shared pieces**:
  - `JsString`: the string helpers `basename` and `firstLetterUpperCase`, plus the profile-document slice.
  - `Rdf`: the rdflib queries `any` and `statementsMatching`.

rdflib's `any(s, p)` follows the library: it returns the first matching triple's term in the first open position. So an `undefined` subject, as happens when a nested reader finds no intermediate node, is a wildcard (`Rdf.Any`, `ValueReaders.MissingNodeReadsAnySubject`).

The model follows the code as written, including these behaviours:

- The writer gives every property triple the subject `""` (the document), whatever `reference` it was called with. Nested properties therefore land on `""` and not on `#reference`.
- A quoted Link parameter value is cut at its second `=`, and its opening quote is then kept.
- A parameter named `href` overrides the target.
- An empty `modes` or `group` array counts as given, because an empty array is truthy.
- A property with no `reference` is stored under `#undefined`.
- `getContainers` calls back once per workspace with everything found so far.
- Both `getUserCard`s fetch `webid.slice(0, webid.indexOf('#'))`, which drops the last character of a webid without a fragment (see Findings).

## Model

| member | source | states |
|---|---|---|
| JsString.IndexOf | crosscloudclient.js:63 | `indexOf` is -1 exactly when the character is absent; otherwise it is a position holding the character, with no earlier occurrence |
| JsString.Split | crosscloudclient.js:457 | `split` yields at least one piece, and two or more exactly when the separator occurs |
| JsString.SplitPiecesFree | crosscloudclient.js:457 | no piece of `split` contains the separator |
| JsString.JoinSplit | crosscloudclient.js:457 | joining the pieces of `split` with the separator gives back the original string |
| JsString.SplitFirst | crosscloudclient.js:469 | a string whose first separator follows a prefix splits into that prefix followed by the pieces of the rest |
| JsString.LastPieceIsSuffix | crosscloudclient.js:457-458 | the last piece of `split` is a suffix of the string, preceded by the separator unless it is the whole string |
| JsString.CaseRoundTrips | crosscloudclient.js:448 | per character, upper- and lower-casing are idempotent and each absorbs the other |
| JsString.FirstLetterUpperCaseShape | crosscloudclient.js:445-449 | `firstLetterUpperCase` keeps the length, upper-cases the first character and lower-cases every other one |
| JsString.FirstLetterUpperCaseIdempotent | crosscloudclient.js:445-449 | applying `firstLetterUpperCase` twice equals applying it once |
| JsString.FirstLetterUpperCaseIgnoresCase | crosscloudclient.js:445-449 | two mode names that differ only in case normalise to the same name |
| JsString.FirstLetterUpperCaseExamples | crosscloudclient.js:445-449 | "read" and "READ" both become "Read"; the empty string stays empty |
| JsString.UnquoteSpec | crosscloudclient.js:489-494 | `unquote` removes one leading and one trailing `"` exactly when the value has at least two characters and starts and ends with `"`; otherwise it returns the value unchanged |
| JsString.UnquoteQuote | crosscloudclient.js:489-494 | unquoting a quoted string gives back the string |
| JsString.DropTrailingSlashSpec | crosscloudclient.js:453-455 | trimming removes exactly one trailing `/` or leaves the path as it is |
| JsString.BasenameSpec | crosscloudclient.js:450-459 | `basename` drops at most one trailing `/`; the result contains no `/` and is the suffix of the trimmed path that follows its last `/` (or the whole path) |
| JsString.ProfileDocumentAsWrittenDropsLastChar | js/crosscloudclient.js:19 | as written, a webid with no `#` loses its last character |
| JsString.ProfileDocumentAsWrittenExample | js/crosscloudclient.js:19 | as written, "https://alice.example/card" yields "https://alice.example/car" |
| JsString.ProfileDocumentSpec | js/crosscloudclient.js:19 | the profile document is the webid before its first `#`, or the whole webid when there is none; it agrees with the code whenever there is a `#` |
| Rdf.StatementsMatching | crosscloudclient.js:94 | `statementsMatching` returns exactly the triples of the graph that match the pattern, and no more triples than the graph holds |
| Rdf.Subjects | crosscloudclient.js:97 | the subject of each matched statement, statement by statement |
| Rdf.FirstObjectSpec | crosscloudclient.js:72 | there is no object exactly when no triple has that subject and predicate; otherwise the object is that of the first such triple |
| Rdf.AnyIsFirstObject | crosscloudclient.js:72 | `any(s, p)` with both given is the first object of `(s, p)` |
| Rdf.AnyWithoutSubject | crosscloudclient.js:114 | `any(undefined, p)` returns the subject of the first triple with predicate p, not an object |
| Rdf.NoMatchNoStatements | crosscloudclient.js:94 | when no triple matches, `statementsMatching` is empty |
| Rdf.FirstObjectOfOnly | crosscloudclient.js:72 | when every `(s, p)` triple has object o and one exists, `any(s, p)` is o |
| Rdf.TripleStore.Add | crosscloudclient.js:429 | `g.add` appends exactly the one triple |
| LinkHeader.TokenRun | crosscloudclient.js:464 | the run of token characters from a position is maximal |
| LinkHeader.ParamMatchAt | crosscloudclient.js:464 | a parameter match ends after its `=` and within the segment |
| LinkHeader.ParamMatches | crosscloudclient.js:474 | every parameter match contains an `=` |
| LinkHeader.AddParams | crosscloudclient.js:475-480 | adding parameters never removes a key of the link |
| LinkHeader.SegmentParams | crosscloudclient.js:471-474 | the parameters of a segment, each containing an `=` |
| LinkHeader.ReadSegment | crosscloudclient.js:469-480 | one turn of the outer loop computes the specification `SegmentLink` of its segment: the link, or the fault that makes the code throw |
| LinkHeader.NextSegment | crosscloudclient.js:468-485 | a segment read either extends the links read so far or is the first failure of the whole header |
| LinkHeader.ParseLinkHeader | crosscloudclient.js:462-487 | the loops compute the specification `Parse`: the per-rel dictionary of the links, or the error that makes the code throw |
| LinkHeader.LinksFailureSticks | crosscloudclient.js:468-485 | once a segment throws, the later segments make no difference |
| LinkHeader.LinksSpec | crosscloudclient.js:468-485 | the segments parse exactly when each does, giving one link per segment in order; a failure names the first bad segment and its fault |
| LinkHeader.IndexSpec | crosscloudclient.js:482-484 | a rel is in the dictionary exactly when some link carries it, and its entry is the last link carrying it |
| LinkHeader.ParseSpec | crosscloudclient.js:462-487 | no matches is an error; otherwise the parse succeeds exactly when every segment parses, a rel is present exactly when some segment carries it, the later segment wins, and an error names the first bad segment |
| LinkHeader.ParsedLinks | crosscloudclient.js:472-484 | every entry of the dictionary has an `href` and a `rel` equal to its key |
| LinkHeader.SegmentLinkHasHref | crosscloudclient.js:472-473 | every parsed link has an `href` |
| LinkHeader.SegmentWithoutRelAddsNothing | crosscloudclient.js:482-484 | a further segment without `rel` leaves the dictionary unchanged |
| LinkHeader.AddParamsSpec | crosscloudclient.js:475-480 | a name is in the link exactly when it was already or some parameter has that name; a name no parameter uses keeps its value |
| LinkHeader.SegmentRel | crosscloudclient.js:482 | a link has a `rel` exactly when one of its parameters is named `rel` |
| LinkHeader.SegmentHrefSpec | crosscloudclient.js:469-473 | without an `href` parameter, `href` is the text strictly between the leading `<` and the first `>` |
| LinkHeader.ParamSplit | crosscloudclient.js:477-479 | `name=value` gives that name and the unquoted value |
| LinkHeader.ParamValueCutAtEquals | crosscloudclient.js:477-479 | a value containing a further `=` is cut before it |
| LinkHeader.QuotedValueCutAtEquals | crosscloudclient.js:477-479 | `title="a=b"` gives the value `"a`, with its opening quote kept |
| LinkHeader.QuoteFrom | crosscloudclient.js:464 | a quoted parameter value ends at the first `"` after its opening quote, and there is no match when no `"` follows |
| LinkHeader.QuotedParamAt | crosscloudclient.js:464 | a token name, `=` and a quoted value are one parameter match ending after the closing quote |
| LinkHeader.OneQuotedParam | crosscloudclient.js:474 | a single quoted parameter between separators is the only match |
| LinkHeader.RelSegmentParts | crosscloudclient.js:469-484 | a segment `<target>` followed by one `rel` parameter parses to `{href: target, rel}` |
| LinkHeader.RelSegment | crosscloudclient.js:469-484 | `<target>; rel="r"` parses to `{href: target, rel: r}` |
| LinkHeader.ParseTwo | crosscloudclient.js:468-485 | two well-formed segments parse to the dictionary of their two links |
| LinkHeader.IndexTwo | crosscloudclient.js:482-484 | of two links, the later one is stored last, so it wins a shared rel |
| LinkHeader.AclSegmentExample | crosscloudclient.js:469-484 | the acl segment of a server's Link header parses to its `href` and `rel` |
| LinkHeader.MetaSegmentExample | crosscloudclient.js:469-484 | the meta segment parses to its `href` and `rel` |
| LinkHeader.AclMetaExample | crosscloudclient.js:462-487 | a header with acl and meta links yields both entries |
| ShapeObjects.ScalarTerm | crosscloudclient.js:439 | for a property that names a `value_type`, `value_type(value)` has the string's (or term's) lexical value and is a literal or a symbol as the property says |
| ShapeObjects.Fragment | crosscloudclient.js:436-437 | `"#" + reference` starts with `#` and holds the reference, or is "#undefined" when there is none |
| GraphWriter.Emitted | crosscloudclient.js:429 | the first triple written is the type triple of the reference |
| GraphWriter.RecursiveAddToGraph | crosscloudclient.js:427-443 | the writer appends exactly the specified triples to the store and changes nothing else |
| GraphWriter.AddProperty | crosscloudclient.js:431-441 | one turn of the loop appends exactly the triples specified for that property |
| GraphWriter.FalsyPropertiesEmitNothing | crosscloudclient.js:432 | properties with falsy values add no triple |
| GraphWriter.FalsyShapeEmitsTypeOnly | crosscloudclient.js:427-443 | a shape with no truthy property is written as its type triple alone |
| GraphWriter.TruthyProperties | crosscloudclient.js:432 | keeps every truthy property and only truthy ones, in key order, taken from the shape |
| GraphWriter.FlatPropertiesEmitted | crosscloudclient.js:430-442 | the properties of a flat shape add one scalar triple per truthy property, in order |
| GraphWriter.FlatShapeEmitted | crosscloudclient.js:427-443 | a flat shape is written as its type triple then exactly one `("", vocab, value_type(value))` triple per truthy property, in key order |
| GraphWriter.PropertiesEmittedPrefix | crosscloudclient.js:430-442 | later properties only append to what earlier ones wrote |
| GraphWriter.EmbeddedShapeEmitted | crosscloudclient.js:433-437 | a sub-shape is written as the link `("", vocab, #reference)` immediately followed by the sub-shape's own triples |
| GraphWriter.EmittedSubjects | crosscloudclient.js:427-443 | every written triple is a type triple or has the document `""` as subject |
| GraphWriter.PropertiesEmittedSubjects | crosscloudclient.js:430-442 | every property triple is a type triple or has subject `""` |
| ValueReaders.FillProperties | crosscloudclient.js:70-74 | the fill loop leaves each property with the first object's value for its vocab, or unchanged |
| ValueReaders.ReadProperties | crosscloudclient.js:105-121 | the read loop computes the specification `ReadShape` for the subject |
| ValueReaders.GetUserCard | crosscloudclient.js:59-81 | fetches `webid.slice(0, webid.indexOf('#'))` as written: the webid before its `#`, or the webid less its last character when there is no `#`; on failure passes the body on; on success returns the copy of the shape with each property filled from the first `(webid, vocab)` object |
| ValueReaders.TypedSubjects | crosscloudclient.js:138 | a term is listed exactly when it is the subject of an `rdf:type` triple with the shape's class |
| ValueReaders.ContainersIn | crosscloudclient.js:99-123 | one container object per typed subject |
| ValueReaders.PushContainers | crosscloudclient.js:100-123 | the loop appends the containers of the graph to the results gathered so far |
| ValueReaders.GetContainers | crosscloudclient.js:91-131 | a failed listing calls back once with the body; otherwise each workspace fetch calls back with every container found so far |
| ValueReaders.GetResource | crosscloudclient.js:135-164 | one result per subject typed with the shape's class, in match order, each with its uri, the queried container uri and its properties read |
| ValueReaders.FillFlatSpec | crosscloudclient.js:70-74 | each filled property keeps its key, vocab, kind and reference; its value becomes the lexical value of the first object, or stays as it was |
| ValueReaders.ReadShapeSpec | crosscloudclient.js:105-121 | term values are copied unchanged, string values are replaced by the first object's value, and sub-shapes are filled through the node the subject links to |
| ValueReaders.MissingNodeReadsAnySubject | crosscloudclient.js:109-115 | when the intermediate node is missing, a sub-property reads the first triple with its predicate, whatever the subject |
| ValueReaders.WrittenGraph | crosscloudclient.js:427-443 | a typed shape with truthy, non-nested values is written as its type triple followed by one `("", vocab, value_type(value))` triple per property, in order |
| ValueReaders.WrittenPropertyTriples | crosscloudclient.js:427-443 | under distinct predicates, the only triple about the document with a property's predicate is that property's own, and there is one only when its value is truthy |
| ValueReaders.WriteThenRead | crosscloudclient.js:135-164 | reading back what the writer wrote for a flat shape under distinct predicates finds exactly one resource, the document. Each value reads back as written: a truthy string unchanged, a term as its lexical value, and an undefined or empty value as undefined. A shape of non-empty strings is recovered exactly |
| DefaultReaders.Resolve | js/crosscloudclient.js:28 | a found term resolves to its lexical value; nothing found resolves to the default |
| DefaultReaders.AssembleKeys | js/crosscloudclient.js:25-29 | the object built has exactly the keys assigned |
| DefaultReaders.AssembleLookup | js/crosscloudclient.js:25-29 | a key holds the last value assigned to it |
| DefaultReaders.CardPairs | js/crosscloudclient.js:25-29 | one assignment per shape key |
| DefaultReaders.SubPairs | js/crosscloudclient.js:57-61 | one assignment per sub-shape key |
| DefaultReaders.ContainerPairs | js/crosscloudclient.js:49-67 | one assignment per shape key |
| DefaultReaders.ResourcePairs | js/crosscloudclient.js:84-104 | at most one assignment per shape key |
| DefaultReaders.ContainerObjects | js/crosscloudclient.js:45-69 | one object per subject typed `sioc:Container` |
| DefaultReaders.CollectContainers | js/crosscloudclient.js:46-69 | the container loop builds one object per container statement, in match order |
| DefaultReaders.BuildCard | js/crosscloudclient.js:24-29 | the card loop builds the object of the specified assignments |
| DefaultReaders.BuildSubObject | js/crosscloudclient.js:56-61 | the sub-object loop builds the object of the specified assignments |
| DefaultReaders.ReadEntry | js/crosscloudclient.js:50-66 | one entry is read as specified: its own URI, a sub-object or a value-or-default |
| DefaultReaders.BuildContainer | js/crosscloudclient.js:48-67 | the container loop builds the object of the specified assignments |
| DefaultReaders.BuildResource | js/crosscloudclient.js:83-104 | the resource loop builds the object of the specified assignments |
| DefaultReaders.CardSpec | js/crosscloudclient.js:24-29 | the card has exactly the shape's keys, and each holds the first `(webid, vocab)` value or the key's default |
| DefaultReaders.ContainerSelfUri | js/crosscloudclient.js:51-52 | an entry without vocab resolves to the container's own URI, with no graph lookup |
| DefaultReaders.ContainerSubObject | js/crosscloudclient.js:53-62 | an entry with a sub-shape yields a fresh object with exactly the sub-shape's keys, each the value reached through the intermediate node or the sub-entry's default |
| DefaultReaders.ResourceKeys | js/crosscloudclient.js:84-88 | the resource has exactly the shape's keys except `vocab` |
| DefaultReaders.ResourceContainerUri | js/crosscloudclient.js:85-86 | `containerUri` holds the queried container URI |
| DefaultReaders.ResourceEntry | js/crosscloudclient.js:87-102 | every key other than `containerUri` and `vocab` holds its entry read at the item |
| DefaultReaders.ResourceSelfUri | js/crosscloudclient.js:89-90 | an entry without vocab holds the item's own URI |
| DefaultReaders.Client.constructor | js/crosscloudclient.js:13 | the client starts with an empty store |
| DefaultReaders.Client.Load | js/crosscloudclient.js:22 | a fetch adds what it loaded to the shared store |
| DefaultReaders.Client.GetUserCard | js/crosscloudclient.js:18-36 | the document fetched is `webid.slice(0, webid.indexOf('#'))` as written (the webid before its `#`, or the webid less its last character when there is no `#`); the callback gets a one-element list holding the card on success, or an empty list and the body; reading adds nothing to the store beyond the fetch |
| DefaultReaders.Client.GetContainers | js/crosscloudclient.js:38-74 | one callback per workspace, each with the container objects of every workspace fetched so far; the store grows only by the fetches |
| DefaultReaders.Client.GetResource | js/crosscloudclient.js:77-109 | one object per subject typed with the shape's class, in match order, delivered in one callback; the store grows only by the fetch |
| AclGraph.Frag | crosscloudclient.js:262 | the second authorisation's node is never the document itself |
| AclGraph.GroupTriples | crosscloudclient.js:285-287 | one `agent` triple per group member |
| AclGraph.ModeTriples | crosscloudclient.js:293-295 | one `mode` triple per mode name |
| AclGraph.BuildAcl | crosscloudclient.js:264-296 | the handler builds exactly the specified access-control graph in a fresh store |
| AclGraph.AddOwner | crosscloudclient.js:267-276 | the owner statements append the owner authorisation |
| AclGraph.AddModesAuthorization | crosscloudclient.js:278-296 | the statements under `if (modes)` append the second authorisation |
| AclGraph.AddGroup | crosscloudclient.js:285-287 | the group loop appends one `agent` triple per member |
| AclGraph.AddModes | crosscloudclient.js:293-295 | the mode loop appends one normalised `mode` triple per name |
| AclGraph.WacInjective | crosscloudclient.js:246 | WAC terms with equal URIs have equal local names |
| AclGraph.WacDistinct | crosscloudclient.js:246 | distinct local names give distinct WAC terms |
| AclGraph.WacIsNotRdfType | crosscloudclient.js:245-246 | no WAC term is `rdf:type` |
| AclGraph.OwnerSubjects | crosscloudclient.js:267-276 | every owner triple is about the document `''` |
| AclGraph.OwnerAlwaysGranted | crosscloudclient.js:267-276 | the document always holds the owner authorisation: type, `accessTo ''`, `accessTo uri`, `agent owner`, `mode Read` and `mode Write` |
| AclGraph.OwnerAccessTargets | crosscloudclient.js:268-272 | the document grants access to exactly itself, the resource and, when a non-empty meta URI was linked, the meta document |
| AclGraph.ModesAuthorizationIffModes | crosscloudclient.js:278-297 | the second authorisation appears exactly when modes are given; without modes every triple is about the document |
| AclGraph.ModesSubjects | crosscloudclient.js:280-295 | every triple of the second authorisation is about its fragment node |
| AclGraph.GroupAgents | crosscloudclient.js:284-287 | with modes, an agent is granted exactly when it is a group member |
| AclGraph.PublicIffNoGroup | crosscloudclient.js:284-290 | the grant is public (`agentClass foaf:Agent`) exactly when modes are given without a group |
| AclGraph.GrantedModes | crosscloudclient.js:293-295 | the second authorisation grants exactly the given modes, normalised by `firstLetterUpperCase` |
| AclGraph.AclSize | crosscloudclient.js:267-296 | the document holds 6 owner triples (7 with a meta URI), plus, with modes, 2 + agents (or 1) + modes |
| AclGraph.SetAcl | crosscloudclient.js:257-314 | a bad Link header or a missing acl link throws; otherwise the acl and meta URIs come from the header and the built graph is PUT to the acl URI exactly when that URI is non-empty |
| DeleteJoins.MemberUris | crosscloudclient.js:351-357 | one member URI per `rdf:type rdfs:Resource` statement |
| DeleteJoins.EmptyDeleteOnce | crosscloudclient.js:351-372 | `deleteEmptyContainer` runs exactly once: at once for an empty container, after the N-th success otherwise, and not before |
| DeleteJoins.ContainerDelete.constructor | crosscloudclient.js:343 | no deletes counted, no container delete yet |
| DeleteJoins.ContainerDelete.Fetched | crosscloudclient.js:351-372 | the count starts at the number of members, and an empty container is deleted at once |
| DeleteJoins.ContainerDelete.MemberDeleted | crosscloudclient.js:363-366 | a success counts down by one and deletes the container when the count reaches zero |
| DeleteJoins.DeleteContainer | crosscloudclient.js:343-374 | over N members with k successes, the container delete happens once when k = N (or N = 0) and otherwise not at all |
| DeleteJoins.JoinSpec | crosscloudclient.js:398-419 | after k completions the flag is set exactly when k >= 1, and the callback has run after completions 2, 3, ..., k |
| DeleteJoins.SecondCompletionCallsBack | crosscloudclient.js:398-419 | of the two deletes, the callback runs once, on the second completion, never on the first |
| DeleteJoins.CompletionJoin.constructor | crosscloudclient.js:398 | the flag starts false |
| DeleteJoins.CompletionJoin.Completed | crosscloudclient.js:407 | a completion calls back when the flag is set, and otherwise sets it |
| DeleteJoins.AwaitAclAndMeta | crosscloudclient.js:398-419 | with `done` of the two deletes completed, the callback has run exactly when both have, on the second |
| DeleteJoins.ContainerLinkTargets | crosscloudclient.js:384-386 | the acl and meta URIs are the `href`s of those links; a bad header or a missing link throws |
| DeleteJoins.ResourceAclTarget | crosscloudclient.js:326-327 | the acl URI is the `href` of the acl link; a bad header or a missing acl link throws |

## Left out

- HTTP (`$.ajax`), the rdflib fetcher, the CORS and auth proxies, and timeouts. A fetch is an input value: its triples, or failure with a body. A Link header is an input: the list of its link-segment matches.
- The linkexp regular expression that splits a header into segments. Its matches are taken as input. A header with no match is the error `NoLinks`, because `matches` is null and the code throws.
- The rdflib serializer. `toN3` is taken to give a non-empty text, so `setAcl` sends its PUT exactly when the acl URI is non-empty. The graph is the body.
- `writeResource`, `writeContainer` and the request sequence of `deleteResource`/`deleteEmptyContainer`. Only what they compute is modelled: the writer, the link lookups and the joins.
- Concurrency and callback order. The joins are driven by a sequence of success events. A request that fails never reports and so never counts, which is what the code does.
- The key order of the JavaScript objects that `parseLinkHeader` builds. Each link and the `rels` dictionary are maps.
- The key order of the objects the readers of `js/crosscloudclient.js` build (`emptyObj`, `currCont`, `resource` and `subObj`). `DefaultReaders.Assemble` turns each into a map, so the insertion order of their keys is not modelled.
- ValueReaders.GetContainers, ValueReaders.GetResource: in `crosscloudclient.js` these refer to a store `g` and a fetcher `f` that are not in scope there, so as written `f.nowOrWhenFetched` throws a ReferenceError. The model does not follow the code here: it passes the graph in and models what the readers evidently mean to compute.
- The `results` array of `getContainers`, in both `crosscloudclient.js` and `js/crosscloudclient.js` (`ValueReaders.GetContainers`, `DefaultReaders.Client.GetContainers`), is one array that every per-workspace callback receives and that later callbacks keep pushing into. The model returns a snapshot per callback instead, so a callback that keeps its array does not see it grow.
- The workspace fetches of `getContainers` run concurrently. The model takes them in the order they complete, so the nth callback sees the first n fetches to complete.
- `jQuery.extend(true, ...)` deep copies are value copies. The shared default objects of `js/crosscloudclient.js` are values, so no aliasing between results is modelled.
- Numbers and booleans as property values or defaults are not modelled. Values are strings, terms, sub-objects or `undefined`.
- JsString.FirstLetterUpperCaseShape: case mapping is ASCII only. JavaScript's Unicode case mapping (which can change the length) is not modelled.
- JsString.FirstLetterUpperCaseIdempotent, JsString.FirstLetterUpperCaseIgnoresCase: these hold for the ASCII mapping only. Under JavaScript's Unicode mapping `"ß".toUpperCase()` is `"SS"`, so `firstLetterUpperCase("ßa")` is `"SSa"`, and applying it again gives `"Ssa"`.
- ValueReaders.WriteThenRead: covers flat shapes only, whose properties use distinct predicates other than `rdf:type`. Sub-shapes are not covered. Under a shared predicate the reader takes the first object for every property with it, so it does not give each value back.
- DefaultReaders.CardPairs: a shape entry that is `undefined` would throw in the code (`curr.vocab` of undefined). The readers require none.
- GraphWriter.RecursiveAddToGraph: requires every (sub-)shape to have a class. The code would call `g.add` with an undefined object, which rdflib rejects.
- GraphWriter.RecursiveAddToGraph: requires every property whose value is a truthy string or term to name a `value_type`. The code throws a TypeError at line 439 otherwise, and the example shapes leave it out for some keys (`owner` of `Channel` and `Post`, every `UserAccount` key). `Property.valueType` is optional, so such shapes can be expressed; `ShapeObjects.Typed` excludes them.
- GraphWriter.RecursiveAddToGraph: requires no property value to be a blank node. A blank node is neither an `$rdf.Symbol` nor an `$rdf.Literal`, so the code's `instanceof` test would take the sub-shape branch and again call `g.add` with the node's undefined `vocab`.
- ShapeObjects.ScalarTerm: `value_type` is an rdflib call (`$rdf.lit` or `$rdf.sym`). The model assumes it keeps the lexical value and makes a literal or a symbol as the property says. Terms carry no datatype or language, so a typed literal value, such as a post's `xsd:dateTime` date, loses its datatype in the model.
- microblogExample and the shape factories: these are UI glue and static tables, not logic.

## Findings

| source | as written | input that shows it | evidently intended | confidence | as-written member | corrected member |
|---|---|---|---|---|---|---|
| js/crosscloudclient.js:19 | the profile document is `webid.slice(0, webid.indexOf('#'))`; with no `#`, `indexOf` is -1 and the slice drops the last character (the same code is in crosscloudclient.js:63) | webid "https://alice.example/card" gives document "https://alice.example/car" | the whole webid when it has no fragment | not executed | JsString.ProfileDocumentAsWrittenDropsLastChar | JsString.ProfileDocumentSpec |
