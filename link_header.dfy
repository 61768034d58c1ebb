/**
 * The client's parseLinkHeader: an HTTP `Link` header value (a subset of the
 * syntax of section 3 of RFC 8288) turned into a dictionary from relation
 * name to link, where a link maps `href` and every parameter name to its
 * value.
 *
 * The header is first cut into segments by a regular expression; those
 * segments (the result of `header.match(linkexp)`) are the input here. What
 * happens to each segment is modelled step by step: `split('>')`, the
 * parameter regular expression (as a left-to-right scanner), `split('=')` and
 * `unquote`. Where the client would throw (no segment at all, a segment with
 * no `>`, a segment with no parameter) the model returns a Failure.
 */
module LinkHeader {
  import opened Wrappers
  import opened JsString

  /** The characters the parameter pattern's tokens exclude: `()<>@,;:"/[]?={}`, space and tab. */
  const Separators: set<char> :=
    {'(', ')', '<', '>', '@', ',', ';', ':', '"', '/', '[', ']', '?', '=', '{', '}', ' ', '\t'}

  predicate IsTokenChar(c: char)
  {
    c !in Separators
  }

  /** The length of the run of token characters that starts at i. */
  function TokenRun(s: string, i: nat): (n: nat)
    requires i <= |s|
    ensures i + n <= |s|
    ensures forall k :: i <= k < i + n ==> IsTokenChar(s[k])
    ensures i + n < |s| ==> !IsTokenChar(s[i + n])
    decreases |s| - i
  {
    if i < |s| && IsTokenChar(s[i]) then 1 + TokenRun(s, i + 1) else 0
  }

  /**
   * Where a match of `token=(token|"[^"]*")` starting at i ends, if there is
   * one. The name must be the whole token run (the character after a shorter
   * run is a token character, never `=`); a token value is taken greedily; a
   * quoted value ends at the next `"`.
   */
  function ParamMatchAt(s: string, i: nat): (e: Option<nat>)
    requires i <= |s|
    ensures e.Some? ==> i + TokenRun(s, i) < e.value <= |s| && s[i + TokenRun(s, i)] == '='
  {
    var n := TokenRun(s, i);
    var j := i + n;
    if n == 0 || j == |s| || s[j] != '=' then None
    else
      var m := TokenRun(s, j + 1);
      if 0 < m then Some(j + 1 + m)
      else if j + 1 < |s| && s[j + 1] == '"' then
        match QuoteFrom(s, j + 2)
        case None => None
        case Some(q) => Some(q + 1)
      else None
  }

  /** The first `"` at or after position b: where `[^"]*"` stops. */
  function QuoteFrom(s: string, b: nat): (q: Option<nat>)
    requires b <= |s|
    ensures q.Some? ==> b <= q.value < |s| && s[q.value] == '"' && forall k :: b <= k < q.value ==> s[k] != '"'
    ensures q.None? ==> forall k :: b <= k < |s| ==> s[k] != '"'
    decreases |s| - b
  {
    if b == |s| then None
    else if s[b] == '"' then Some(b)
    else QuoteFrom(s, b + 1)
  }

  /** `ps.match(paramexp)` from position i on: every match, scanning left to right; [] stands for null. */
  function ParamMatches(s: string, i: nat): (ms: seq<string>)
    requires i <= |s|
    ensures forall k :: 0 <= k < |ms| ==> '=' in ms[k]
    decreases |s| - i
  {
    if i == |s| then []
    else match ParamMatchAt(s, i)
      case Some(e) =>
        assert s[i..e][TokenRun(s, i)] == '=';
        [s[i..e]] + ParamMatches(s, e)
      case None => ParamMatches(s, i + 1)
  }

  /** A link: `href` and each parameter name, mapped to its value. */
  type Link = map<string, string>

  /** `p.split('=')[0]`. */
  function ParamName(p: string): string
  {
    Split(p, '=')[0]
  }

  /** `unquote(p.split('=')[1])`: the text between the first and the second `=`, unquoted. */
  function ParamValue(p: string): string
    requires '=' in p
  {
    Unquote(Split(p, '=')[1])
  }

  /** The link after the parameter loop has stored each of ps in turn (a later name overwrites an earlier one). */
  function AddParams(link: Link, ps: seq<string>): (r: Link)
    requires forall k :: 0 <= k < |ps| ==> '=' in ps[k]
    ensures link.Keys <= r.Keys
  {
    if ps == [] then link
    else
      var p := ps[|ps| - 1];
      AddParams(link, ps[..|ps| - 1])[ParamName(p) := ParamValue(p)]
  }

  /** Why the client would throw on a segment. */
  datatype SegmentFault =
    | UnclosedTarget  // no `>`: `split[1]` is undefined
    | NoParameters    // no parameter matched: `ps.match(paramexp)` is null

  datatype LinkError =
    | NoLinks                                      // `header.match(linkexp)` is null
    | BadSegment(index: nat, fault: SegmentFault)  // the first segment the loop cannot read

  /** The href of a segment: the text before its first `>`, less its first character. */
  function SegmentHref(seg: string): string
  {
    SubstringFrom(Split(seg, '>')[0], 1)
  }

  /** The parameter matches of a segment: those in the text between its first and its second `>`. */
  function SegmentParams(seg: string): (ps: seq<string>)
    requires '>' in seg
    ensures forall k :: 0 <= k < |ps| ==> '=' in ps[k]
  {
    ParamMatches(Split(seg, '>')[1], 0)
  }

  /** The link one segment yields. */
  function SegmentLink(seg: string): Result<Link, SegmentFault>
  {
    if '>' !in seg then Failure(UnclosedTarget)
    else if SegmentParams(seg) == [] then Failure(NoParameters)
    else Success(AddParams(map["href" := SegmentHref(seg)], SegmentParams(seg)))
  }

  /** What each segment yields, in order. */
  function Outcomes(segments: seq<string>): (r: seq<Result<Link, SegmentFault>>)
    ensures |r| == |segments|
  {
    seq(|segments|, i requires 0 <= i < |segments| => SegmentLink(segments[i]))
  }

  /** The links of the outcomes in order, or the first failure, tagged with its index. */
  function Collect(outs: seq<Result<Link, SegmentFault>>): Result<seq<Link>, LinkError>
  {
    if outs == [] then Success([])
    else
      var n := |outs| - 1;
      match Collect(outs[..n])
      case Failure(e) => Failure(e)
      case Success(links) =>
        match outs[n]
        case Failure(f) => Failure(BadSegment(n, f))
        case Success(link) => Success(links + [link])
  }

  /** The links of the segments in order, or the failure of the first segment that has none. */
  function Links(segments: seq<string>): Result<seq<Link>, LinkError>
  {
    Collect(Outcomes(segments))
  }

  /** One more segment: the loop body of parseLinkHeader. */
  lemma LinksSnoc(segments: seq<string>)
    requires segments != []
    ensures var n := |segments| - 1;
      Links(segments) ==
        match Links(segments[..n])
        case Failure(e) => Failure(e)
        case Success(links) =>
          match SegmentLink(segments[n])
          case Failure(f) => Failure(BadSegment(n, f))
          case Success(link) => Success(links + [link])
  {
    var n := |segments| - 1;
    assert Outcomes(segments)[..n] == Outcomes(segments[..n]);
  }

  /** The link's `rel` parameter is present and equals rel. */
  predicate Carries(link: Link, rel: string)
  {
    "rel" in link && link["rel"] == rel
  }

  /** The `rels` dictionary: each link with a `rel` stored under it, later links overwriting earlier ones. */
  function Index(links: seq<Link>): map<string, Link>
  {
    if links == [] then map[]
    else
      var link := links[|links| - 1];
      var rels := Index(links[..|links| - 1]);
      if "rel" in link then rels[link["rel"] := link] else rels
  }

  /** What parseLinkHeader returns for the segments the header splits into. */
  function Parse(segments: seq<string>): Result<map<string, Link>, LinkError>
  {
    if segments == [] then Failure(NoLinks)
    else
      match Links(segments)
      case Failure(e) => Failure(e)
      case Success(links) => Success(Index(links))
  }

  /** parseLinkHeader, loop for loop. */
  method ParseLinkHeader(matches: seq<string>) returns (r: Result<map<string, Link>, LinkError>)
    ensures r == Parse(matches)
  {
    if |matches| == 0 {
      return Failure(NoLinks);
    }
    var rels: map<string, Link> := map[];
    ghost var links: seq<Link> := [];
    var i := 0;
    while i < |matches|
      invariant 0 <= i <= |matches|
      invariant Links(matches[..i]) == Success(links)
      invariant rels == Index(links)
    {
      var segment := NextSegment(matches, i, links);
      if segment.Failure? {
        return Failure(BadSegment(i, segment.error));
      }
      var link := segment.value;
      if "rel" in link {
        rels := rels[link["rel"] := link];
      }
      links := links + [link];
      i := i + 1;
    }
    assert matches[..i] == matches;
    return Success(rels);
  }

  /** Reads segment i and accounts for it against Links: it extends the links read so far, or it is the first failure. */
  method NextSegment(matches: seq<string>, i: nat, ghost links: seq<Link>) returns (segment: Result<Link, SegmentFault>)
    requires i < |matches| && Links(matches[..i]) == Success(links)
    ensures segment.Success? ==> Links(matches[..i + 1]) == Success(links + [segment.value])
    ensures segment.Failure? ==> Links(matches) == Failure(BadSegment(i, segment.error))
  {
    segment := ReadSegment(matches[i]);
    LinksStep(matches, i, links);
  }

  /** The body of parseLinkHeader's loop for one segment: its href, then each parameter in turn. */
  method ReadSegment(seg: string) returns (r: Result<Link, SegmentFault>)
    ensures r == SegmentLink(seg)
  {
    var split := Split(seg, '>');
    if |split| < 2 {
      return Failure(UnclosedTarget);
    }
    var href := SubstringFrom(split[0], 1);
    var ps := split[1];
    var link: Link := map["href" := href];
    var s := ParamMatches(ps, 0);
    if |s| == 0 {
      return Failure(NoParameters);
    }
    var j := 0;
    while j < |s|
      invariant 0 <= j <= |s|
      invariant link == AddParams(map["href" := href], s[..j])
    {
      assert s[..j + 1][..j] == s[..j];
      var p := s[j];
      var paramsplit := Split(p, '=');
      var name := paramsplit[0];
      link := link[name := Unquote(paramsplit[1])];
      j := j + 1;
    }
    assert s[..j] == s;
    return Success(link);
  }

  /** The loop of parseLinkHeader after segment n: one more link, or the failure of the whole list. */
  lemma LinksStep(segments: seq<string>, n: nat, links: seq<Link>)
    requires n < |segments| && Links(segments[..n]) == Success(links)
    ensures SegmentLink(segments[n]).Success? ==> Links(segments[..n + 1]) == Success(links + [SegmentLink(segments[n]).value])
    ensures SegmentLink(segments[n]).Failure? ==> Links(segments) == Failure(BadSegment(n, SegmentLink(segments[n]).error))
  {
    LinksSnoc(segments[..n + 1]);
    assert segments[..n + 1][..n] == segments[..n];
    if SegmentLink(segments[n]).Failure? {
      LinksFailureSticks(segments, n + 1);
    }
  }

  /** Once a prefix of the segments fails, the whole list fails the same way. */
  lemma {:induction false} LinksFailureSticks(segments: seq<string>, n: nat)
    requires n <= |segments| && Links(segments[..n]).Failure?
    ensures Links(segments) == Links(segments[..n])
    decreases |segments| - n
  {
    if n < |segments| {
      LinksSnoc(segments[..n + 1]);
      assert segments[..n + 1][..n] == segments[..n];
      LinksFailureSticks(segments, n + 1);
    } else {
      assert segments[..n] == segments;
    }
  }

  /**
   * Links succeeds exactly when every segment yields a link, and then gives
   * the segments' links in order; otherwise it names the first segment that
   * yields none.
   */
  lemma LinksSpec(segments: seq<string>)
    ensures Links(segments).Success? <==> forall i :: 0 <= i < |segments| ==> SegmentLink(segments[i]).Success?
    ensures Links(segments).Success? ==>
      |Links(segments).value| == |segments| &&
      forall i :: 0 <= i < |segments| ==> Links(segments).value[i] == SegmentLink(segments[i]).value
    ensures Links(segments).Failure? ==>
      var e := Links(segments).error;
      e.BadSegment? && e.index < |segments| &&
      SegmentLink(segments[e.index]) == Failure(e.fault) &&
      forall i :: 0 <= i < e.index ==> SegmentLink(segments[i]).Success?
  {
    var outs := Outcomes(segments);
    CollectSucceed(outs);
    CollectValues(outs);
    CollectFailure(outs);
    assert forall i :: 0 <= i < |segments| ==> outs[i] == SegmentLink(segments[i]);
  }

  /** Collect succeeds exactly when every outcome is a link. */
  lemma {:induction false} CollectSucceed(outs: seq<Result<Link, SegmentFault>>)
    ensures Collect(outs).Success? <==> forall i :: 0 <= i < |outs| ==> outs[i].Success?
  {
    if outs != [] {
      var n := |outs| - 1;
      CollectSucceed(outs[..n]);
      assert forall i :: 0 <= i < n ==> outs[..n][i] == outs[i];
    }
  }

  /** On success Collect gives every outcome's link, in order. */
  lemma {:induction false} CollectValues(outs: seq<Result<Link, SegmentFault>>)
    ensures Collect(outs).Success? ==>
      |Collect(outs).value| == |outs| &&
      forall i :: 0 <= i < |outs| ==> outs[i] == Success(Collect(outs).value[i])
  {
    if outs != [] {
      var n := |outs| - 1;
      CollectValues(outs[..n]);
      assert forall i :: 0 <= i < n ==> outs[..n][i] == outs[i];
    }
  }

  /** On failure Collect names the first outcome that is not a link. */
  lemma {:induction false} CollectFailure(outs: seq<Result<Link, SegmentFault>>)
    ensures Collect(outs).Failure? ==>
      var e := Collect(outs).error;
      e.BadSegment? && e.index < |outs| && outs[e.index] == Failure(e.fault) &&
      forall i :: 0 <= i < e.index ==> outs[i].Success?
  {
    if outs != [] {
      var n := |outs| - 1;
      CollectFailure(outs[..n]);
      CollectSucceed(outs[..n]);
      assert forall i :: 0 <= i < n ==> outs[..n][i] == outs[i];
    }
  }

  /**
   * The dictionary holds a key exactly when some link has that `rel`, and
   * under it the LAST link with that `rel`: later segments overwrite earlier
   * ones.
   */
  lemma {:induction false} IndexSpec(links: seq<Link>, rel: string)
    ensures rel in Index(links) <==> exists i :: 0 <= i < |links| && Carries(links[i], rel)
    ensures rel in Index(links) ==>
      exists i :: 0 <= i < |links| && Carries(links[i], rel) &&
        Index(links)[rel] == links[i] &&
        forall j :: i < j < |links| ==> !Carries(links[j], rel)
  {
    IndexKeys(links, rel);
    IndexLast(links, rel);
    if rel in Index(links) {
      var i :| LastCarrier(links, rel, i) && Index(links)[rel] == links[i];
    }
  }
  lemma {:induction false} IndexKeys(links: seq<Link>, rel: string)
    ensures rel in Index(links) <==> exists i :: 0 <= i < |links| && Carries(links[i], rel)
  {
    if links != [] {
      var n := |links| - 1;
      var prefix := links[..n];
      IndexKeys(prefix, rel);
      if !Carries(links[n], rel) {
        assert rel in Index(links) <==> rel in Index(prefix);
        if exists i :: 0 <= i < |links| && Carries(links[i], rel) {
          var i :| 0 <= i < |links| && Carries(links[i], rel);
          assert prefix[i] == links[i];
        }
        if exists i :: 0 <= i < n && Carries(prefix[i], rel) {
          var i :| 0 <= i < n && Carries(prefix[i], rel);
          assert prefix[i] == links[i];
        }
      }
    }
  }
  /** links[i] is the last link carrying rel. */
  predicate LastCarrier(links: seq<Link>, rel: string, i: int)
  {
    0 <= i < |links| && Carries(links[i], rel) &&
    forall j :: i < j < |links| ==> !Carries(links[j], rel)
  }
  lemma LastCarrierGrows(links: seq<Link>, rel: string, i: int)
    requires links != [] && !Carries(links[|links| - 1], rel)
    requires LastCarrier(links[..|links| - 1], rel, i)
    ensures LastCarrier(links, rel, i)
  {
    assert forall j :: 0 <= j < |links| - 1 ==> links[..|links| - 1][j] == links[j];
  }
  lemma {:induction false} IndexLast(links: seq<Link>, rel: string)
    ensures rel in Index(links) ==> exists i :: LastCarrier(links, rel, i) && Index(links)[rel] == links[i]
  {
    if links != [] {
      var n := |links| - 1;
      var prefix := links[..n];
      IndexLast(prefix, rel);
      if Carries(links[n], rel) {
        assert LastCarrier(links, rel, n) && Index(links)[rel] == links[n];
      } else if rel in Index(links) {
        assert rel in Index(prefix) && Index(links)[rel] == Index(prefix)[rel];
        var i :| LastCarrier(prefix, rel, i) && Index(prefix)[rel] == prefix[i];
        LastCarrierGrows(links, rel, i);
        assert links[i] == prefix[i];
      }
    }
  }



  /**
   * parseLinkHeader fails on a header with no segment and on the first
   * segment it cannot read; otherwise its dictionary maps each `rel` some
   * segment carries to the link of the last such segment, and nothing else.
   */
  lemma ParseSpec(segments: seq<string>)
    ensures segments == [] ==> Parse(segments) == Failure(NoLinks)
    ensures segments != [] && (forall i :: 0 <= i < |segments| ==> SegmentLink(segments[i]).Success?) ==>
      Parse(segments).Success? &&
      forall rel ::
        (rel in Parse(segments).value <==>
          exists i :: 0 <= i < |segments| && Carries(SegmentLink(segments[i]).value, rel)) &&
        (rel in Parse(segments).value ==>
          exists i :: 0 <= i < |segments| && Carries(SegmentLink(segments[i]).value, rel) &&
            Parse(segments).value[rel] == SegmentLink(segments[i]).value &&
            forall j :: i < j < |segments| ==>
              !Carries(SegmentLink(segments[j]).value, rel))
    ensures segments != [] && (exists i :: 0 <= i < |segments| && SegmentLink(segments[i]).Failure?) ==>
      Parse(segments).Failure?
    ensures Parse(segments).Failure? && segments != [] ==>
      var e := Parse(segments).error;
      e.BadSegment? && e.index < |segments| &&
      SegmentLink(segments[e.index]) == Failure(e.fault) &&
      forall i :: 0 <= i < e.index ==> SegmentLink(segments[i]).Success?
  {
    LinksSpec(segments);
    if segments != [] && Links(segments).Success? {
      var links := Links(segments).value;
      forall rel
        ensures (rel in Index(links) <==>
          exists i :: 0 <= i < |segments| && Carries(SegmentLink(segments[i]).value, rel))
        ensures (rel in Index(links) ==>
          exists i :: 0 <= i < |segments| && Carries(SegmentLink(segments[i]).value, rel) &&
            Index(links)[rel] == SegmentLink(segments[i]).value &&
            forall j :: i < j < |segments| ==>
              !Carries(SegmentLink(segments[j]).value, rel))
      {
        IndexSpec(links, rel);
      }
    }
  }

  /** Every link of the dictionary keeps an `href`, and is stored under its own `rel`. */
  lemma ParsedLinks(segments: seq<string>)
    requires Parse(segments).Success?
    ensures forall rel :: rel in Parse(segments).value ==>
      "href" in Parse(segments).value[rel] && "rel" in Parse(segments).value[rel] && Parse(segments).value[rel]["rel"] == rel
  {
    ParseSpec(segments);
    LinksSpec(segments);
    forall rel | rel in Parse(segments).value
      ensures "href" in Parse(segments).value[rel] && "rel" in Parse(segments).value[rel] && Parse(segments).value[rel]["rel"] == rel
    {
      var i :| 0 <= i < |segments| && Carries(SegmentLink(segments[i]).value, rel) &&
        Parse(segments).value[rel] == SegmentLink(segments[i]).value &&
        forall j :: i < j < |segments| ==>
          !Carries(SegmentLink(segments[j]).value, rel);
      SegmentLinkHasHref(segments[i]);
    }
  }

  /** Every link a segment yields has an `href`. */
  lemma SegmentLinkHasHref(seg: string)
    requires SegmentLink(seg).Success?
    ensures "href" in SegmentLink(seg).value
  {
    assert "href" in map["href" := SegmentHref(seg)];
  }

  /** A segment without a `rel` parameter leaves the dictionary as it was. */
  lemma SegmentWithoutRelAddsNothing(segments: seq<string>, seg: string)
    requires segments != []
    requires SegmentLink(seg).Success? && "rel" !in SegmentLink(seg).value
    ensures Parse(segments + [seg]) == Parse(segments)
  {
    LinksSnoc(segments + [seg]);
    assert (segments + [seg])[..|segments|] == segments;
  }

  /** Keys and values of a link after the parameter loop: the last parameter with a name wins, `href` stays unless overwritten. */
  lemma {:induction false} AddParamsSpec(link: Link, ps: seq<string>, name: string)
    requires forall k :: 0 <= k < |ps| ==> '=' in ps[k]
    ensures name in AddParams(link, ps) <==> name in link || exists k :: 0 <= k < |ps| && ParamName(ps[k]) == name
    ensures (forall k :: 0 <= k < |ps| ==> ParamName(ps[k]) != name) && name in link ==>
      AddParams(link, ps)[name] == link[name]
  {
    if ps != [] {
      var n := |ps| - 1;
      AddParamsSpec(link, ps[..n], name);
      assert forall k :: 0 <= k < n ==> ps[..n][k] == ps[k];
    }
  }

  /** A segment's link has a `rel` exactly when one of its parameters is named `rel`. */
  lemma SegmentRel(seg: string)
    requires SegmentLink(seg).Success?
    ensures "rel" in SegmentLink(seg).value <==>
      exists k :: 0 <= k < |SegmentParams(seg)| && ParamName(SegmentParams(seg)[k]) == "rel"
  {
    AddParamsSpec(map["href" := SegmentHref(seg)], SegmentParams(seg), "rel");
  }

  /**
   * A segment's `href` is the text strictly between its leading `<` and its
   * first `>`, unless a parameter is itself named `href` (the parameter loop
   * then overwrites it).
   */
  lemma SegmentHrefSpec(seg: string)
    requires SegmentLink(seg).Success?
    requires forall k :: 0 <= k < |SegmentParams(seg)| ==> ParamName(SegmentParams(seg)[k]) != "href"
    ensures "href" in SegmentLink(seg).value
    ensures 0 < |seg| && seg[0] == '<' ==>
      var close := IndexOf(seg, '>');
      1 <= close && SegmentLink(seg).value["href"] == seg[1..close] && '>' !in seg[1..close]
  {
    AddParamsSpec(map["href" := SegmentHref(seg)], SegmentParams(seg), "href");
    if 0 < |seg| && seg[0] == '<' {
      var close := IndexOf(seg, '>');
      assert Split(seg, '>')[0] == seg[..close];
      assert SubstringFrom(seg[..close], 1) == seg[1..close];
    }
  }

  /** The first `=` of `name=rest` is the one after the name, when the name has none. */
  lemma SplitAfterName(name: string, rest: string)
    requires '=' !in name
    ensures Split(name + "=" + rest, '=') == [name] + Split(rest, '=')
  {
    var p := name + "=" + rest;
    assert p[|name|] == '=';
    assert p[..|name|] == name;
    assert IndexOf(p, '=') == |name|;
    assert p[|name| + 1..] == rest;
  }

  /** A parameter name with no `=` in it and a value with none keep apart: the value comes back unquoted. */
  lemma ParamSplit(name: string, value: string)
    requires '=' !in name && '=' !in value
    ensures ParamName(name + "=" + value) == name
    ensures ParamValue(name + "=" + value) == Unquote(value)
  {
    SplitAfterName(name, value);
  }

  /** A value that itself contains `=` (quoted or not) is cut at it: only the text before it is kept. */
  lemma ParamValueCutAtEquals(name: string, before: string, after: string)
    requires '=' !in name && '=' !in before
    ensures ParamName(name + "=" + before + "=" + after) == name
    ensures ParamValue(name + "=" + before + "=" + after) == Unquote(before)
  {
    assert name + "=" + before + "=" + after == name + "=" + (before + "=" + after);
    SplitAfterName(name, before + "=" + after);
    SplitAfterName(before, after);
  }

  /** So `title="a=b"` gives the value `"a`, opening quote included. */
  lemma QuotedValueCutAtEquals()
    ensures ParamValue("title=\"a=b\"") == "\"a"
  {
    assert "title=\"a=b\"" == "title" + "=" + "\"a" + "=" + "b\"";
    ParamValueCutAtEquals("title", "\"a", "b\"");
    UnquoteSpec("\"a");
  }

  /** A run of n token characters followed by a non-token character (or the end) has TokenRun n. */
  lemma {:induction false} TokenRunOfToken(s: string, i: nat, n: nat)
    requires i + n <= |s|
    requires forall k :: i <= k < i + n ==> IsTokenChar(s[k])
    requires i + n == |s| || !IsTokenChar(s[i + n])
    ensures TokenRun(s, i) == n
    decreases n
  {
    if 0 < n {
      TokenRunOfToken(s, i + 1, n - 1);
    }
  }

  /** The scanner passes over characters that cannot start a token. */
  lemma SkipNonTokens(s: string, i: nat, j: nat)
    requires i <= j <= |s|
    requires forall k :: i <= k < j ==> !IsTokenChar(s[k])
    ensures ParamMatches(s, i) == ParamMatches(s, j)
  {
    forall k | i <= k < j ensures ParamMatchAt(s, k).None? {
      NoMatchAtNonToken(s, k);
    }
    SkipNoMatches(s, i, j);
  }

  /** The scanner passes over a stretch where no match starts. */
  lemma {:induction false} SkipNoMatches(s: string, i: nat, j: nat)
    requires i <= j <= |s|
    requires forall k :: i <= k < j ==> ParamMatchAt(s, k).None?
    ensures ParamMatches(s, i) == ParamMatches(s, j)
    decreases j - i
  {
    if i < j {
      NoMatchSkips(s, i);
      SkipNoMatches(s, i + 1, j);
    }
  }

  /** Where no match starts, the scanner moves on by one character. */
  lemma NoMatchSkips(s: string, i: nat)
    requires i < |s| && ParamMatchAt(s, i).None?
    ensures ParamMatches(s, i) == ParamMatches(s, i + 1)
  {
  }

  /** No match starts at a character that cannot start a token. */
  lemma NoMatchAtNonToken(s: string, i: nat)
    requires i < |s| && !IsTokenChar(s[i])
    ensures ParamMatchAt(s, i).None?
  {
    SeparatorEndsRun(s, i);
  }

  /** A token run starting at a separator is empty. */
  lemma SeparatorEndsRun(s: string, i: nat)
    requires i < |s| && !IsTokenChar(s[i])
    ensures TokenRun(s, i) == 0
  {
  }

  /** The first quote after the opening one is the one right after the value. */
  lemma {:induction false} ClosingQuote(s: string, b: nat, e: nat)
    requires b <= e < |s| && s[e] == '"'
    requires forall k :: b <= k < e ==> s[k] != '"'
    ensures QuoteFrom(s, b) == Some(e)
    decreases e - b
  {
    if b < e {
      ClosingQuote(s, b + 1, e);
    }
  }

  /** The pattern matches `name="value"` where it starts, when the name is a whole token and the value has no quote. */
  lemma QuotedParamAt(s: string, i: nat, n: nat, q: nat)
    requires i + n + q + 3 <= |s| && 0 < n
    requires forall k :: i <= k < i + n ==> IsTokenChar(s[k])
    requires s[i + n] == '=' && s[i + n + 1] == '"'
    requires forall k :: i + n + 2 <= k < i + n + 2 + q ==> s[k] != '"'
    requires s[i + n + 2 + q] == '"'
    ensures ParamMatchAt(s, i) == Some(i + n + q + 3)
  {
    TokenRunOfToken(s, i, n);
    SeparatorEndsRun(s, i + n + 1);
    ClosingQuote(s, i + n + 2, i + n + 2 + q);
    QuotedMatchAt(s, i, n, q);
  }

  /** How the pattern reads a quoted value: a name run, `=`, `"`, and up to the next `"`. */
  lemma QuotedMatchAt(s: string, i: nat, n: nat, q: nat)
    requires i + n + 2 <= |s| && 0 < n
    requires TokenRun(s, i) == n && s[i + n] == '='
    requires TokenRun(s, i + n + 1) == 0 && s[i + n + 1] == '"'
    requires QuoteFrom(s, i + n + 2) == Some(i + n + 2 + q)
    ensures ParamMatchAt(s, i) == Some(i + n + q + 3)
  {
  }

  /** Between separators, one `name="value"` is the only parameter the pattern finds. */
  lemma OneQuotedParam(lead: string, param: string, tail: string, name: string, value: string)
    requires forall k :: 0 <= k < |lead| ==> !IsTokenChar(lead[k])
    requires forall k :: 0 <= k < |tail| ==> !IsTokenChar(tail[k])
    requires 0 < |name| && forall k :: 0 <= k < |name| ==> IsTokenChar(name[k])
    requires '"' !in value
    requires param == name + "=" + Quote(value)
    ensures ParamMatches(lead + param + tail, 0) == [param]
  {
    var s := lead + param + tail;
    var i := |lead|;
    var e := i + |param|;
    QuotedLayout(lead, tail, name, value);
    QuotedParamAt(s, i, |name|, |value|);
    OnlyMatch(s, i, e);
    assert s[i..e] == param;
  }

  /** One match between stretches that cannot start a token is the only match. */
  lemma OnlyMatch(s: string, i: nat, e: nat)
    requires i < e <= |s| && ParamMatchAt(s, i) == Some(e)
    requires forall k :: 0 <= k < i ==> !IsTokenChar(s[k])
    requires forall k :: e <= k < |s| ==> !IsTokenChar(s[k])
    ensures ParamMatches(s, 0) == [s[i..e]]
  {
    SkipNonTokens(s, 0, i);
    MatchThenRest(s, i, e);
    SkipNonTokens(s, e, |s|);
  }

  /** Where the characters of `lead + name="value" + tail` sit. */
  lemma QuotedLayout(lead: string, tail: string, name: string, value: string)
    requires forall k :: 0 <= k < |lead| ==> !IsTokenChar(lead[k])
    requires forall k :: 0 <= k < |tail| ==> !IsTokenChar(tail[k])
    requires forall k :: 0 <= k < |name| ==> IsTokenChar(name[k])
    requires '"' !in value
    ensures var s := lead + (name + "=" + Quote(value)) + tail;
      var i := |lead|;
      var e := i + |name| + |value| + 3;
      |s| == e + |tail| &&
      (forall k :: 0 <= k < i ==> !IsTokenChar(s[k])) &&
      (forall k :: i <= k < i + |name| ==> IsTokenChar(s[k])) &&
      s[i + |name|] == '=' && s[i + |name| + 1] == '"' &&
      (forall k :: i + |name| + 2 <= k < i + |name| + 2 + |value| ==> s[k] != '"') &&
      s[i + |name| + 2 + |value|] == '"' &&
      (forall k :: e <= k < |s| ==> !IsTokenChar(s[k]))
  {
    var param := name + "=" + Quote(value);
    var s := lead + param + tail;
    var i := |lead|;
    forall k | i <= k < i + |name| ensures s[k] == name[k - i] {
      assert param[k - i] == name[k - i];
    }
    forall k | i + |name| + 2 <= k < i + |name| + 2 + |value| ensures s[k] == value[k - i - |name| - 2] {
      assert param[k - i] == value[k - i - |name| - 2];
    }
  }

  /** A match at i is taken, and the scan goes on after it. */
  lemma MatchThenRest(s: string, i: nat, e: nat)
    requires i < |s| && ParamMatchAt(s, i) == Some(e)
    ensures ParamMatches(s, i) == [s[i..e]] + ParamMatches(s, e)
  {
  }

  /** A segment `<target>` + `>` + ps, where ps holds the one parameter `rel="name"`, yields {href: target, rel: name}. */
  lemma RelSegmentParts(seg: string, target: string, ps: string, param: string, rel: string)
    requires seg == ("<" + target) + ['>'] + ps
    requires '>' !in target && '>' !in ps
    requires ParamMatches(ps, 0) == [param]
    requires ParamName(param) == "rel" && ParamValue(param) == rel
    ensures SegmentLink(seg) == Success(map["href" := target, "rel" := rel])
  {
    assert Split(seg, '>') == ["<" + target, ps] by {
      SplitFirst("<" + target, '>', ps);
    }
    assert seg[|"<" + target|] == '>';
    assert SegmentHref(seg) == target;
    assert SegmentParams(seg) == [param];
    assert [param][..0] == [];
    assert AddParams(map["href" := target], [param]) == map["href" := target]["rel" := rel];
  }

  /** The segment `<target>; rel="name"` followed by `tail` yields the link {href: target, rel: name}. */
  lemma RelSegment(target: string, rel: string, tail: string)
    requires '>' !in target && '>' !in tail
    requires forall k :: 0 <= k < |tail| ==> !IsTokenChar(tail[k])
    requires '"' !in rel && '>' !in rel && '=' !in rel
    ensures SegmentLink("<" + target + ">; rel=" + Quote(rel) + tail) ==
      Success(map["href" := target, "rel" := rel])
  {
    var param := "rel" + "=" + Quote(rel);
    var ps := "; " + param + tail;
    RelParam(rel, tail);
    RelSegmentShape(target, rel, tail);
    RelSegmentParts("<" + target + ">; rel=" + Quote(rel) + tail, target, ps, param, rel);
  }

  /** The parameter text of a `rel` segment: one match, named `rel`, whose value is the relation. */
  lemma RelParam(rel: string, tail: string)
    requires '>' !in tail
    requires forall k :: 0 <= k < |tail| ==> !IsTokenChar(tail[k])
    requires '"' !in rel && '>' !in rel && '=' !in rel
    ensures var param := "rel" + "=" + Quote(rel);
      var ps := "; " + param + tail;
      ParamMatches(ps, 0) == [param] && ParamName(param) == "rel" && ParamValue(param) == rel && '>' !in ps
  {
    var param := "rel" + "=" + Quote(rel);
    assert ParamMatches("; " + param + tail, 0) == [param] by {
      OneQuotedParam("; ", param, tail, "rel", rel);
    }
    RelParamParts(rel);
    RelParamUnclosed(rel, tail);
  }

  /** The parameter text of a `rel` segment holds no `>`. */
  lemma RelParamUnclosed(rel: string, tail: string)
    requires '>' !in tail && '>' !in rel
    ensures '>' !in "; " + ("rel" + "=" + Quote(rel)) + tail
  {
    assert '>' !in Quote(rel);
  }

  /** `rel="name"` splits into the name `rel` and, unquoted, the relation. */
  lemma RelParamParts(rel: string)
    requires '"' !in rel && '=' !in rel
    ensures ParamName("rel" + "=" + Quote(rel)) == "rel" && ParamValue("rel" + "=" + Quote(rel)) == rel
  {
    ParamSplit("rel", Quote(rel));
    UnquoteQuote(rel);
  }

  /** A `rel` segment is its target, `>`, and its parameter text. */
  lemma RelSegmentShape(target: string, rel: string, tail: string)
    ensures "<" + target + ">; rel=" + Quote(rel) + tail == ("<" + target) + ['>'] + ("; " + ("rel" + "=" + Quote(rel)) + tail)
  {
  }

  /** A header of two well-formed segments parses to the index of their two links. */
  lemma ParseTwo(s1: string, s2: string, l1: Link, l2: Link)
    requires SegmentLink(s1) == Success(l1) && SegmentLink(s2) == Success(l2)
    ensures Parse([s1, s2]) == Success(Index([l1, l2]))
  {
    LinksSpec([s1, s2]);
    assert Links([s1, s2]).value == [l1, l2];
  }

  /** Two links that both carry a `rel` are indexed under their rels, the second winning a tie. */
  lemma IndexTwo(l1: Link, l2: Link)
    requires "rel" in l1 && "rel" in l2
    ensures Index([l1, l2]) == map[l1["rel"] := l1][l2["rel"] := l2]
  {
    assert [l1, l2][..1] == [l1];
    assert [l1][..0] == [];
    assert Index([l1]) == map[l1["rel"] := l1];
  }

  /** The text of a `rel` segment, spelled out. */
  lemma RelSegmentText(target: string, rel: string, tail: string, seg: string)
    requires seg == "<" + target + ">; rel=\"" + rel + "\"" + tail
    ensures seg == "<" + target + ">; rel=" + Quote(rel) + tail
  {
  }

  /** The segment `<http://x/acl>; rel="acl",` (with the separating comma the regular expression keeps). */
  lemma AclSegmentExample()
    ensures SegmentLink("<http://x/acl>; rel=\"acl\",") == Success(map["href" := "http://x/acl", "rel" := "acl"])
  {
    RelSegmentText("http://x/acl", "acl", ",", "<http://x/acl>; rel=\"acl\",");
    RelSegment("http://x/acl", "acl", ",");
  }

  /** The segment `<http://x/meta>; rel="meta"`. */
  lemma MetaSegmentExample()
    ensures SegmentLink("<http://x/meta>; rel=\"meta\"") == Success(map["href" := "http://x/meta", "rel" := "meta"])
  {
    RelSegmentText("http://x/meta", "meta", "", "<http://x/meta>; rel=\"meta\"");
    RelSegment("http://x/meta", "meta", "");
  }

  /** The header `<http://x/acl>; rel="acl", <http://x/meta>; rel="meta"` gives its two links under "acl" and "meta". */
  lemma AclMetaExample()
    ensures Parse(["<http://x/acl>; rel=\"acl\",", "<http://x/meta>; rel=\"meta\""]) ==
      Success(map[
        "acl" := map["href" := "http://x/acl", "rel" := "acl"],
        "meta" := map["href" := "http://x/meta", "rel" := "meta"]])
  {
    var l1 := map["href" := "http://x/acl", "rel" := "acl"];
    var l2 := map["href" := "http://x/meta", "rel" := "meta"];
    AclSegmentExample();
    MetaSegmentExample();
    ParseTwo("<http://x/acl>; rel=\"acl\",", "<http://x/meta>; rel=\"meta\"", l1, l2);
    IndexTwo(l1, l2);
  }
}
