/**
 * The two joins of the delete operations (crosscloudclient.js:343-425), as
 * sequential state machines driven by "a request succeeded" events.
 *
 * deleteContainer counts its member deletes down from the number of members
 * and calls deleteEmptyContainer when the count reaches zero, or at once when
 * there are no members. deleteEmptyContainer deletes the acl and meta
 * documents of the container and calls back on the second of the two
 * completions through a `complete` flag.
 */
module DeleteJoins {
  import opened Wrappers
  import opened Rdf
  import opened LinkHeader

  /** The URIs of the container's members: the subjects typed rdfs:Resource, in match order. */
  function MemberUris(g: Graph): (r: seq<string>)
    ensures |r| == |StatementsMatching(g, None, Some(RdfType), Some(RdfsResource))|
  {
    var resources := StatementsMatching(g, None, Some(RdfType), Some(RdfsResource));
    seq(|resources|, i requires 0 <= i < |resources| => resources[i].subj.value)
  }

  /**
   * The deleteEmptyContainer calls made after the listing was loaded with n
   * members and k member deletes then succeeded, each recorded as the number
   * of successes seen when it was made.
   */
  function EmptyDeletesAfter(n: nat, k: nat): seq<nat>
  {
    if k == 0 then (if n == 0 then [0] else [])
    else EmptyDeletesAfter(n, k - 1) + (if n - k == 0 then [k] else [])
  }

  /**
   * deleteEmptyContainer runs exactly once when every member delete
   * succeeds: at once for an empty container, after the n-th success
   * otherwise; before that it has not run.
   */
  lemma {:induction false} EmptyDeleteOnce(n: nat, k: nat)
    requires k <= n
    ensures EmptyDeletesAfter(n, k) == (if n == 0 then [0] else if k == n then [n] else [])
  {
    if k > 0 {
      EmptyDeleteOnce(n, k - 1);
    }
  }

  /** The countdown of deleteContainer (crosscloudclient.js:343-374). */
  class ContainerDelete {
    /** `length`: the member deletes still outstanding. */
    var length: int
    /** The member deletes that have succeeded so far. */
    var successes: nat
    /** The deleteEmptyContainer calls made so far, each as the success count when it was made. */
    var emptyDeletes: seq<nat>

    /** Before the listing is loaded. */
    constructor()
      ensures length == 0 && successes == 0 && emptyDeletes == []
    {
      length := 0;
      successes := 0;
      emptyDeletes := [];
    }

    /** The listing has been loaded into g: count the members, or delete the container at once when there are none. */
    method Fetched(g: Graph) returns (members: seq<string>)
      modifies this
      ensures members == MemberUris(g)
      ensures length == |members| && successes == 0
      ensures emptyDeletes == old(emptyDeletes) + (if |members| == 0 then [0] else [])
    {
      var resources := StatementsMatching(g, None, Some(RdfType), Some(RdfsResource));
      members := [];
      var r := 0;
      while r < |resources|
        invariant 0 <= r <= |resources|
        invariant members == MemberUris(g)[..r]
      {
        members := members + [resources[r].subj.value];
        r := r + 1;
      }
      length := |resources|;
      successes := 0;
      if |resources| == 0 {
        emptyDeletes := emptyDeletes + [0];
      }
    }

    /** A member delete succeeded: count down, and delete the container when the count reaches zero. */
    method MemberDeleted()
      modifies this
      ensures successes == old(successes) + 1 && length == old(length) - 1
      ensures emptyDeletes == old(emptyDeletes) + (if length == 0 then [successes] else [])
    {
      successes := successes + 1;
      length := length - 1;
      if length == 0 {
        emptyDeletes := emptyDeletes + [successes];
      }
    }
  }

  /**
   * deleteContainer over the loaded listing g when the first `successes`
   * member deletes succeed: the members it deletes, and the deleteEmptyContainer
   * calls it makes, exactly one when every member delete succeeded.
   */
  method DeleteContainer(g: Graph, successes: nat) returns (members: seq<string>, emptyDeletes: seq<nat>)
    requires successes <= |StatementsMatching(g, None, Some(RdfType), Some(RdfsResource))|
    ensures members == MemberUris(g)
    ensures emptyDeletes == EmptyDeletesAfter(|members|, successes)
    ensures |emptyDeletes| == (if |members| == 0 || successes == |members| then 1 else 0)
  {
    var join := new ContainerDelete();
    members := join.Fetched(g);
    var k := 0;
    while k < successes
      invariant 0 <= k <= successes
      invariant join.length == |members| - k && join.successes == k
      invariant join.emptyDeletes == EmptyDeletesAfter(|members|, k)
    {
      join.MemberDeleted();
      k := k + 1;
    }
    emptyDeletes := join.emptyDeletes;
    EmptyDeleteOnce(|members|, successes);
  }

  /** The state of deleteEmptyContainer's join: the flag and the completions after which the callback ran. */
  datatype Join = Join(complete: bool, fired: seq<nat>)

  /** The join after k completions of the acl and meta deletes. */
  function JoinAfter(k: nat): Join
  {
    if k == 0 then Join(false, [])
    else
      var prev := JoinAfter(k - 1);
      if prev.complete then Join(prev.complete, prev.fired + [k]) else Join(!prev.complete, prev.fired)
  }

  /** The first completion only sets the flag; every later one calls back. */
  lemma {:induction false} JoinSpec(k: nat)
    ensures JoinAfter(k).complete <==> k >= 1
    ensures |JoinAfter(k).fired| == (if k >= 2 then k - 1 else 0)
    ensures forall i :: 0 <= i < |JoinAfter(k).fired| ==> JoinAfter(k).fired[i] == i + 2
  {
    if k > 0 {
      JoinSpec(k - 1);
    }
  }

  /** With its two requests, the join calls back once, on the second completion, and never on the first. */
  lemma SecondCompletionCallsBack(k: nat)
    requires k <= 2
    ensures JoinAfter(k).fired == (if k == 2 then [2] else [])
  {
    JoinSpec(k);
  }

  /** The `complete` flag of deleteEmptyContainer (crosscloudclient.js:398-419). */
  class CompletionJoin {
    var complete: bool
    var completions: nat
    /** The completions after which the callback ran. */
    var fired: seq<nat>

    constructor()
      ensures !complete && completions == 0 && fired == []
    {
      complete := false;
      completions := 0;
      fired := [];
    }

    /** `complete ? callback() : complete = !complete` */
    method Completed()
      modifies this
      ensures completions == old(completions) + 1
      ensures old(complete) ==> complete && fired == old(fired) + [completions]
      ensures !old(complete) ==> complete && fired == old(fired)
    {
      completions := completions + 1;
      if complete {
        fired := fired + [completions];
      } else {
        complete := !complete;
      }
    }
  }

  /** The acl and meta deletes, of which `done` have succeeded: the callback runs exactly when both have. */
  method AwaitAclAndMeta(done: nat) returns (fired: seq<nat>)
    requires done <= 2
    ensures fired == JoinAfter(done).fired
    ensures fired == (if done == 2 then [2] else [])
  {
    var join := new CompletionJoin();
    var k := 0;
    while k < done
      invariant 0 <= k <= done
      invariant join.completions == k
      invariant join.complete == JoinAfter(k).complete && join.fired == JoinAfter(k).fired
    {
      join.Completed();
      k := k + 1;
    }
    fired := join.fired;
    SecondCompletionCallsBack(done);
  }

  /** Why a delete's HEAD or DELETE handler throws. */
  datatype DeleteFailure =
    | BadLinkHeader(error: LinkError)   // parseLinkHeader throws
    | MissingRel(rel: string)           // `meta[rel]` is undefined

  /**
   * The acl and meta URIs deleteEmptyContainer deletes after the container
   * (crosscloudclient.js:384-386): both relations must be in the Link header.
   */
  function ContainerLinkTargets(linkSegments: seq<string>): (r: Result<(string, string), DeleteFailure>)
    ensures Parse(linkSegments).Failure? ==> r == Failure(BadLinkHeader(Parse(linkSegments).error))
    ensures Parse(linkSegments).Success? ==>
      (r.Success? <==> "acl" in Parse(linkSegments).value && "meta" in Parse(linkSegments).value)
    ensures r.Success? ==>
      "href" in Parse(linkSegments).value["acl"] && "href" in Parse(linkSegments).value["meta"] &&
      r.value.0 == Parse(linkSegments).value["acl"]["href"] && r.value.1 == Parse(linkSegments).value["meta"]["href"]
  {
    var parsed := Parse(linkSegments);
    if parsed.Failure? then Failure(BadLinkHeader(parsed.error))
    else
      ParsedLinks(linkSegments);
      if "acl" !in parsed.value then Failure(MissingRel("acl"))
      else if "meta" !in parsed.value then Failure(MissingRel("meta"))
      else Success((parsed.value["acl"]["href"], parsed.value["meta"]["href"]))
  }

  /** The acl URI deleteResource deletes after the resource (crosscloudclient.js:326-327). */
  function ResourceAclTarget(linkSegments: seq<string>): (r: Result<string, DeleteFailure>)
    ensures Parse(linkSegments).Failure? ==> r == Failure(BadLinkHeader(Parse(linkSegments).error))
    ensures Parse(linkSegments).Success? ==> (r.Success? <==> "acl" in Parse(linkSegments).value)
    ensures r.Success? ==> "href" in Parse(linkSegments).value["acl"] && r.value == Parse(linkSegments).value["acl"]["href"]
  {
    var parsed := Parse(linkSegments);
    if parsed.Failure? then Failure(BadLinkHeader(parsed.error))
    else
      ParsedLinks(linkSegments);
      if "acl" !in parsed.value then Failure(MissingRel("acl"))
      else Success(parsed.value["acl"]["href"])
  }
}
