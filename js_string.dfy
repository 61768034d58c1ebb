/**
 * The JavaScript string operations the client relies on (indexOf, slice,
 * substring, charAt, split, toUpperCase, toLowerCase), written out with their
 * edge cases, and the three small string helpers of the client built on them:
 * unquote, basename and firstLetterUpperCase, plus the profile document URI.
 */
module JsString {

  /** `s.indexOf(c)` for a one-character argument: the first position of c, or -1. */
  function IndexOf(s: string, c: char): (i: int)
    ensures -1 <= i < |s|
    ensures i == -1 <==> c !in s
    ensures 0 <= i ==> s[i] == c && c !in s[..i]
  {
    if |s| == 0 then -1
    else if s[0] == c then 0
    else
      var j := IndexOf(s[1..], c);
      if j == -1 then -1
      else
        assert s[..j + 1] == [s[0]] + s[1..][..j];
        j + 1
  }

  /** How `slice` reads a position: a negative one counts from the end; both are clamped to [0, n]. */
  function SlicePos(k: int, n: nat): (r: nat)
    ensures r <= n
  {
    if k < 0 then (if n + k < 0 then 0 else n + k)
    else if k > n then n
    else k
  }

  /** `s.slice(b, e)`. */
  function Slice(s: string, b: int, e: int): string
  {
    var lo := SlicePos(b, |s|);
    var hi := SlicePos(e, |s|);
    if lo < hi then s[lo..hi] else ""
  }

  /** How `substring` reads a position: negative becomes 0, too large becomes n. */
  function SubstringPos(k: int, n: nat): (r: nat)
    ensures r <= n
  {
    if k < 0 then 0 else if k > n then n else k
  }

  /** `s.substring(a, b)`: both clamped, and swapped when a > b. */
  function Substring(s: string, a: int, b: int): string
  {
    var x := SubstringPos(a, |s|);
    var y := SubstringPos(b, |s|);
    if x <= y then s[x..y] else s[y..x]
  }

  /** `s.substring(a)`: from a to the end. */
  function SubstringFrom(s: string, a: int): string
  {
    Substring(s, a, |s|)
  }

  /** `s.charAt(i)`: a one-character string, or "" outside the string. */
  function CharAt(s: string, i: int): string
  {
    if 0 <= i < |s| then [s[i]] else ""
  }

  /** `s.split(c)` for a one-character separator: the pieces between separators, at least one. */
  function Split(s: string, c: char): (parts: seq<string>)
    ensures 1 <= |parts|
    ensures c in s <==> 2 <= |parts|
    decreases |s|
  {
    var i := IndexOf(s, c);
    if i < 0 then [s] else [s[..i]] + Split(s[i + 1..], c)
  }

  /** No piece of a split contains the separator. */
  lemma {:induction false} SplitPiecesFree(s: string, c: char)
    ensures forall k :: 0 <= k < |Split(s, c)| ==> c !in Split(s, c)[k]
    decreases |s|
  {
    var i := IndexOf(s, c);
    if 0 <= i {
      var parts := Split(s, c);
      var rest := Split(s[i + 1..], c);
      SplitPiecesFree(s[i + 1..], c);
      assert parts == [s[..i]] + rest;
      forall k | 0 <= k < |parts| ensures c !in parts[k] {
        if 0 < k {
          assert parts[k] == rest[k - 1];
        }
      }
    }
  }

  /** `parts.join(c)`: the inverse of Split. */
  function Join(parts: seq<string>, c: char): string
    requires 1 <= |parts|
  {
    if |parts| == 1 then parts[0] else parts[0] + [c] + Join(parts[1..], c)
  }

  /** When the first piece has no separator, splitting `a c rest` gives a and then the pieces of rest. */
  lemma SplitFirst(a: string, c: char, rest: string)
    requires c !in a
    ensures Split(a + [c] + rest, c) == [a] + Split(rest, c)
  {
    var s := a + [c] + rest;
    assert s[|a|] == c;
    assert s[..|a|] == a;
    assert IndexOf(s, c) == |a|;
    assert s[|a| + 1..] == rest;
  }

  /** Splitting and joining again gives back the string. */
  lemma {:induction false} JoinSplit(s: string, c: char)
    ensures Join(Split(s, c), c) == s
    decreases |s|
  {
    var i := IndexOf(s, c);
    if 0 <= i {
      JoinSplit(s[i + 1..], c);
      assert s == s[..i] + [c] + s[i + 1..];
    }
  }

  /** `last` is the end of s, preceded by the separator c unless it is all of s. */
  predicate EndsAfter(s: string, last: string, c: char)
  {
    |last| <= |s| && s[|s| - |last|..] == last && (|last| == |s| || s[|s| - |last| - 1] == c)
  }

  /** What ends the part after a separator ends the whole string. */
  lemma EndsAfterTail(s: string, c: char, i: nat, last: string)
    requires i < |s| && s[i] == c && EndsAfter(s[i + 1..], last, c)
    ensures EndsAfter(s, last, c)
  {
    var rest := s[i + 1..];
    assert s[|s| - |last|..] == rest[|rest| - |last|..];
    if |last| < |rest| {
      assert s[|s| - |last| - 1] == rest[|rest| - |last| - 1];
    }
  }

  /** Joining pieces with c ends with the last piece, preceded by c unless it is the only one. */
  lemma {:induction false} JoinEndsWithLast(parts: seq<string>, c: char)
    requires 1 <= |parts|
    ensures EndsAfter(Join(parts, c), parts[|parts| - 1], c)
  {
    if |parts| > 1 {
      JoinEndsWithLast(parts[1..], c);
      var s := Join(parts, c);
      assert s == parts[0] + [c] + Join(parts[1..], c);
      assert s[|parts[0]| + 1..] == Join(parts[1..], c);
      EndsAfterTail(s, c, |parts[0]|, parts[|parts| - 1]);
    }
  }

  /** The last piece of a split is the part of s after its last separator (or all of s). */
  lemma LastPieceIsSuffix(s: string, c: char)
    ensures var parts := Split(s, c); EndsAfter(s, parts[|parts| - 1], c)
  {
    JoinSplit(s, c);
    LastPieceOfJoin(s, Split(s, c), c);
  }
  lemma LastPieceOfJoin(s: string, parts: seq<string>, c: char)
    requires 1 <= |parts| && Join(parts, c) == s
    ensures EndsAfter(s, parts[|parts| - 1], c)
  {
    JoinEndsWithLast(parts, c);
  }

  // ---------------------------------------------------------------------
  // Case mapping (ASCII letters; every other character is left alone)
  // ---------------------------------------------------------------------

  function UpperChar(c: char): char
  {
    if 'a' <= c <= 'z' then (c as int - 32) as char else c
  }

  function LowerChar(c: char): char
  {
    if 'A' <= c <= 'Z' then (c as int + 32) as char else c
  }

  /** `s.toUpperCase()`. */
  function ToUpper(s: string): (r: string)
    ensures |r| == |s|
  {
    seq(|s|, i requires 0 <= i < |s| => UpperChar(s[i]))
  }

  /** `s.toLowerCase()`. */
  function ToLower(s: string): (r: string)
    ensures |r| == |s|
  {
    seq(|s|, i requires 0 <= i < |s| => LowerChar(s[i]))
  }

  /** The client's firstLetterUpperCase: upper-case the first character, lower-case the rest. */
  function FirstLetterUpperCase(str: string): string
  {
    var start := Slice(str, 0, 1);
    var end := Slice(str, 1, |str|);
    ToUpper(start) + ToLower(end)
  }

  /** The result keeps the length, has its first character upper-cased and every other one lower-cased. */
  lemma FirstLetterUpperCaseShape(str: string)
    ensures var r := FirstLetterUpperCase(str);
      |r| == |str| &&
      (0 < |str| ==> r[0] == UpperChar(str[0])) &&
      (forall i :: 0 < i < |str| ==> r[i] == LowerChar(str[i]))
  {
    var r := FirstLetterUpperCase(str);
    if 0 < |str| {
      assert Slice(str, 0, 1) == str[..1];
      assert Slice(str, 1, |str|) == str[1..];
      forall i | 0 < i < |str| ensures r[i] == LowerChar(str[i]) {
        assert r[i] == ToLower(str[1..])[i - 1];
      }
    } else {
      assert r == "";
    }
  }

  lemma CaseRoundTrips(c: char)
    ensures UpperChar(LowerChar(c)) == UpperChar(c)
    ensures LowerChar(UpperChar(c)) == LowerChar(c)
    ensures LowerChar(LowerChar(c)) == LowerChar(c)
    ensures UpperChar(UpperChar(c)) == UpperChar(c)
  {
  }

  /** Normalising twice is normalising once. */
  lemma FirstLetterUpperCaseIdempotent(str: string)
    ensures FirstLetterUpperCase(FirstLetterUpperCase(str)) == FirstLetterUpperCase(str)
  {
    var r := FirstLetterUpperCase(str);
    var rr := FirstLetterUpperCase(r);
    FirstLetterUpperCaseShape(str);
    FirstLetterUpperCaseShape(r);
    forall i | 0 <= i < |str| ensures rr[i] == r[i] {
      CaseRoundTrips(str[i]);
    }
  }

  /** Two mode names that differ only in letter case normalise to the same name ("read", "READ" and "Read" all give "Read"). */
  lemma FirstLetterUpperCaseIgnoresCase(a: string, b: string)
    requires ToLower(a) == ToLower(b)
    ensures FirstLetterUpperCase(a) == FirstLetterUpperCase(b)
  {
    var ra := FirstLetterUpperCase(a);
    var rb := FirstLetterUpperCase(b);
    FirstLetterUpperCaseShape(a);
    FirstLetterUpperCaseShape(b);
    forall i | 0 <= i < |a| ensures ra[i] == rb[i] {
      assert ToLower(a)[i] == ToLower(b)[i];
      CaseRoundTrips(a[i]);
      CaseRoundTrips(b[i]);
    }
  }

  lemma FirstLetterUpperCaseExamples()
    ensures FirstLetterUpperCase("read") == "Read"
    ensures FirstLetterUpperCase("READ") == "Read"
    ensures FirstLetterUpperCase("") == ""
  {
    FirstLetterUpperCaseShape("read");
    FirstLetterUpperCaseShape("READ");
    FirstLetterUpperCaseShape("");
  }

  // ---------------------------------------------------------------------
  // unquote
  // ---------------------------------------------------------------------

  /** The client's unquote. */
  function Unquote(value: string): string
  {
    if CharAt(value, 0) == "\"" && CharAt(value, |value| - 1) == "\""
    then Substring(value, 1, |value| - 1)
    else value
  }

  /**
   * unquote removes one leading and one trailing double quote when both are
   * there (a lone `"` counts as neither: substring(1, 0) swaps its bounds and
   * gives the `"` back), and otherwise returns its input.
   */
  lemma UnquoteSpec(value: string)
    ensures Unquote(value) ==
      if 2 <= |value| && value[0] == '"' && value[|value| - 1] == '"'
      then value[1..|value| - 1] else value
  {
    if |value| == 1 && value[0] == '"' {
      assert Substring(value, 1, 0) == value[0..1];
    }
  }

  function Quote(s: string): string
  {
    "\"" + s + "\""
  }

  /** unquote undoes quoting, whatever the quoted text is. */
  lemma UnquoteQuote(s: string)
    ensures Unquote(Quote(s)) == s
  {
    UnquoteSpec(Quote(s));
    assert Quote(s)[1..|Quote(s)| - 1] == s;
  }

  // ---------------------------------------------------------------------
  // basename
  // ---------------------------------------------------------------------

  /** The last piece of a split is a separator-free suffix that starts after a separator. */
  lemma LastPieceFacts(s: string, c: char)
    ensures var parts := Split(s, c); EndsAfter(s, parts[|parts| - 1], c) && c !in parts[|parts| - 1]
  {
    LastPieceIsSuffix(s, c);
    SplitPiecesFree(s, c);
  }

  /** The path with one trailing '/' removed, as basename's first step does. */
  function DropTrailingSlash(path: string): string
  {
    if SubstringFrom(path, |path| - 1) == "/" then Substring(path, 0, |path| - 1) else path
  }

  /** At most one trailing '/' is dropped, and only a '/'. */
  lemma DropTrailingSlashSpec(path: string)
    ensures DropTrailingSlash(path) == path || path == DropTrailingSlash(path) + "/"
  {
    if 0 < |path| && path[|path| - 1] == '/' {
      assert SubstringFrom(path, |path| - 1) == "/";
      assert path == Substring(path, 0, |path| - 1) + "/";
    } else if 0 < |path| {
      assert SubstringFrom(path, |path| - 1) == [path[|path| - 1]];
    }
  }

  /** The client's basename: the last '/'-separated piece once one trailing '/' is dropped. */
  function Basename(path: string): string
  {
    var p := DropTrailingSlash(path);
    var a := Split(p, '/');
    a[|a| - 1]
  }

  /**
   * basename drops at most one trailing '/', and returns the last piece of
   * what remains: a suffix with no '/' in it, preceded by a '/' or by nothing.
   */
  lemma BasenameSpec(path: string)
    ensures var p := DropTrailingSlash(path); var r := Basename(path);
      (p == path || path == p + "/") &&
      '/' !in r &&
      |r| <= |p| && p[|p| - |r|..] == r &&
      (|r| == |p| || p[|p| - |r| - 1] == '/')
  {
    DropTrailingSlashSpec(path);
    LastPieceFacts(DropTrailingSlash(path), '/');
  }

  // ---------------------------------------------------------------------
  // The profile document of a WebID
  // ---------------------------------------------------------------------

  /** `webid.slice(0, webid.indexOf('#'))`, exactly as the client computes the document to fetch. */
  function ProfileDocumentAsWritten(webid: string): string
  {
    Slice(webid, 0, IndexOf(webid, '#'))
  }

  /** With no '#' in the WebID, indexOf gives -1 and slice(0, -1) drops the last character. */
  lemma ProfileDocumentAsWrittenDropsLastChar(webid: string)
    requires '#' !in webid && 0 < |webid|
    ensures ProfileDocumentAsWritten(webid) == webid[..|webid| - 1]
    ensures ProfileDocumentAsWritten(webid) != webid
  {
  }

  lemma ProfileDocumentAsWrittenExample()
    ensures ProfileDocumentAsWritten("https://alice.example/card") == "https://alice.example/car"
  {
    ProfileDocumentAsWrittenDropsLastChar("https://alice.example/card");
  }

  /** The document a WebID names: the WebID up to its first '#', or the whole WebID when it has none. */
  function ProfileDocument(webid: string): string
  {
    var i := IndexOf(webid, '#');
    if i < 0 then webid else webid[..i]
  }

  /** The document is the WebID truncated before its first '#'; with a '#' it agrees with the client's slice. */
  lemma ProfileDocumentSpec(webid: string)
    ensures var d := ProfileDocument(webid);
      '#' !in d &&
      |d| <= |webid| && webid[..|d|] == d &&
      (|d| == |webid| || webid[|d|] == '#')
    ensures '#' in webid ==> ProfileDocument(webid) == ProfileDocumentAsWritten(webid)
  {
  }
}
