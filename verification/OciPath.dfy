/** The repository name in a path of the OCI distribution API, as the registry proxy finds it. */
module OciPath {
  import opened GoStrings

  const ROOT := "/v2/"

  /** The requests of the OCI Distribution Specification v1.1, section 'Endpoints'. */
  datatype Endpoint =
    | Manifest(reference: string)
    | Blob(digest: string)
    | StartUpload
    | Upload(session: string)
    | TagsList
    | Referrers(digest: string)

  function Suffix(e: Endpoint): seq<string> {
    match e
    case Manifest(reference) => ["manifests", reference]
    case Blob(digest) => ["blobs", digest]
    case StartUpload => ["blobs", "uploads"]
    case Upload(session) => ["blobs", "uploads", session]
    case TagsList => ["tags", "list"]
    case Referrers(digest) => ["referrers", digest]
  }

  /** The path of a request; starting an upload has a trailing slash. */
  function PathOf(repo: seq<string>, e: Endpoint): string {
    ROOT + Join(repo + Suffix(e), '/') + if e.StartUpload? then "/" else ""
  }

  predicate Segment(s: string) { s != "" && '/' !in s }

  predicate Keyword(s: string) { s == "manifests" || s == "tags" || s == "referrers" || s == "blobs" }

  /** Looks at the segments before `n`, the last one first. */
  function Scan(parts: seq<string>, n: nat): string
    requires n <= |parts|
  {
    if n == 0 then ""
    else if Keyword(parts[n-1]) then Join(parts[..n-1], '/')
    else if parts[n-1] == "uploads" && n > 1 && parts[n-2] == "blobs" then Join(parts[..n-2], '/')
    else Scan(parts, n - 1)
  }

  function Trim(s: string): string { TrimLeft(TrimRight(s, "/"), "/") }

  function ExtractRepo(path: string): string {
    if !HasPrefix(path, ROOT) || path == ROOT then ""
    else
      var parts := Split(Trim(path[|ROOT|..]), '/');
      if parts[0] == "" then "" else Scan(parts, |parts|)
  }

  lemma {:induction false} JoinEdges(segments: seq<string>)
    requires segments != [] && forall s :: s in segments ==> Segment(s)
    ensures var j := Join(segments, '/'); j != "" && j[0] != '/' && j[|j|-1] != '/'
  {
    assert segments[0] in segments;
    if |segments| > 1 {
      assert forall s :: s in segments[1..] ==> s in segments;
      JoinEdges(segments[1..]);
    }
  }

  lemma TrimEdges(s: string)
    requires s != "" && s[0] != '/' && s[|s|-1] != '/'
    ensures Trim(s) == s && Trim(s + "/") == s
  {
    assert (s + "/")[..|s|] == s;
    assert TrimRight(s + "/", "/") == TrimRight(s, "/");
  }

  lemma AfterRoot(joined: string, tail: string)
    requires joined != ""
    ensures var path := ROOT + joined + tail;
            HasPrefix(path, ROOT) && path != ROOT && path[|ROOT|..] == joined + tail
  {
  }

  /** The path's segments are read back, whatever they are called. */
  lemma PathSegments(repo: seq<string>, e: Endpoint)
    requires repo != [] && forall s :: s in repo + Suffix(e) ==> Segment(s)
    ensures var segments := repo + Suffix(e);
            ExtractRepo(PathOf(repo, e)) == Scan(segments, |segments|)
  {
    hide Join, Split, Scan, Trim, Suffix;
    var segments := repo + Suffix(e);
    var joined := Join(segments, '/');
    JoinEdges(segments);
    TrimEdges(joined);
    AfterRoot(joined, if e.StartUpload? then "/" else "");
    AppendNothing(joined);
    assert segments[0] in segments;
    SplitJoin(segments, '/');
  }

  lemma AppendNothing(s: string)
    ensures s + "" == s
  {
  }

  /** The last segment the caller chooses freely, if the endpoint has one. */
  function Chosen(e: Endpoint): string {
    match e
    case Manifest(reference) => reference
    case Blob(digest) => digest
    case Upload(session) => session
    case Referrers(digest) => digest
    case _ => "list"
  }

  lemma ScanSuffix(repo: seq<string>, e: Endpoint)
    requires repo != []
    ensures var segments := repo + Suffix(e);
            Scan(segments, |segments|) ==
              if Keyword(Chosen(e)) then Join(segments[..|segments|-1], '/') else Join(repo, '/')
  {
    var segments := repo + Suffix(e);
    var n := |segments|;
    assert segments[..|repo|] == repo;
    hide Join;
    if e.Upload? {
      assert segments[n-2] == "uploads" && segments[n-3] == "blobs" && segments[n-1] == e.session;
      assert Scan(segments, n - 1) == Join(repo, '/');
    } else {
      assert segments[n-2] == Suffix(e)[0] && segments[n-1] == Suffix(e)[1];
      assert Keyword(segments[n-2]) && Scan(segments, n - 1) == Join(segments[..n-2], '/');
    }
  }

  /**
   Printing a request's path and extracting gives the repository back, even if its segments
   are named like operations, exactly if the segment the caller chose last is not such a name.
   */
  lemma RepoOfPath(repo: seq<string>, e: Endpoint)
    requires repo != [] && forall s :: s in repo + Suffix(e) ==> Segment(s)
    ensures ExtractRepo(PathOf(repo, e)) == Join(repo, '/') <==> !Keyword(Chosen(e))
  {
    PathSegments(repo, e);
    ScanSuffix(repo, e);
    if Keyword(Chosen(e)) {
      var longer := (repo + Suffix(e))[..|repo + Suffix(e)|-1];
      assert |longer| > |repo|;
      assert forall s :: s in longer ==> s in repo + Suffix(e);
      assert forall s :: s in repo ==> s in repo + Suffix(e);
      hide Join, Split, Scan, Suffix;
      SplitJoin(longer, '/');
      SplitJoin(repo, '/');
    }
  }

  // ---------- Any path at all ----------

  /** The last operation among the segments is at `i`. */
  ghost predicate LastOperation(parts: seq<string>, i: nat) {
    i < |parts| && Keyword(parts[i]) && forall k :: i < k < |parts| ==> !Keyword(parts[k])
  }

  lemma {:induction false} ScanFinds(parts: seq<string>, n: nat, i: nat)
    requires i < n <= |parts| && Keyword(parts[i]) && forall k :: i < k < n ==> !Keyword(parts[k])
    ensures Scan(parts, n) == Join(parts[..i], '/')
  {
    if n - 1 != i {
      assert parts[n-2] == "blobs" ==> n - 2 == i;
      ScanFinds(parts, n - 1, i);
    }
  }

  lemma {:induction false} ScanMisses(parts: seq<string>, n: nat)
    requires n <= |parts| && forall k :: 0 <= k < n ==> !Keyword(parts[k])
    ensures Scan(parts, n) == ""
  {
    if n > 0 {
      assert n > 1 ==> parts[n-2] != "blobs";
      ScanMisses(parts, n - 1);
    }
  }

  /** Trimming takes slashes off both ends, and nothing else. */
  lemma Trimmed(s: string) returns (lead: nat)
    ensures lead + |Trim(s)| <= |s| && s[lead..lead+|Trim(s)|] == Trim(s)
    ensures forall k :: 0 <= k < |s| && !(lead <= k < lead + |Trim(s)|) ==> s[k] == '/'
    ensures Trim(s) != "" ==> Trim(s)[0] != '/' && Trim(s)[|Trim(s)|-1] != '/'
  {
    hide TrimLeft, TrimRight;
    var right := TrimRight(s, "/");
    lead := |right| - |Trim(s)|;
    assert forall k :: 0 <= k < |right| ==> right[k] == s[k];
  }

  lemma {:induction false} JoinAt(parts: seq<string>, i: nat)
    requires 0 < i < |parts|
    ensures Join(parts, '/') == Join(parts[..i], '/') + ['/'] + Join(parts[i..], '/')
  {
    if i == 1 {
      assert parts[..1] == [parts[0]];
    } else {
      JoinAt(parts[1..], i - 1);
      assert parts[1..][..i-1] == parts[..i][1..] && parts[1..][i-1..] == parts[i..];
      var a, b, c := parts[0] + ['/'], Join(parts[1..][..i-1], '/'), ['/'] + Join(parts[i..], '/');
      assert a + (b + c) == a + b + c;
    }
  }

  /** What is left of a path when "/v2/" and the slashes at the ends are gone, in segments. */
  function Segments(path: string): seq<string>
    requires HasPrefix(path, ROOT)
  {
    Split(Trim(path[|ROOT|..]), '/')
  }

  /** On every path: the text before the last operation, nothing without one, nothing outside "/v2/". */
  lemma ExtractedExactly(path: string)
    ensures !HasPrefix(path, "/v2/") ==> ExtractRepo(path) == ""
    ensures HasPrefix(path, "/v2/") ==>
              && (forall i: nat :: LastOperation(Segments(path), i) ==> ExtractRepo(path) == Join(Segments(path)[..i], '/'))
              && ((forall k :: 0 <= k < |Segments(path)| ==> !Keyword(Segments(path)[k])) ==> ExtractRepo(path) == "")
  {
    if HasPrefix(path, "/v2/") {
      var body, parts := Trim(path[|ROOT|..]), Segments(path);
      var lead := Trimmed(path[|ROOT|..]);
      FirstSegment(body);
      EmptyBody();
      hide Split, Join, Trim, Scan;
      forall i: nat | LastOperation(parts, i) ensures ExtractRepo(path) == Join(parts[..i], '/') {
        ScanFinds(parts, |parts|, i);
      }
      if forall k :: 0 <= k < |parts| ==> !Keyword(parts[k]) {
        ScanMisses(parts, |parts|);
      }
    }
  }

  lemma EmptyBody()
    ensures ROOT[|ROOT|..] == "" && Trim("") == "" && Split("", '/') == [""] && !Keyword("")
  {
    hide Trim, Join, Scan;
    var lead := Trimmed("");
    SplitNone("", '/');
    hide Split;
  }

  /** The first segment of a trimmed text is empty only if all of it is. */
  lemma FirstSegment(body: string)
    requires body != "" ==> body[0] != '/'
    ensures Split(body, '/')[0] == "" ==> Split(body, '/') == [""]
  {
  }

  /**
   A repository is extracted from no other than a path of the form "/v2/" repository "/" operation,
   with any slashes around and anything behind the operation.
   */
  lemma ExtractedForm(path: string)
    requires ExtractRepo(path) != ""
    ensures HasPrefix(path, "/v2/")
    ensures exists tail: string :: Trim(path[4..]) == ExtractRepo(path) + ['/'] + tail && BeginsWithOperation(tail)
  {
    hide Split, Join, Trim, ExtractRepo, Scan, BeginsWithOperation;
    ExtractedExactly(path);
    var body, parts := Trim(path[4..]), Segments(path);
    var k :| 0 <= k < |parts| && Keyword(parts[k]);
    var i := LastOf(parts, k);
    JoinSplit(body, '/');
    if i == 0 {
      NoRepo(parts);
    }
    JoinAt(parts, i);
    SplitPartsFree(body, '/');
    TailBegins(parts, i);
  }

  predicate BeginsWithOperation(tail: string) {
    var first := Split(tail, '/')[0];
    first == "manifests" || first == "tags" || first == "referrers" || first == "blobs"
  }

  lemma TailBegins(parts: seq<string>, i: nat)
    requires i < |parts| && Keyword(parts[i]) && forall p :: p in parts ==> '/' !in p
    ensures BeginsWithOperation(Join(parts[i..], '/'))
  {
    hide Split, Join;
    var rest := parts[i..];
    assert forall p :: p in rest ==> p in parts;
    SplitJoin(rest, '/');
    assert rest[0] == parts[i];
  }

  lemma NoRepo(parts: seq<string>)
    requires parts != []
    ensures Join(parts[..0], '/') == ""
  {
  }

  lemma {:induction false} LastOf(parts: seq<string>, k: nat) returns (i: nat)
    requires k < |parts| && Keyword(parts[k])
    ensures LastOperation(parts, i)
    decreases |parts| - k
  {
    if j :| k < j < |parts| && Keyword(parts[j]) {
      i := LastOf(parts, j);
    } else {
      i := k;
    }
  }

  /** The ping has no repository, and no more has a path of one segment that names no operation, as "_catalog". */
  lemma NoRepository(name: string)
    requires Segment(name) && !Keyword(name)
    ensures ExtractRepo("/v2") == "" && ExtractRepo("/v2/") == "" && ExtractRepo("/v2/" + name) == ""
  {
    hide ExtractRepo, Scan, Split, Trim, Join;
    ExtractedExactly("/v2");
    ExtractedExactly("/v2/");
    ExtractedExactly("/v2/" + name);
    EmptyBody();
    assert |"/v2"| < |ROOT|;
    assert ("/v2/" + name)[|ROOT|..] == name && HasPrefix("/v2/" + name, ROOT);
    TrimEdges(name);
    SplitNone(name, '/');
  }

  /** extractRepoFromPath as it is written. */
  method ExtractRepoFromPath(urlPath: string) returns (repo: string)
    ensures repo == ExtractRepo(urlPath)
  {
    if !HasPrefix(urlPath, ROOT) || urlPath[|ROOT|..] == "" {
      assert HasPrefix(urlPath, ROOT) && urlPath[|ROOT|..] == "" ==> urlPath == ROOT;
      return "";
    }
    assert urlPath != ROOT;
    var parts := Split(Trim(urlPath[|ROOT|..]), '/');
    if parts[0] == "" {
      return "";
    }
    hide Split, Trim;
    for i := |parts| downto 0
      invariant Scan(parts, |parts|) == Scan(parts, i)
    {
      var part := parts[i];
      if part == "manifests" || part == "tags" || part == "referrers" || part == "blobs" {
        if i == 0 {
          return "";
        }
        return Join(parts[..i], '/');
      }
      if part == "uploads" && i > 0 && parts[i-1] == "blobs" {
        if i - 1 == 0 {
          return "";
        }
        return Join(parts[..i-1], '/');
      }
    }
    repo := "";
  }
}
