/** Image references, as the docker package, the executor and the discover step parse them. */
module ImageRef {
  import opened Options
  import opened GoStrings

  /** Strips digest and tag; keeps a registry's host and port. */
  function RepoFromRef(ref: string): string {
    var at := Index(ref, '@');
    var r := if at >= 0 then ref[..at] else ref;
    var lastSlash := LastIndex(r, '/');
    var tagStart := Index(r[lastSlash+1..], ':');
    if tagStart < 0 then r else r[..lastSlash+1+tagStart]
  }

  /** The last path segment. */
  function BaseName(image: string): string { image[LastIndex(image, '/')+1..] }

  /** The executor's way to an app's name: last segment first, and then up to the first colon. */
  function ExtractApp(imageTag: string): string {
    var last := BaseName(imageTag);
    var i := Index(last, ':');
    if i < 0 then last else last[..i]
  }

  /** A repository without tag or digest; a colon can only be the host's port. */
  predicate Bare(repo: string) { '@' !in repo && ':' !in BaseName(repo) }

  /** `s` up to its first `c`, or all of it. */
  function Before(s: string, c: char): (r: string)
    ensures r <= s && c !in r
  {
    var i := Index(s, c);
    if i < 0 then s else s[..i]
  }

  lemma BeforeAppend(a: string, c: char, b: string)
    requires c !in a
    ensures Before(a + [c] + b, c) == a && Before(a, c) == a
  {
    IndexAfter(a, c, b);
    assert (a + [c] + b)[..|a|] == a;
  }

  lemma BaseNameOf(dir: string, base: string)
    requires '/' !in base
    ensures BaseName(dir + ['/'] + base) == base && BaseName(base) == base
    ensures LastIndex(dir + ['/'] + base, '/') == |dir|
  {
    LastIndexBefore(dir, '/', base);
    assert (dir + ['/'] + base)[|dir|+1..] == base;
    assert base[0..] == base;
  }

  /** Every reference is a last segment, or a directory and a last segment. */
  lemma Segments(r: string) returns (dir: string, base: string)
    ensures '/' !in base && BaseName(r) == base
    ensures r == base || r == dir + ['/'] + base
  {
    var i := LastIndex(r, '/');
    base := r[i+1..];
    dir := if i < 0 then "" else r[..i];
    if i < 0 {
      assert r[0..] == r;
    } else {
      CutAt(r, i);
    }
  }

  /** The digest goes first, then the tag of the last segment. */
  lemma RepoDir(dir: string, base: string)
    requires '/' !in base && '@' !in dir + ['/'] + base
    ensures RepoFromRef(dir + ['/'] + base) == dir + ['/'] + Before(base, ':')
  {
    var r := dir + ['/'] + base;
    hide LastIndex, Index;
    BaseNameOf(dir, base);
    assert r[|dir|+1..] == base && Index(r, '@') < 0;
    var i := Index(base, ':');
    if i >= 0 {
      TakeInto(dir + ['/'], base, i);
    }
  }

  lemma RepoPlain(base: string)
    requires '/' !in base && '@' !in base
    ensures RepoFromRef(base) == Before(base, ':')
  {
    assert base[0..] == base;
  }

  lemma RepoBeforeDigest(ref: string)
    ensures RepoFromRef(ref) == RepoFromRef(Before(ref, '@'))
  {
    var r := Before(ref, '@');
    assert Index(r, '@') < 0;
  }

  lemma BareOf(dir: string, base: string)
    requires '/' !in base && ':' !in base
    ensures '@' !in dir + ['/'] + base ==> Bare(dir + ['/'] + base) && RepoFromRef(dir + ['/'] + base) == dir + ['/'] + base
    ensures '@' !in base ==> Bare(base) && RepoFromRef(base) == base
  {
    hide RepoFromRef;
    BaseNameOf(dir, base);
    assert Before(base, ':') == base;
    if '@' !in dir + ['/'] + base {
      RepoDir(dir, base);
    }
    if '@' !in base {
      RepoPlain(base);
    }
  }

  /** The result is bare, so parsing it again changes nothing. */
  lemma RepoFromRefIsBare(ref: string)
    ensures Bare(RepoFromRef(ref)) && RepoFromRef(RepoFromRef(ref)) == RepoFromRef(ref)
  {
    hide RepoFromRef, Bare, Before;
    RepoBeforeDigest(ref);
    var r := Before(ref, '@');
    var dir, base := Segments(r);
    var name := Before(base, ':');
    assert forall c :: c in name ==> c in base;
    BareOf(dir, name);
    if r == base {
      RepoPlain(base);
    } else {
      RepoDir(dir, base);
    }
  }

  /** A tag, a digest, or both, appended to a bare repository are stripped again. */
  lemma RepoOfTagged(repo: string, tag: string, digest: string)
    requires Bare(repo) && '/' !in tag && '@' !in tag
    ensures RepoFromRef(repo) == repo
    ensures RepoFromRef(repo + [':'] + tag) == repo
    ensures RepoFromRef(repo + ['@'] + digest) == repo
    ensures RepoFromRef(repo + [':'] + tag + ['@'] + digest) == repo
  {
    hide RepoFromRef, Before, BaseName, Index, LastIndex;
    var dir, base := Segments(repo);
    var tagged := repo + [':'] + tag;
    assert '@' !in tagged;
    BeforeAppend(repo, '@', digest);
    BeforeAppend(tagged, '@', digest);
    RepoBeforeDigest(repo + ['@'] + digest);
    RepoBeforeDigest(tagged + ['@'] + digest);
    BareOf(dir, base);
    RepoOfTag(dir, base, tag);
    if repo != base {
      Regroup(dir, '/', base, ':', tag);
    }
  }

  lemma RepoOfTag(dir: string, base: string, tag: string)
    requires '/' !in base && ':' !in base && '/' !in tag
    ensures '@' !in base + [':'] + tag ==> RepoFromRef(base + [':'] + tag) == base
    ensures '@' !in dir + ['/'] + (base + [':'] + tag) ==>
              RepoFromRef(dir + ['/'] + (base + [':'] + tag)) == dir + ['/'] + base
  {
    hide RepoFromRef, Before, BaseName, Index, LastIndex;
    var last := base + [':'] + tag;
    BeforeAppend(base, ':', tag);
    if '@' !in last {
      RepoPlain(last);
    }
    if '@' !in dir + ['/'] + last {
      RepoDir(dir, last);
    }
  }

  lemma AppOf(dir: string, base: string)
    requires '/' !in base
    ensures ExtractApp(dir + ['/'] + base) == Before(base, ':') && ExtractApp(base) == Before(base, ':')
  {
    BaseNameOf(dir, base);
  }

  /** On references without a digest the executor and the parser agree on the app's name. */
  lemma AppIsBaseName(ref: string)
    requires '@' !in ref
    ensures ExtractApp(ref) == BaseName(RepoFromRef(ref))
  {
    hide RepoFromRef, Before, BaseName, ExtractApp;
    var dir, base := Segments(ref);
    var name := Before(base, ':');
    assert forall c :: c in name ==> c in base;
    AppOf(dir, base);
    BaseNameOf(dir, name);
    if ref == base {
      RepoPlain(base);
    } else {
      RepoDir(dir, base);
    }
  }

  /**
   With a digest (which has no slash) they agree exactly if a tag precedes it: the executor
   takes the `@` and what follows it up to a colon for a part of the name.
   */
  lemma AppOfDigest(ref: string, digest: string)
    requires '@' !in ref && '/' !in digest
    ensures ExtractApp(ref + ['@'] + digest) == BaseName(RepoFromRef(ref + ['@'] + digest))
        <==> ':' in BaseName(ref)
  {
    hide RepoFromRef, BaseName, ExtractApp, Before, Index, LastIndex;
    var dir, base := Segments(ref);
    var last := base + ['@'] + digest;
    RepoBeforeDigest(ref + ['@'] + digest);
    BeforeAppend(ref, '@', digest);
    AppIsBaseName(ref);
    AppOf(dir, base);
    AppOf(dir, last);
    if ref != base {
      Regroup(dir, '/', base, '@', digest);
    }
    assert '@' !in base;
    BeforeDigest(base, digest);
  }

  lemma BeforeDigest(base: string, digest: string)
    requires '@' !in base
    ensures Before(base + ['@'] + digest, ':') == Before(base, ':') <==> ':' in base
  {
    var last, i := base + ['@'] + digest, Index(base, ':');
    if i >= 0 {
      assert last[..i] == base[..i];
      IndexIs(last, ':', i);
    } else {
      var j := Index(last, ':');
      assert forall k :: 0 <= k < |base| ==> last[k] == base[k] && base[k] in base;
      assert last[|base|] == '@';
      assert j < 0 || j > |base|;
    }
  }

  // ---------- Discover ----------

  /** `found` is the first container whose image has the searched base name, if there is one. */
  ghost predicate Finds(images: seq<string>, imageName: string, found: Option<nat>) {
    match found
    case Some(i) =>
      && i < |images| && BaseName(RepoFromRef(images[i])) == BaseName(imageName)
      && forall k :: 0 <= k < i ==> BaseName(RepoFromRef(images[k])) != BaseName(imageName)
    case None => forall k :: 0 <= k < |images| ==> BaseName(RepoFromRef(images[k])) != BaseName(imageName)
  }

  method FindMatchingContainer(images: seq<string>, imageName: string) returns (found: Option<nat>)
    ensures Finds(images, imageName, found)
  {
    hide BaseName, RepoFromRef;
    var searchBase := BaseName(imageName);
    for i := 0 to |images|
      invariant forall k :: 0 <= k < i ==> BaseName(RepoFromRef(images[k])) != searchBase
    {
      var name := RepoFromRef(images[i]);
      if name == imageName || BaseName(name) == searchBase {
        return Some(i);
      }
    }
    found := None;
  }

  /**
   Where some image has exactly the searched name, `j` being the first: the container found has
   it too if and only if no earlier image has the base name, and then it is `j`.
   */
  lemma ExactMatchFound(images: seq<string>, imageName: string, j: nat, found: Option<nat>)
    requires Finds(images, imageName, found)
    requires j < |images| && RepoFromRef(images[j]) == imageName
    requires forall k :: 0 <= k < j ==> RepoFromRef(images[k]) != imageName
    ensures found.Some? && found.value <= j
    ensures RepoFromRef(images[found.value]) == imageName <==>
              forall k :: 0 <= k < j ==> BaseName(RepoFromRef(images[k])) != BaseName(imageName)
    ensures RepoFromRef(images[found.value]) == imageName <==> found == Some(j)
  {
    hide BaseName, RepoFromRef;
  }

  /** An earlier container of the same base name is found although a later one matches exactly. */
  lemma BaseNameWins(dir: string, app: string, tag: string, found: Option<nat>)
    requires '/' !in app && ':' !in app && '@' !in dir + ['/'] + app && '/' !in tag && '@' !in tag
    requires Finds([dir + ['/'] + app + [':'] + tag, app + [':'] + tag], app, found)
    ensures found == Some(0)
    ensures RepoFromRef(dir + ['/'] + app + [':'] + tag) != app == RepoFromRef(app + [':'] + tag)
  {
    hide RepoFromRef, BaseName, Bare;
    var images := [dir + ['/'] + app + [':'] + tag, app + [':'] + tag];
    assert forall c :: c in app ==> c in dir + ['/'] + app;
    BareOf(dir, app);
    BaseNameOf(dir, app);
    RepoOfTagged(dir + ['/'] + app, tag, "");
    RepoOfTagged(app, tag, "");
    assert BaseName(RepoFromRef(images[0])) == BaseName(app);
    assert |dir + ['/'] + app| != |app|;
  }

  /** Such containers there are: "r/a:1" before "a:1", when "a" is deployed. */
  lemma BaseNameWinsOverExact()
    ensures Finds(["r" + ['/'] + "a" + [':'] + "1", "a" + [':'] + "1"], "a", Some(0))
  {
    hide RepoFromRef, BaseName, Bare;
    var first := "r" + ['/'] + "a" + [':'] + "1";
    BareOf("r", "a");
    BaseNameOf("r", "a");
    RepoOfTagged("r" + ['/'] + "a", "1", "");
  }
}
