/** Retention of pulled images: what a prune after a deploy removes and what it never does. */
module Prune {
  import opened Options
  import opened ImageRef

  /** An image ID; only its identity matters. */
  type ImageID(==, 0, !new)

  datatype Image = Image(id: ImageID, tags: seq<string>, created: int)

  predicate HasTag(img: Image, tag: string) { tag in img.tags }

  ghost predicate NewestFirst(images: seq<Image>) {
    forall i, j :: 0 <= i < j < |images| ==> images[i].created >= images[j].created
  }

  lemma NoOrder()
    ensures NewestFirst([])
  {
  }

  /** The images no container, running or stopped, is based on. */
  function Candidates(images: seq<Image>, inUse: set<ImageID>): seq<Image> {
    if images == [] then []
    else
      Candidates(images[..|images|-1], inUse)
      + if images[|images|-1].id in inUse then [] else [images[|images|-1]]
  }

  /** Of these, those that carry the tag (`tagged`) or do not. */
  function WithTag(images: seq<Image>, tag: string, tagged: bool): seq<Image> {
    if images == [] then []
    else
      WithTag(images[..|images|-1], tag, tagged)
      + if HasTag(images[|images|-1], tag) == tagged then [images[|images|-1]] else []
  }

  function Top(sorted: seq<Image>, keep: nat): seq<Image> { if keep < |sorted| then sorted[..keep] else sorted }

  function Beyond(sorted: seq<Image>, keep: nat): seq<Image> { if keep < |sorted| then sorted[keep..] else [] }

  lemma {:induction false} CandidatesUnused(images: seq<Image>, inUse: set<ImageID>)
    ensures forall img :: img in Candidates(images, inUse) <==> img in images && img.id !in inUse
  {
    if images != [] {
      CandidatesUnused(images[..|images|-1], inUse);
      assert images == images[..|images|-1] + [images[|images|-1]];
    }
  }

  /** Every image is as often a candidate as it is listed, or not at all. */
  lemma {:induction false} CandidatesCounted(images: seq<Image>, inUse: set<ImageID>)
    ensures forall x :: multiset(Candidates(images, inUse))[x] == if x.id in inUse then 0 else multiset(images)[x]
  {
    if images != [] {
      var init, last := images[..|images|-1], images[|images|-1];
      CandidatesCounted(init, inUse);
      assert images == init + [last];
      var more := if last.id in inUse then [] else [last];
      assert Candidates(images, inUse) == Candidates(init, inUse) + more;
      hide Candidates;
      assert multiset(images) == multiset(init) + multiset([last]);
    }
  }

  /** What is left of a ranking is one. */
  lemma {:induction false} RankingKept(images: seq<Image>, tag: string, tagged: bool)
    requires NewestFirst(images)
    ensures NewestFirst(WithTag(images, tag, tagged))
  {
    if images != [] {
      var init, last := images[..|images|-1], images[|images|-1];
      RankingKept(init, tag, tagged);
      TagMembers(init, tag, tagged);
      var kept := WithTag(init, tag, tagged);
      assert WithTag(images, tag, tagged) == kept + if HasTag(last, tag) == tagged then [last] else [];
      hide WithTag, HasTag;
      forall k | 0 <= k < |kept| ensures kept[k].created >= last.created {
        assert kept[k] in kept && kept[k] in init;
        var j :| 0 <= j < |init| && init[j] == kept[k];
        assert images[j] == init[j];
      }
    }
  }

  lemma BeyondRanked(sorted: seq<Image>, keep: nat)
    requires NewestFirst(sorted)
    ensures NewestFirst(Beyond(sorted, keep))
  {
  }

  lemma WithTagSnoc(images: seq<Image>, img: Image, tag: string, tagged: bool)
    ensures WithTag(images + [img], tag, tagged)
         == WithTag(images, tag, tagged) + if HasTag(img, tag) == tagged then [img] else []
  {
    assert (images + [img])[..|images|] == images;
  }

  lemma {:induction false} TagSplit(images: seq<Image>, tag: string)
    ensures multiset(images) == multiset(WithTag(images, tag, true)) + multiset(WithTag(images, tag, false))
  {
    if images != [] {
      hide HasTag, WithTag;
      var init, last := images[..|images|-1], images[|images|-1];
      assert images == init + [last];
      TagSplit(init, tag);
      WithTagSnoc(init, last, tag, true);
      WithTagSnoc(init, last, tag, false);
    }
  }

  lemma {:induction false} TagMembers(images: seq<Image>, tag: string, tagged: bool)
    ensures forall img :: img in WithTag(images, tag, tagged) ==> img in images && HasTag(img, tag) == tagged
  {
    if images != [] {
      hide HasTag, WithTag;
      var init, last := images[..|images|-1], images[|images|-1];
      assert images == init + [last];
      TagMembers(init, tag, tagged);
      WithTagSnoc(init, last, tag, tagged);
    }
  }

  /**
   Whatever order the sort gives images of the same age: the candidates are the `keep` top-ranked
   ones (or all), the removed ones, and others, which all carry the deployed tag. No removed image is in use,
   carries the tag, or is newer than a top-ranked one.
   */
  lemma Retention(images: seq<Image>, inUse: set<ImageID>, sorted: seq<Image>, keep: nat, tag: string)
    requires multiset(sorted) == multiset(Candidates(images, inUse)) && NewestFirst(sorted)
    ensures var cands, top := Candidates(images, inUse), Top(sorted, keep);
            var removed, spared := WithTag(Beyond(sorted, keep), tag, false), WithTag(Beyond(sorted, keep), tag, true);
            && multiset(cands) == multiset(top) + multiset(removed) + multiset(spared)
            && |top| == (if keep < |cands| then keep else |cands|)
            && |cands| == |top| + |removed| + |spared|
            && (forall r :: r in removed ==> r in images && r.id !in inUse && !HasTag(r, tag))
            && (forall r, t :: r in removed && t in top ==> t.created >= r.created)
            && (forall x, t :: x in spared && t in top ==> t.created >= x.created)
            && (forall x :: x in spared ==> HasTag(x, tag))
            && NewestFirst(removed)
  {
    hide NewestFirst, Top, Beyond, HasTag, WithTag, Candidates;
    SplitRanking(sorted, keep);
    TagSplit(Beyond(sorted, keep), tag);
    TagMembers(Beyond(sorted, keep), tag, true);
    BeyondRanked(sorted, keep);
    RankingKept(Beyond(sorted, keep), tag, false);
    RemovedAreStale(images, inUse, sorted, keep, tag);
    SameSize(sorted, Candidates(images, inUse));
    SameSize(sorted, Top(sorted, keep) + WithTag(Beyond(sorted, keep), tag, true) + WithTag(Beyond(sorted, keep), tag, false));
  }

  lemma RemovedAreStale(images: seq<Image>, inUse: set<ImageID>, sorted: seq<Image>, keep: nat, tag: string)
    requires multiset(sorted) == multiset(Candidates(images, inUse)) && NewestFirst(sorted)
    ensures forall r :: r in WithTag(Beyond(sorted, keep), tag, false) ==>
                          r in Beyond(sorted, keep) && r in images && r.id !in inUse && !HasTag(r, tag)
  {
    hide NewestFirst, Beyond, HasTag, WithTag, Candidates;
    TagMembers(Beyond(sorted, keep), tag, false);
    CandidatesUnused(images, inUse);
    forall r | r in WithTag(Beyond(sorted, keep), tag, false) ensures r in images && r.id !in inUse {
      BeyondIn(sorted, keep, r);
      assert r in multiset(sorted);
      assert r in multiset(Candidates(images, inUse));
    }
  }

  lemma BeyondIn(sorted: seq<Image>, keep: nat, r: Image)
    requires r in Beyond(sorted, keep)
    ensures r in sorted
  {
  }

  lemma SplitRanking(sorted: seq<Image>, keep: nat)
    requires NewestFirst(sorted)
    ensures multiset(sorted) == multiset(Top(sorted, keep)) + multiset(Beyond(sorted, keep))
    ensures |Top(sorted, keep)| == if keep < |sorted| then keep else |sorted|
    ensures forall r, t :: r in Beyond(sorted, keep) && t in Top(sorted, keep) ==> t.created >= r.created
  {
    assert sorted == Top(sorted, keep) + Beyond(sorted, keep);
  }

  lemma SameSize(a: seq<Image>, b: seq<Image>)
    requires multiset(a) == multiset(b)
    ensures |a| == |b|
  {
    assert |multiset(a)| == |a| && |multiset(b)| == |b|;
  }

  // ---------- The prune as it is written ----------

  /** The image IDs of all containers. */
  method InUseImageIDs(containers: seq<ImageID>) returns (ids: set<ImageID>)
    ensures forall id :: id in ids <==> id in containers
  {
    ids := {};
    for i := 0 to |containers|
      invariant forall id :: id in ids <==> id in containers[..i]
    {
      ids := ids + {containers[i]};
    }
    assert containers[..|containers|] == containers;
  }

  /** `r` is `sorted` with `x` put in at `k`. */
  ghost predicate Inserted(sorted: seq<Image>, k: nat, x: Image, r: seq<Image>)
    requires k <= |sorted|
  {
    && |r| == |sorted| + 1 && r[k] == x
    && (forall j :: 0 <= j < k ==> r[j] == sorted[j])
    && (forall j :: k < j < |r| ==> r[j] == sorted[j-1])
  }

  lemma InsertedAt(sorted: seq<Image>, k: nat, x: Image)
    requires k <= |sorted|
    ensures var r := sorted[..k] + [x] + sorted[k..];
            && Inserted(sorted, k, x, r)
            && multiset(r) == multiset(sorted) + multiset{x}
  {
    assert sorted == sorted[..k] + sorted[k..];
  }

  lemma InsertKeepsOrder(sorted: seq<Image>, k: nat, x: Image, r: seq<Image>)
    requires NewestFirst(sorted) && k <= |sorted|
    requires forall j :: 0 <= j < k ==> sorted[j].created > x.created
    requires k < |sorted| ==> sorted[k].created <= x.created
    requires Inserted(sorted, k, x, r)
    ensures NewestFirst(r)
  {
    forall i, j | 0 <= i < j < |r| ensures r[i].created >= r[j].created {
      var p := if i > k then i - 1 else i;
      var q := if j > k then j - 1 else j;
      assert i != k ==> r[i] == sorted[p];
      assert j != k ==> r[j] == sorted[q];
      assert p < q < |sorted| ==> sorted[p].created >= sorted[q].created;
    }
  }

  /** Where `x` goes: after every newer image. */
  method Insert(sorted: seq<Image>, x: Image) returns (r: seq<Image>)
    requires NewestFirst(sorted)
    ensures NewestFirst(r) && multiset(r) == multiset(sorted) + multiset{x}
  {
    var k := 0;
    while k < |sorted| && sorted[k].created > x.created
      invariant 0 <= k <= |sorted|
      invariant forall j :: 0 <= j < k ==> sorted[j].created > x.created
    {
      k := k + 1;
    }
    r := sorted[..k] + [x] + sorted[k..];
    InsertedAt(sorted, k, x);
    InsertKeepsOrder(sorted, k, x, r);
  }

  /** sort.Slice by creation time, newest first; the order of images of the same age is not specified. */
  method SortNewestFirst(images: seq<Image>) returns (sorted: seq<Image>)
    ensures multiset(sorted) == multiset(images) && NewestFirst(sorted)
  {
    hide NewestFirst;
    sorted := [];
    NoOrder();
    for i := 0 to |images|
      invariant multiset(sorted) == multiset(images[..i]) && NewestFirst(sorted)
    {
      sorted := Insert(sorted, images[i]);
      assert images[..i+1] == images[..i] + [images[i]];
    }
    assert images[..|images|] == images;
  }

  /**
   The images it tries to remove, in order. `top` and `spared` are the other candidates: those
   kept by rank, and those kept for the deployed tag.
   */
  method PruneImages(imageTag: string, keep: int, listing: Option<seq<Image>>, containers: Option<seq<ImageID>>)
    returns (ok: bool, removed: seq<Image>, ghost top: seq<Image>, ghost spared: seq<Image>)
    ensures ok <==> keep <= 0 || RepoFromRef(imageTag) == "" || (listing.Some? && containers.Some?)
    ensures keep <= 0 || RepoFromRef(imageTag) == "" || listing.None? || containers.None? ==> removed == []
    ensures keep > 0 && RepoFromRef(imageTag) != "" && listing.Some? && containers.Some? ==>
              && (forall r :: r in removed ==> r in listing.value && r.id !in containers.value && imageTag !in r.tags)
              && (forall x :: (multiset(top) + multiset(removed) + multiset(spared))[x]
                              == if x.id in containers.value then 0 else multiset(listing.value)[x])
              && |top| == (if keep < |top + removed + spared| then keep else |top + removed + spared|)
              && (forall r, t :: r in removed && t in top ==> t.created >= r.created)
              && (forall x, t :: x in spared && t in top ==> t.created >= x.created)
              && (forall x :: x in spared ==> imageTag in x.tags)
              && NewestFirst(removed)
  {
    removed, top, spared := [], [], [];
    if keep <= 0 {
      return true, [], [], [];
    }
    var repo := RepoFromRef(imageTag);
    if repo == "" {
      return true, [], [], [];
    }
    if listing.None? || containers.None? {
      return false, [], [], [];
    }
    var inUse := InUseImageIDs(containers.value);
    var candidates := FilterUnused(listing.value, inUse);
    var sorted := SortNewestFirst(candidates);
    removed := RemoveStale(sorted, keep, imageTag);
    ok := true;

    top, spared := Top(sorted, keep), WithTag(Beyond(sorted, keep), imageTag, true);
    Retention(listing.value, inUse, sorted, keep, imageTag);
    CandidatesCounted(listing.value, inUse);
    assert inUse == set id | id in containers.value;
    assert multiset(top + removed + spared) == multiset(candidates);
    SameSize(top + removed + spared, candidates);
  }

  method FilterUnused(images: seq<Image>, inUse: set<ImageID>) returns (candidates: seq<Image>)
    ensures candidates == Candidates(images, inUse)
  {
    candidates := [];
    for i := 0 to |images|
      invariant candidates == Candidates(images[..i], inUse)
    {
      assert images[..i+1][..i] == images[..i];
      if images[i].id !in inUse {
        candidates := candidates + [images[i]];
      }
    }
    assert images[..|images|] == images;
  }

  /** Walks the ranking and tries to remove what is neither in its first `keep` places nor tagged. */
  method RemoveStale(sorted: seq<Image>, keep: nat, imageTag: string) returns (removed: seq<Image>)
    ensures removed == WithTag(Beyond(sorted, keep), imageTag, false)
  {
    hide WithTag, HasTag;
    removed := [];
    NothingBeyond(keep, imageTag);
    for i := 0 to |sorted|
      invariant removed == WithTag(Beyond(sorted[..i], keep), imageTag, false)
    {
      BeyondSnoc(sorted, keep, i);
      WithTagSnoc(Beyond(sorted[..i], keep), sorted[i], imageTag, false);
      if i < keep || HasTag(sorted[i], imageTag) {
        continue;
      }
      removed := removed + [sorted[i]];
    }
    assert sorted[..|sorted|] == sorted;
  }

  lemma BeyondSnoc(sorted: seq<Image>, keep: nat, i: nat)
    requires i < |sorted|
    ensures Beyond(sorted[..i+1], keep) == Beyond(sorted[..i], keep) + if keep <= i then [sorted[i]] else []
  {
    if keep <= i {
      assert sorted[..i+1][keep..] == sorted[..i][keep..] + [sorted[i]];
    }
  }

  lemma NothingBeyond(keep: nat, tag: string)
    ensures WithTag(Beyond([], keep), tag, false) == []
  {
  }
}
