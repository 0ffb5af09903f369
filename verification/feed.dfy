/** The infinite-scroll photo feed of src/hooks/useFetchPhotos.ts.

    The hook keeps four pieces of state: the accumulated `photos`, the next
    `page` to request, whether `hasMore` pages may follow and whether a
    request is `loading`. One call of `fetchPhotos` is modelled as two atomic
    steps: `BeginFetch` (the request goes out) and `CompleteFetch` (the
    response or the error comes back). The HTTP request itself is an input:
    its outcome is either the list of raw records or a failure. */
module Feed {
  import opened Optional
  import opened Photos

  /** The `per_page` parameter of every request; a page of exactly this many
      records means more pages may follow. */
  const PerPage: nat := 10

  datatype RawUser = RawUser(username: string, profileImageSmall: string)

  /** One record of the API response, as far as the mapping reads it. A string
      field the API may leave out or set to null is an `Option`. */
  datatype RawPhoto = RawPhoto(
    id: string,
    urls: Urls,
    user: RawUser,
    description: Option<string>,
    altDescription: Option<string>,
    topicTitle: Option<string>,   // `topic_submissions.title`
    updatedAt: string,
    likes: int,
    slugEn: string                // `alternative_slugs.en`
  )

  /** What the awaited request produced: the response body, or any thrown error. */
  datatype Outcome = Success(records: seq<RawPhoto>) | Failure

  datatype FeedState = FeedState(photos: seq<Photo>, page: nat, hasMore: bool, loading: bool)

  /** A JavaScript string value that is neither absent nor empty. */
  predicate Truthy(v: Option<string>) {
    v.Some? && v.value != ""
  }

  /** JavaScript `v || fallback` for a possibly absent string `v`. */
  function OrElse(v: Option<string>, fallback: string): string {
    if Truthy(v) then v.value else fallback
  }

  /** `description || alt_description || ''` */
  function Caption(raw: RawPhoto): string {
    OrElse(raw.description, OrElse(raw.altDescription, ""))
  }

  /** The per-record mapping of the response body into a `Photo`. */
  function ToPhoto(raw: RawPhoto): (p: Photo)
    ensures p.id == raw.id && p.slug == raw.slugEn && p.urls == raw.urls
    ensures p.author.username == raw.user.username && p.author.avatar == raw.user.profileImageSmall
    ensures p.title == p.description
    ensures Truthy(raw.description) ==> p.title == raw.description.value
    ensures !Truthy(raw.description) && Truthy(raw.altDescription) ==> p.title == raw.altDescription.value
    ensures p.title == "" <==> !Truthy(raw.description) && !Truthy(raw.altDescription)
    ensures Truthy(raw.topicTitle) ==> p.topic == raw.topicTitle.value
    ensures p.topic == "" <==> !Truthy(raw.topicTitle)
  {
    Photo(
      id := raw.id,
      urls := raw.urls,
      title := Caption(raw),
      author := Author(raw.user.username, raw.user.profileImageSmall),
      description := Caption(raw),
      topic := OrElse(raw.topicTitle, ""),
      date := Date(raw.updatedAt),
      likes := raw.likes,
      slug := raw.slugEn
    )
  }

  /** `response.data.map(...)`: one photo per record, in response order. */
  function MapRecords(raws: seq<RawPhoto>): (photos: seq<Photo>)
    ensures |photos| == |raws|
    ensures forall i :: 0 <= i < |raws| ==> photos[i].id == raws[i].id && photos[i].slug == raws[i].slugEn
  {
    seq(|raws|, i requires 0 <= i < |raws| => ToPhoto(raws[i]))
  }

  /** The records of `batch` whose id is not already in `prev`, in batch order.
      The batch is filtered against `prev` only, never against itself. */
  function Unseen(prev: seq<Photo>, batch: seq<Photo>): (kept: seq<Photo>)
    ensures |kept| <= |batch|
    ensures forall p :: p in kept ==> p in batch && !HasId(prev, p.id)
  {
    if batch == [] then []
    else if HasId(prev, batch[0].id) then Unseen(prev, batch[1..])
    else [batch[0]] + Unseen(prev, batch[1..])
  }

  /** The functional update `[...prevPhotos, ...uniquePhotos]`. */
  function Merge(prev: seq<Photo>, batch: seq<Photo>): (merged: seq<Photo>)
    ensures |prev| <= |merged| <= |prev| + |batch|
    ensures merged[..|prev|] == prev
    ensures forall p :: p in merged ==> p in prev || p in batch
  {
    prev + Unseen(prev, batch)
  }

  /** `a` is `b` with some elements deleted and the rest kept in order. */
  predicate IsSubsequence(a: seq<Photo>, b: seq<Photo>)
    decreases |b|
  {
    if a == [] then true
    else if b == [] then false
    else (a[0] == b[0] && IsSubsequence(a[1..], b[1..])) || IsSubsequence(a, b[1..])
  }

  /** The initial state of the hook. */
  function Init(): (s: FeedState)
    ensures s.photos == [] && s.page == 1 && s.hasMore && !s.loading
  {
    FeedState([], 1, true, false)
  }

  /** The synchronous start of `fetchPhotos`: `loading` is set, with no guard on
      `loading` or `hasMore`; the request asks for `page`. */
  function BeginFetch(s: FeedState): (t: FeedState)
    ensures t.loading
    ensures t.photos == s.photos && t.page == s.page && t.hasMore == s.hasMore
  {
    s.(loading := true)
  }

  /** The end of `fetchPhotos`: on success the mapped batch is merged, `hasMore`
      records whether the page was full and `page` advances; on any failure only
      `loading` is reset. */
  function CompleteFetch(s: FeedState, outcome: Outcome): (t: FeedState)
    ensures !t.loading
    ensures outcome.Success? ==>
      && |s.photos| <= |t.photos|
      && t.photos[..|s.photos|] == s.photos
      && t.photos[|s.photos|..] == Unseen(s.photos, MapRecords(outcome.records))
      && |t.photos| <= |s.photos| + |outcome.records|
      && (t.hasMore <==> |outcome.records| == PerPage)
      && t.page == s.page + 1
    ensures outcome.Failure? ==>
      t.photos == s.photos && t.page == s.page && t.hasMore == s.hasMore
  {
    match outcome
    case Success(records) =>
      var batch := MapRecords(records);
      FeedState(Merge(s.photos, batch), s.page + 1, |batch| == PerPage, false)
    case Failure =>
      s.(loading := false)
  }

  /** One whole call of `fetchPhotos`, the request treated as atomic. */
  function Fetch(s: FeedState, outcome: Outcome): (t: FeedState)
    ensures !t.loading
    ensures outcome.Success? ==>
      && |s.photos| <= |t.photos|
      && t.photos[..|s.photos|] == s.photos
      && t.photos[|s.photos|..] == Unseen(s.photos, MapRecords(outcome.records))
      && (t.hasMore <==> |outcome.records| == PerPage)
      && t.page == s.page + 1
    ensures outcome.Failure? ==> t == s.(loading := false)
  {
    CompleteFetch(BeginFetch(s), outcome)
  }

  /** Successive calls, each with the outcome its request had. */
  function Run(s: FeedState, outcomes: seq<Outcome>): FeedState
    decreases |outcomes|
  {
    if outcomes == [] then s else Run(Fetch(s, outcomes[0]), outcomes[1..])
  }

  /** How many of the outcomes are successes. */
  function Successes(outcomes: seq<Outcome>): nat {
    if outcomes == [] then 0
    else (if outcomes[0].Success? then 1 else 0) + Successes(outcomes[1..])
  }

  // ---------------------------------------------------------------------
  // The merge
  // ---------------------------------------------------------------------

  /** Each photo occurs in the appended suffix exactly as often as in the batch
      when its id is new, and not at all when its id is already in `prev`. */
  lemma {:induction false} UnseenCounts(prev: seq<Photo>, batch: seq<Photo>, p: Photo)
    ensures multiset(Unseen(prev, batch))[p] == if HasId(prev, p.id) then 0 else multiset(batch)[p]
  {
    if batch != [] {
      UnseenCounts(prev, batch[1..], p);
      assert batch == [batch[0]] + batch[1..];
    }
  }

  /** The suffix keeps the batch's order. */
  lemma {:induction false} UnseenIsSubsequence(prev: seq<Photo>, batch: seq<Photo>)
    ensures IsSubsequence(Unseen(prev, batch), batch)
  {
    if batch != [] {
      UnseenIsSubsequence(prev, batch[1..]);
      var rest := Unseen(prev, batch[1..]);
      if !HasId(prev, batch[0].id) {
        assert ([batch[0]] + rest)[1..] == rest;
      } else if rest != [] {
        assert IsSubsequence(rest, batch[1..]);
      }
    }
  }

  /** A record whose id is new survives the filter. */
  lemma UnseenKeeps(prev: seq<Photo>, batch: seq<Photo>, p: Photo)
    requires p in batch && !HasId(prev, p.id)
    ensures p in Unseen(prev, batch)
  {
  }

  /** When no id of the batch is already known, the whole batch is appended,
      repeated ids included. */
  lemma {:induction false} UnseenAllNew(prev: seq<Photo>, batch: seq<Photo>)
    requires forall i :: 0 <= i < |batch| ==> !HasId(prev, batch[i].id)
    ensures Unseen(prev, batch) == batch
  {
    if batch != [] {
      UnseenAllNew(prev, batch[1..]);
    }
  }

  /** When every id of the batch is already known, nothing is appended. */
  lemma {:induction false} UnseenAllSeen(prev: seq<Photo>, batch: seq<Photo>)
    requires forall i :: 0 <= i < |batch| ==> HasId(prev, batch[i].id)
    ensures Unseen(prev, batch) == []
  {
    if batch != [] {
      UnseenAllSeen(prev, batch[1..]);
    }
  }

  /** The appended suffix is exactly the batch with the already-known ids
      removed: same order, same multiplicities. */
  lemma MergeAppendsUnseen(prev: seq<Photo>, batch: seq<Photo>, p: Photo)
    ensures Merge(prev, batch)[|prev|..] == Unseen(prev, batch)
    ensures IsSubsequence(Merge(prev, batch)[|prev|..], batch)
    ensures multiset(Merge(prev, batch)[|prev|..])[p] == if HasId(prev, p.id) then 0 else multiset(batch)[p]
  {
    assert Merge(prev, batch)[|prev|..] == Unseen(prev, batch);
    UnseenIsSubsequence(prev, batch);
    UnseenCounts(prev, batch, p);
  }

  /** After a merge every id of the batch is known. */
  lemma MergeKnowsBatch(prev: seq<Photo>, batch: seq<Photo>, i: nat)
    requires i < |batch|
    ensures HasId(Merge(prev, batch), batch[i].id)
  {
    var kept := Unseen(prev, batch);
    HasIdAppend(prev, kept, batch[i].id);
    if !HasId(prev, batch[i].id) {
      UnseenKeeps(prev, batch, batch[i]);
      var k :| 0 <= k < |kept| && kept[k] == batch[i];
      assert HasId(kept, batch[i].id);
    }
  }

  /** Merging the same batch twice is merging it once. */
  lemma MergeIdempotent(prev: seq<Photo>, batch: seq<Photo>)
    ensures Merge(Merge(prev, batch), batch) == Merge(prev, batch)
  {
    var merged := Merge(prev, batch);
    forall i | 0 <= i < |batch|
      ensures HasId(merged, batch[i].id)
    {
      MergeKnowsBatch(prev, batch, i);
    }
    UnseenAllSeen(merged, batch);
  }

  /** Filtering a batch with distinct ids leaves distinct ids. */
  lemma {:induction false} UnseenDistinct(prev: seq<Photo>, batch: seq<Photo>)
    requires DistinctIds(batch)
    ensures DistinctIds(Unseen(prev, batch))
  {
    if batch != [] {
      var rest := batch[1..];
      assert DistinctIds(rest) by {
        forall i, j | 0 <= i < j < |rest| ensures rest[i].id != rest[j].id {
          assert rest[i] == batch[i + 1] && rest[j] == batch[j + 1];
        }
      }
      UnseenDistinct(prev, rest);
      var kept := Unseen(prev, rest);
      if !HasId(prev, batch[0].id) {
        forall k | 0 <= k < |kept| ensures kept[k].id != batch[0].id {
          assert kept[k] in rest;
          var j :| 0 <= j < |rest| && rest[j] == kept[k];
          assert batch[j + 1] == rest[j];
        }
        var r := [batch[0]] + kept;
        forall i, j | 0 <= i < j < |r| ensures r[i].id != r[j].id {
          assert r[j] == kept[j - 1];
          if i > 0 {
            assert r[i] == kept[i - 1];
          }
        }
      }
    }
  }

  /** Distinct ids survive a merge only when the batch itself has distinct ids. */
  lemma MergeDistinct(prev: seq<Photo>, batch: seq<Photo>)
    requires DistinctIds(prev) && DistinctIds(batch)
    ensures DistinctIds(Merge(prev, batch))
  {
    var kept := Unseen(prev, batch);
    UnseenDistinct(prev, batch);
    var merged := prev + kept;
    forall i, j | 0 <= i < j < |merged| ensures merged[i].id != merged[j].id {
      if j >= |prev| {
        assert merged[j] == kept[j - |prev|];
        assert merged[j] in kept;
        if i < |prev| {
          assert merged[i] == prev[i];
          assert !HasId(prev, merged[j].id);
        } else {
          assert merged[i] == kept[i - |prev|];
        }
      }
    }
  }

  /** Repeated ids inside one batch are not removed. */
  lemma DuplicateInBatchSurvives(p: Photo)
    ensures Merge([], [p, p]) == [p, p]
    ensures !DistinctIds(Merge([], [p, p]))
  {
    UnseenAllNew([], [p, p]);
    assert Merge([], [p, p])[0].id == Merge([], [p, p])[1].id;
  }

  // ---------------------------------------------------------------------
  // The fetch transition
  // ---------------------------------------------------------------------

  /** `loading` is set while the request is outstanding and cleared when it
      completes, whatever the outcome; the request asks for the current page. */
  lemma FetchLifecycle(s: FeedState, outcome: Outcome)
    ensures BeginFetch(s).loading && BeginFetch(s).page == s.page
    ensures !Fetch(s, outcome).loading
  {
  }

  /** Two calls that overlap both request the page current when they start,
      since `page` only advances when a request completes. The first completion
      clears `loading` while the second request is still out, and the second
      completion advances `page` once more, so the page after it is never
      requested. When both responses are the same page, the second adds
      nothing to the feed. */
  lemma OverlappingFetchesSkipPage(s: FeedState, records: seq<RawPhoto>)
    ensures BeginFetch(s).page == s.page && BeginFetch(BeginFetch(s)).page == s.page
    ensures !CompleteFetch(BeginFetch(BeginFetch(s)), Success(records)).loading
    ensures CompleteFetch(CompleteFetch(BeginFetch(BeginFetch(s)), Success(records)), Success(records)).page == s.page + 2
    ensures CompleteFetch(CompleteFetch(BeginFetch(BeginFetch(s)), Success(records)), Success(records)).photos
      == CompleteFetch(BeginFetch(BeginFetch(s)), Success(records)).photos
  {
    MergeIdempotent(s.photos, MapRecords(records));
  }

  /** A failed fetch changes nothing but `loading`, so the next call asks for
      the same page again. */
  lemma FailureRetriesSamePage(s: FeedState)
    ensures Fetch(s, Failure) == s.(loading := false)
    ensures BeginFetch(Fetch(s, Failure)).page == s.page
  {
  }

  /** `hasMore` counts the records of the response, not the survivors of the
      merge: a full page of already-known photos keeps the feed open. */
  lemma FullStalePageKeepsFeedOpen(s: FeedState, records: seq<RawPhoto>)
    requires |records| == PerPage
    requires forall i :: 0 <= i < |records| ==> HasId(s.photos, records[i].id)
    ensures Fetch(s, Success(records)).photos == s.photos
    ensures Fetch(s, Success(records)).hasMore
    ensures Fetch(s, Success(records)).page == s.page + 1
  {
    var batch := MapRecords(records);
    UnseenAllSeen(s.photos, batch);
  }

  /** A short page of new photos ends the feed and grows it by exactly its length. */
  lemma ShortPageEndsFeed(s: FeedState, records: seq<RawPhoto>)
    requires |records| < PerPage
    requires forall i :: 0 <= i < |records| ==> !HasId(s.photos, records[i].id)
    ensures !Fetch(s, Success(records)).hasMore
    ensures |Fetch(s, Success(records)).photos| == |s.photos| + |records|
  {
    var batch := MapRecords(records);
    UnseenAllNew(s.photos, batch);
  }

  /** Two full pages in a row leave the feed open. */
  lemma TwoFullPagesKeepFeedOpen(s: FeedState, first: seq<RawPhoto>, second: seq<RawPhoto>)
    requires |first| == PerPage && |second| == PerPage
    ensures Fetch(s, Success(first)).hasMore
    ensures Fetch(Fetch(s, Success(first)), Success(second)).hasMore
    ensures Fetch(Fetch(s, Success(first)), Success(second)).page == s.page + 2
  {
  }

  /** A success fetched while the feed is already closed, or while another
      request is loading, is merged like any other: nothing guards the call. */
  lemma NoGuardOnFetch(s: FeedState, records: seq<RawPhoto>)
    requires !s.hasMore || s.loading
    ensures Fetch(s, Success(records)).page == s.page + 1
    ensures Fetch(s, Success(records)).photos == Merge(s.photos, MapRecords(records))
  {
  }

  // ---------------------------------------------------------------------
  // Many fetches
  // ---------------------------------------------------------------------

  /** Over any run the feed only grows at its end, and the page advances once
      per success and never on a failure. */
  lemma {:induction false} RunGrowsFeed(s: FeedState, outcomes: seq<Outcome>)
    ensures |s.photos| <= |Run(s, outcomes).photos|
    ensures Run(s, outcomes).photos[..|s.photos|] == s.photos
    ensures Run(s, outcomes).page == s.page + Successes(outcomes)
    ensures outcomes != [] ==> !Run(s, outcomes).loading
    decreases |outcomes|
  {
    if outcomes != [] {
      var next := Fetch(s, outcomes[0]);
      RunGrowsFeed(next, outcomes[1..]);
      var last := Run(next, outcomes[1..]);
      assert last.photos[..|s.photos|] == last.photos[..|next.photos|][..|s.photos|];
    }
  }

  /** Every success batch of the run, after mapping, has distinct ids. */
  predicate BatchesDistinct(outcomes: seq<Outcome>) {
    forall i :: 0 <= i < |outcomes| && outcomes[i].Success? ==> DistinctIds(MapRecords(outcomes[i].records))
  }

  /** Starting from distinct ids, a run whose batches each have distinct ids
      never shows the same id twice. */
  lemma {:induction false} RunKeepsIdsDistinct(s: FeedState, outcomes: seq<Outcome>)
    requires DistinctIds(s.photos)
    requires BatchesDistinct(outcomes)
    ensures DistinctIds(Run(s, outcomes).photos)
    decreases |outcomes|
  {
    if outcomes != [] {
      if outcomes[0].Success? {
        MergeDistinct(s.photos, MapRecords(outcomes[0].records));
      }
      assert BatchesDistinct(outcomes[1..]) by {
        forall i | 0 <= i < |outcomes[1..]| && outcomes[1..][i].Success?
          ensures DistinctIds(MapRecords(outcomes[1..][i].records))
        {
          assert outcomes[1..][i] == outcomes[i + 1];
        }
      }
      RunKeepsIdsDistinct(Fetch(s, outcomes[0]), outcomes[1..]);
    }
  }
}
