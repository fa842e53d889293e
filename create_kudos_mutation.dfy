/**
 * The optimistic update around `createKudos` on the client: before the
 * request the cached feed is saved and a provisional kudos is put in front
 * of it; if the request fails the saved feed is put back, when there was
 * one; and in every case the feed is marked stale so it is fetched again.
 *
 * The query cache is modelled as an object holding the cached value under
 * `kudosQueryKey` and two flags for what the cache library does with it:
 * whether a fetch of it is in flight and whether it has been invalidated.
 * `Date.now()` and `new Date()` are parameters.
 */
module CreateKudosMutation {
  import opened Wrappers
  import opened JsStrings
  import opened JsDate
  import opened KudosTypes
  import opened KudosSchema
  import opened KudosApi

  const OptimisticPrefix: string := "optimistic-"

  /** `addOptimisticKudos(payload)`, with `Date.now()` as `stamp` and
      `new Date()` as the instant `nowMs`: a provisional kudos from the demo
      sender carrying the payload's receiver and category and its trimmed
      message, under an id that starts with `optimistic-`. */
  function AddOptimisticKudos(payload: CreateKudosBody, stamp: nat, nowMs: int): (k: Kudos)
    requires InIsoRange(nowMs)
    ensures k.senderId == DemoSenderId && k.receiverId == payload.receiverId && k.category == payload.category
    ensures k.message == Trim(payload.message) && IsTrimmed(k.message)
    ensures |k.id| > |OptimisticPrefix| && k.id[..|OptimisticPrefix|] == OptimisticPrefix
    ensures ParseIso(k.createdAt) == Some(nowMs)
  {
    IsoStringRoundTrip(nowMs);
    Kudos(OptimisticPrefix + DecimalString(stamp), DemoSenderId, payload.receiverId, Trim(payload.message),
      payload.category, IsoString(nowMs))
  }

  /** A provisional id is never a UUID, so it never equals an id the server
      assigns, and the provisional kudos is not a valid `KudosDto`. */
  lemma OptimisticIdIsNotUuid(payload: CreateKudosBody, stamp: nat, nowMs: int)
    requires InIsoRange(nowMs)
    ensures !IsUuid(AddOptimisticKudos(payload, stamp, nowMs).id)
    ensures !IsKudosDto(AddOptimisticKudos(payload, stamp, nowMs))
  {
    var id := AddOptimisticKudos(payload, stamp, nowMs).id;
    assert id[8] == OptimisticPrefix[8] == 'i';
  }

  /** `slice(0, n)`: at most the first `n` elements. */
  function Take<T>(s: seq<T>, n: nat): (r: seq<T>)
    ensures |r| == if |s| < n then |s| else n
    ensures r == s[..|r|]
  {
    if |s| <= n then s else s[..n]
  }

  /** `current?.items ?? []`. */
  function CachedItems(current: Option<ListKudosResponse>): seq<Kudos> {
    if current.Some? then current.value.items else []
  }

  /** The `setQueryData` updater of `onMutate`: the provisional kudos in front
      of the cached items, cut to `FEED_LIMIT`, with a pagination of
      `FEED_LIMIT`, offset 0 and the new number of items. */
  function OptimisticFeed(current: Option<ListKudosResponse>, item: Kudos): (r: ListKudosResponse)
    ensures 1 <= |r.items| <= FeedLimit
    ensures |r.items| == if |CachedItems(current)| + 1 < FeedLimit then |CachedItems(current)| + 1 else FeedLimit
    ensures r.items[0] == item
    ensures forall i :: 1 <= i < |r.items| ==> r.items[i] == CachedItems(current)[i - 1]
    ensures r.pagination == Pagination(FeedLimit, 0, |r.items|)
  {
    var items := Take([item] + CachedItems(current), FeedLimit);
    ListKudosResponse(items, Pagination(FeedLimit, 0, |items|))
  }

  /** With nothing cached the feed becomes the provisional kudos alone. */
  lemma EmptyCacheGivesSingleItem(item: Kudos)
    ensures OptimisticFeed(None, item) == ListKudosResponse([item], Pagination(FeedLimit, 0, 1))
  {
    var r := OptimisticFeed(None, item);
    assert r.items == [item];
  }

  /** The cached items that stay keep their order: the new feed is the
      provisional kudos followed by a prefix of the old items. */
  lemma OptimisticFeedKeepsOrder(current: Option<ListKudosResponse>, item: Kudos)
    ensures var r := OptimisticFeed(current, item);
      r.items == [item] + CachedItems(current)[..|r.items| - 1]
  {
    var r := OptimisticFeed(current, item);
    var tail := CachedItems(current)[..|r.items| - 1];
    assert |[item] + tail| == |r.items|;
    forall i | 0 <= i < |r.items| ensures r.items[i] == ([item] + tail)[i] {
      if i > 0 { assert ([item] + tail)[i] == tail[i - 1]; }
    }
  }

  /** A cached feed within `FEED_LIMIT` whose count is its number of items. */
  predicate WithinFeedLimit(feed: Option<ListKudosResponse>) {
    feed.Some? ==> |feed.value.items| <= FeedLimit && feed.value.pagination.count == |feed.value.items|
  }

  /** The optimistic feed is within `FEED_LIMIT` and counts its items. */
  lemma OptimisticFeedFits(current: Option<ListKudosResponse>, item: Kudos)
    ensures WithinFeedLimit(Some(OptimisticFeed(current, item)))
  {
  }

  /** The value `onMutate` hands to `onError`: the feed as it was, or `null`. */
  datatype MutationContext = MutationContext(previous: Option<ListKudosResponse>)

  /** The query cache entry for `kudosQueryKey`. */
  class FeedCache {
    var feed: Option<ListKudosResponse>
    var fetchInFlight: bool
    var invalidated: bool

    /** The feed bound. A new cache starts within it, `OnMutate` establishes
        it whatever the feed was, and `OnSettled` does not touch the feed;
        `OnError` puts back a snapshot, so the bound after it is the bound
        the snapshot had, which `RunMutation` carries through. */
    ghost predicate Valid()
      reads this
    {
      WithinFeedLimit(feed)
    }

    constructor (feed: Option<ListKudosResponse>)
      requires WithinFeedLimit(feed)
      ensures Valid()
      ensures this.feed == feed && !fetchInFlight && !invalidated
    {
      this.feed := feed;
      fetchInFlight := false;
      invalidated := false;
    }

    /** `onMutate(payload)`: cancels the feed's fetch, keeps the feed as it
        was for the context, and puts the optimistic feed in its place. */
    method OnMutate(payload: CreateKudosBody, stamp: nat, nowMs: int) returns (context: MutationContext)
      requires InIsoRange(nowMs)
      modifies this
      ensures context.previous == old(feed)
      ensures feed == Some(OptimisticFeed(old(feed), AddOptimisticKudos(payload, stamp, nowMs)))
      ensures Valid()
      ensures !fetchInFlight && invalidated == old(invalidated)
    {
      var item := AddOptimisticKudos(payload, stamp, nowMs);
      var next := OptimisticFeed(feed, item);
      OptimisticFeedFits(feed, item);
      context := MutationContext(feed);
      feed, fetchInFlight := Some(next), false;
    }

    /** `onError`: puts the saved feed back when there is a context and it
        holds a feed; otherwise the cache is left as it is. */
    method OnError(context: Option<MutationContext>)
      modifies this
      ensures context.Some? && context.value.previous.Some? ==> feed == context.value.previous
      ensures !(context.Some? && context.value.previous.Some?) ==> feed == old(feed)
      ensures fetchInFlight == old(fetchInFlight) && invalidated == old(invalidated)
    {
      if context.Some? && context.value.previous.Some? {
        feed := context.value.previous;
      }
    }

    /** `onSettled`: invalidates the feed, which makes it stale and fetches it
        again; the cached value stays until that fetch answers. */
    method OnSettled()
      modifies this
      ensures invalidated && fetchInFlight && feed == old(feed)
    {
      invalidated := true;
      fetchInFlight := true;
    }

    /** One mutation from start to end, given how the request settled. On
        success the optimistic feed stays until the refetch; on failure the
        previous feed comes back if there was one, and otherwise the
        provisional kudos alone remains. The feed is refetched either way. */
    method RunMutation(payload: CreateKudosBody, stamp: nat, nowMs: int, outcome: ClientOutcome<Kudos>)
      requires Valid() && InIsoRange(nowMs)
      modifies this
      ensures Valid() && invalidated && fetchInFlight
      ensures outcome.Resolved? ==> feed == Some(OptimisticFeed(old(feed), AddOptimisticKudos(payload, stamp, nowMs)))
      ensures !outcome.Resolved? && old(feed).Some? ==> feed == old(feed)
      ensures !outcome.Resolved? && old(feed).None? ==>
        feed == Some(ListKudosResponse([AddOptimisticKudos(payload, stamp, nowMs)], Pagination(FeedLimit, 0, 1)))
    {
      ghost var before := feed;
      var context := OnMutate(payload, stamp, nowMs);
      if !outcome.Resolved? {
        OnError(Some(context));
      }
      OnSettled();
      EmptyCacheGivesSingleItem(AddOptimisticKudos(payload, stamp, nowMs));
      assert context.previous == before;
    }
  }
}
