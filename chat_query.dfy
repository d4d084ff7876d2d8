/** `useChatQuery` of `components/use-chat-query.ts`: how the client builds
    each page request, which page comes next, and when it polls. The
    infinite-query library itself (caching, scheduling) is its caller. */
module ChatQuery {
  import opened Common
  import opened Store
  import opened MessagesRoute

  /** Polling period while the live channel is down, in milliseconds. */
  const REFETCH_MS: nat := 1000

  /** `initialPageParam: undefined`: the first page carries no cursor. */
  const INITIAL_PAGE_PARAM: Option<Id> := None

  type ParamKey = k: string | k == "channelId" || k == "conversationId" witness "channelId"

  /** `refetchInterval: isConnected ? false : 1000`; None is `false`. */
  function RefetchInterval(isConnected: bool): (r: Option<nat>)
    ensures r.Some? <==> !isConnected
    ensures r.Some? ==> r.value == REFETCH_MS
  {
    if isConnected then None else Some(REFETCH_MS)
  }

  /** The query of `fetchMessages`: `qs.stringifyUrl` with `skipNull` drops an
      undefined cursor and sorts the keys, so the container parameter comes
      before `cursor`. */
  function FetchQuery(paramKey: ParamKey, paramValue: string, pageParam: Option<Id>): (q: Query)
    ensures Param(q, paramKey) == Some(paramValue)
    ensures Param(q, "cursor") == pageParam
    ensures pageParam.None? ==> q == [(paramKey, paramValue)]
    ensures pageParam.Some? ==> q == [(paramKey, paramValue), ("cursor", pageParam.value)]
  {
    [(paramKey, paramValue)] + match pageParam { case None => [] case Some(c) => [("cursor", c)] }
  }

  /** `getNextPageParam: (lastPage) => lastPage?.nextCursor`; a page without
      a `nextCursor` gives none. */
  function NextPageParam(lastPage: Response): (r: Option<Id>)
    ensures r.Some? ==> lastPage.Page? && lastPage.nextCursor == r
    ensures lastPage.Page? ==> r == lastPage.nextCursor
  {
    if lastPage.Page? then lastPage.nextCursor else None
  }

  /** The library's `hasNextPage`: a next page parameter exists for the last page. */
  predicate HasNextPage(pages: seq<Response>)
  {
    |pages| > 0 && NextPageParam(pages[|pages| - 1]).Some?
  }

  /** `queryKey: [queryKey]`: the cache key is the one-element list. */
  function CacheKey(queryKey: string): (k: seq<string>)
    ensures |k| == 1 && k[0] == queryKey
  {
    [queryKey]
  }
}
