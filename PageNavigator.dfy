/** GitHubPageNavigator: a cursor over the pages a GitHub query returns.
    Pages are loaded on demand, keyed by their id (1 for the first page),
    and cached so that revisiting a page costs no request. */
module PageNavigator {
  import opened Wrappers
  import opened Transport
  import opened LinkHeader
  import opened Models

  /** A "Link" field that is present but has no value: `get(0)` throws. */
  predicate LinkBroken(headers: Headers) {
    "Link" in headers && |headers["Link"]| == 0
  }

  /** The page's four URLs are what getPageUrl reads from these headers. */
  predicate DescribedBy<T>(page: Page<T>, headers: Headers) {
    && PageUrl(First, headers) == Ok(page.first)
    && PageUrl(Prev, headers) == Ok(page.prev)
    && PageUrl(Next, headers) == Ok(page.next)
    && PageUrl(Last, headers) == Ok(page.last)
  }

  /** Why loading from url fails, in the order the source meets the
      failures: opening the connection, the header, then the body. */
  function LoadError<T>(server: Server<T>, url: Option<string>): FetchError
  {
    if url.None? then MalformedUrl
    else if url.value !in server then ConnectionFailed
    else if LinkBroken(server[url.value].headers) then MissingLinkValue
    else if server[url.value].body.Unreadable? then UnreadableBody
    else UndecodableBody
  }

  /** loadPageFromApi(id, url): one request; the four page URLs come from
      the reply's headers and the entries from its decoded body. */
  function LoadPage<T>(server: Server<T>, id: int, url: Option<string>): (r: Result<Page<T>, FetchError>)
    ensures r.Ok? <==>
      url.Some? && url.value in server && !LinkBroken(server[url.value].headers) && server[url.value].body.Decoded?
    ensures r.Ok? ==>
      && r.value.id == id
      && DescribedBy(r.value, server[url.value].headers)
      && r.value.entries == server[url.value].body.entries
    ensures r.Err? ==> r.error == LoadError(server, url)
  {
    var reply :- Fetch(server, url);
    var h := reply.headers;
    // The four lookups fail together: only the first can throw.
    var first :- PageUrl(First, h);
    var entries :- Decode(reply.body);
    Ok(Page(id, first, PageUrl(Prev, h).value, PageUrl(Next, h).value, PageUrl(Last, h).value, entries))
  }

  /** What getPage(id, url) gives against the cache c: the stored page on a
      hit, otherwise what loading url gives. */
  function Target<T>(c: map<int, Page<T>>, id: int, url: Option<string>, server: Server<T>): (r: Result<Page<T>, FetchError>)
    ensures id in c ==> r == Ok(c[id])
    ensures id !in c ==> r == LoadPage(server, id, url)
  {
    if id in c then Ok(c[id]) else LoadPage(server, id, url)
  }

  /** The cache after getPage(id, ...) produced t: a loaded page is put
      under id; a hit or a failure leaves the cache as it was. */
  function Stored<T>(c: map<int, Page<T>>, id: int, t: Result<Page<T>, FetchError>): (r: map<int, Page<T>>)
    ensures forall k :: k in c ==> k in r && r[k] == c[k]
    ensures r.Keys == if id in c || t.Err? then c.Keys else c.Keys + {id}
    ensures id !in c && t.Ok? ==> r[id] == t.value
  {
    if id in c || t.Err? then c else c[id := t.value]
  }

  /** A second getPage of an id that the first one produced is a hit: it
      returns the same page and needs no request, whatever URL it is given
      and whatever the server now answers. */
  lemma Revisit<T>(c: map<int, Page<T>>, id: int, url: Option<string>, url': Option<string>, server: Server<T>, server': Server<T>)
    requires Target(c, id, url, server).Ok?
    ensures id in Stored(c, id, Target(c, id, url, server))
    ensures Target(Stored(c, id, Target(c, id, url, server)), id, url', server') == Target(c, id, url, server)
  {
  }

  class Navigator<T> {
    /** The URL of the query's first page. */
    const queryUrl: string
    /** The pages loaded so far, by id. */
    var cache: map<int, Page<T>>
    /** The page the cursor stands on; None before initialize. */
    var current: Option<Page<T>>
    /** Every request made, in order: the URL each cache miss loaded. */
    ghost var requests: seq<Option<string>>
    /** The headers each cached page was read from. */
    ghost var sources: map<int, Headers>

    /** Every cached page carries its own id and the URLs its headers give,
        and the current page is a cached one. */
    ghost predicate Valid()
      reads this
    {
      && (forall id :: id in cache ==> cache[id].id == id && id in sources && DescribedBy(cache[id], sources[id]))
      && (current.Some? ==> current.value.id in cache && cache[current.value.id] == current.value)
    }

    /** The effect of moving to page id by way of url, from the cache c,
        the current page cur and the request log log: on success the page
        becomes current and its entries are returned; on failure the error
        is returned and only the log may have grown. */
    ghost predicate Moved(c: map<int, Page<T>>, cur: Option<Page<T>>, log: seq<Option<string>>,
                          id: int, url: Option<string>, server: Server<T>, r: Result<seq<T>, FetchError>)
      reads this
    {
      var t := Target(c, id, url, server);
      && r == (if t.Ok? then Ok(t.value.entries) else Err(t.error))
      && current == (if t.Ok? then Some(t.value) else cur)
      && cache == Stored(c, id, t)
      && requests == (if id in c then log else log + [url])
    }

    constructor (queryUrl: string)
      ensures this.queryUrl == queryUrl
      ensures cache == map[] && current == None && requests == []
      ensures Valid()
    {
      this.queryUrl := queryUrl;
      cache := map[];
      current := None;
      requests := [];
      sources := map[];
    }

    /** getPage(id, url): a hit returns the cached page; a miss makes one
        request and caches the page it loads. */
    method GetPage(id: int, url: Option<string>, server: Server<T>) returns (r: Result<Page<T>, FetchError>)
      requires Valid()
      modifies this`cache, this`requests, this`sources
      ensures Valid()
      ensures r == Target(old(cache), id, url, server)
      ensures cache == Stored(old(cache), id, r)
      ensures requests == if id in old(cache) then old(requests) else old(requests) + [url]
    {
      if id !in cache {
        requests := requests + [url];
        var loaded := LoadPage(server, id, url);
        if loaded.Err? {
          return loaded;
        }
        cache := cache[id := loaded.value];
        sources := sources[id := server[url.value].headers];
      }
      r := Ok(cache[id]);
    }

    /** initialize(): loads page 1 from the query URL. */
    method Initialize(server: Server<T>) returns (r: Result<seq<T>, FetchError>)
      requires Valid()
      modifies this
      ensures Valid()
      ensures Moved(old(cache), old(current), old(requests), 1, Some(queryUrl), server, r)
    {
      var page := GetPage(1, Some(queryUrl), server);
      if page.Err? {
        return Err(page.error);
      }
      current := Some(page.value);
      r := Ok(page.value.entries);
    }

    /** getNextPage(): moves to id + 1 by way of the current page's next URL. */
    method GetNextPage(server: Server<T>) returns (r: Result<seq<T>, FetchError>)
      requires Valid() && current.Some?
      modifies this
      ensures Valid()
      ensures Moved(old(cache), old(current), old(requests), old(current).value.id + 1, old(current).value.next, server, r)
    {
      var page := GetPage(current.value.id + 1, current.value.next, server);
      if page.Err? {
        return Err(page.error);
      }
      current := Some(page.value);
      r := Ok(page.value.entries);
    }

    /** getPreviousPage(): moves to id - 1 by way of the current page's prev URL. */
    method GetPreviousPage(server: Server<T>) returns (r: Result<seq<T>, FetchError>)
      requires Valid() && current.Some?
      modifies this
      ensures Valid()
      ensures Moved(old(cache), old(current), old(requests), old(current).value.id - 1, old(current).value.prev, server, r)
    {
      var page := GetPage(current.value.id - 1, current.value.prev, server);
      if page.Err? {
        return Err(page.error);
      }
      current := Some(page.value);
      r := Ok(page.value.entries);
    }

    /** hasNextPage(): the current page has a next URL, which is to say its
        headers announce a "next" link. */
    function HasNextPage(): (b: bool)
      reads this
      requires Valid() && current.Some?
      ensures b <==> current.value.next.Some?
      ensures b <==> Announces(sources[current.value.id], Next)
    {
      current.value.next.Some?
    }

    /** hasPreviousPage(): the current page has a prev URL, which is to say
        its headers announce a "prev" link. */
    function HasPreviousPage(): (b: bool)
      reads this
      requires Valid() && current.Some?
      ensures b <==> current.value.prev.Some?
      ensures b <==> Announces(sources[current.value.id], Prev)
    {
      current.value.prev.Some?
    }

    /** getPageSize(): 0 before initialize, else the current page's entry count. */
    function PageSize(): (n: nat)
      reads this
      ensures current.None? ==> n == 0
      ensures current.Some? ==> n == |current.value.entries|
    {
      if current.None? then 0 else |current.value.entries|
    }
  }
}
