/** CommentCache: the comments of each issue, fetched once by walking every
    page of the issue's comment query and kept by issue id. */
module CommentCache {
  import opened Wrappers
  import opened Transport
  import opened Models
  import opened PageNavigator
  import opened ApiHandler

  /** How a page is loaded: by its id and URL. */
  type Loader<!C> = (int, string) -> Result<Page<C>, FetchError>

  /** Loading from a server, as the navigator does on a cache miss. */
  function Load<C>(server: Server<C>): Loader<C> {
    (id: int, url: string) => LoadPage(server, id, Some(url))
  }

  /** load gives what the navigator's loading from server gives. The link is
      drawn only where such a load is in view. */
  ghost predicate Serves<C>(load: Loader<C>, server: Server<C>) {
    forall id: int, url: Option<string> {:trigger LoadPage(server, id, url)} ::
      url.Some? ==> load(id, url.value) == LoadPage(server, id, url)
  }

  lemma LoadServes<C>(server: Server<C>)
    ensures Serves(Load(server), server)
  {
  }

  /** The page with id k + 1, as loaded from the k-th URL of urls. */
  function At<C>(load: Loader<C>, urls: seq<string>, k: nat): Result<Page<C>, FetchError>
    requires k < |urls|
  {
    load(k + 1, urls[k])
  }

  /** urls is the chain of next links the server offers: every page but the
      last loads and links to the following URL, and the last either fails
      to load or has no next link. The loop over the pages ends exactly when
      such a chain exists. */
  ghost predicate Chain<C>(load: Loader<C>, urls: seq<string>) {
    && |urls| > 0
    && (forall k :: 0 <= k < |urls| - 1 ==> At(load, urls, k).Ok? && At(load, urls, k).value.next == Some(urls[k + 1]))
    && (At(load, urls, |urls| - 1).Ok? ==> At(load, urls, |urls| - 1).value.next.None?)
  }

  /** xs ahead of the entries of a finished traversal. */
  function Prefixed<C>(xs: seq<C>, t: Option<Result<seq<C>, FetchError>>): Option<Result<seq<C>, FetchError>> {
    match t
    case Some(Ok(ys)) => Some(Ok(xs + ys))
    case _ => t
  }

  /** The comments found by following next links from url, where the page
      loaded from url gets this id, in at most fuel requests: the entries of
      every page in order, or the error of the first page that fails. None
      when fuel runs out first. */
  function Traverse<C>(load: Loader<C>, url: string, id: int, fuel: nat): Option<Result<seq<C>, FetchError>>
    decreases fuel
  {
    if fuel == 0 then None
    else match load(id, url)
      case Err(e) => Some(Err(e))
      case Ok(p) =>
        if p.next.None? then Some(Ok(p.entries))
        else Prefixed(p.entries, Traverse(load, p.next.value, id + 1, fuel - 1))
  }

  /** What remains to be traversed after the k-th page of the chain, p. */
  function Remaining<C>(load: Loader<C>, urls: seq<string>, k: nat, p: Page<C>): Option<Result<seq<C>, FetchError>>
    requires k < |urls|
  {
    if p.next.None? then Some(Ok([])) else Traverse(load, p.next.value, k + 2, |urls| - k - 1)
  }

  lemma PrefixedAppend<C>(xs: seq<C>, ys: seq<C>, t: Option<Result<seq<C>, FetchError>>)
    ensures Prefixed(xs, Prefixed(ys, t)) == Prefixed(xs + ys, t)
  {
    if t.Some? && t.value.Ok? {
      assert xs + (ys + t.value.value) == (xs + ys) + t.value.value;
    }
  }

  /** Along a chain, the traversal from its k-th URL finishes within the
      chain's remaining length, takes the same value with any more fuel, and
      fails exactly when the chain's last page fails, with that page's
      error. */
  lemma {:induction false} ChainTraverse<C>(load: Loader<C>, urls: seq<string>, k: nat, fuel: nat)
    requires Chain(load, urls) && k < |urls| && fuel >= |urls| - k
    ensures Traverse(load, urls[k], k + 1, fuel) == Traverse(load, urls[k], k + 1, |urls| - k)
    ensures Traverse(load, urls[k], k + 1, fuel).Some?
    ensures Traverse(load, urls[k], k + 1, fuel).value.Err? <==> At(load, urls, |urls| - 1).Err?
    ensures At(load, urls, |urls| - 1).Err? ==>
      Traverse(load, urls[k], k + 1, fuel).value.error == At(load, urls, |urls| - 1).error
    decreases |urls| - k
  {
    if k < |urls| - 1 {
      assert At(load, urls, k).Ok? && At(load, urls, k).value.next == Some(urls[k + 1]);
      ChainTraverse(load, urls, k + 1, fuel - 1);
      ChainTraverse(load, urls, k + 1, |urls| - k - 1);
    }
  }

  /** Two chains from the same first URL agree at every position both have. */
  lemma {:induction false} ChainAgree<C>(load: Loader<C>, urls: seq<string>, urls': seq<string>, j: nat)
    requires Chain(load, urls) && Chain(load, urls') && urls[0] == urls'[0]
    requires j < |urls| && j < |urls'|
    ensures urls[j] == urls'[j]
    decreases j
  {
    if j > 0 {
      ChainAgree(load, urls, urls', j - 1);
      assert At(load, urls, j - 1) == At(load, urls', j - 1);
      assert At(load, urls, j - 1).value.next == Some(urls[j]);
      assert At(load, urls', j - 1).value.next == Some(urls'[j]);
    }
  }

  /** A chain is determined by the server and its first URL. */
  lemma ChainUnique<C>(load: Loader<C>, urls: seq<string>, urls': seq<string>)
    requires Chain(load, urls) && Chain(load, urls') && urls[0] == urls'[0]
    ensures urls == urls'
  {
    var n := if |urls| < |urls'| then |urls| else |urls'|;
    ChainAgree(load, urls, urls', n - 1);
    assert At(load, urls, n - 1) == At(load, urls', n - 1);
    assert |urls| == |urls'|;
    forall j | 0 <= j < |urls| ensures urls[j] == urls'[j] {
      ChainAgree(load, urls, urls', j);
    }
  }

  /** A page of the chain that loads and has a next link is not its last,
      and links to the following URL. */
  lemma ChainNext<C>(load: Loader<C>, urls: seq<string>, k: nat)
    requires Chain(load, urls) && k < |urls|
    requires At(load, urls, k).Ok? && At(load, urls, k).value.next.Some?
    ensures k < |urls| - 1 && At(load, urls, k).value.next == Some(urls[k + 1])
  {
  }

  /** A page of the chain that fails to load or has no next link is its last. */
  lemma ChainEnd<C>(load: Loader<C>, urls: seq<string>, k: nat)
    requires Chain(load, urls) && k < |urls|
    requires At(load, urls, k).Err? || At(load, urls, k).value.next.None?
    ensures k == |urls| - 1
  {
  }

  /** One step of the traversal along urls: what the k-th page gives, ahead
      of what remains after it. */
  lemma Unfold<C>(load: Loader<C>, urls: seq<string>, k: nat)
    requires k < |urls|
    ensures At(load, urls, k).Err? ==>
      Traverse(load, urls[k], k + 1, |urls| - k) == Some(Err(At(load, urls, k).error))
    ensures At(load, urls, k).Ok? ==>
      Traverse(load, urls[k], k + 1, |urls| - k) == Prefixed(At(load, urls, k).value.entries, Remaining(load, urls, k, At(load, urls, k).value))
  {
    var t := At(load, urls, k);
    if t.Ok? && t.value.next.None? {
      assert t.value.entries + [] == t.value.entries;
    }
  }

  /** The requests that walking the first n pages of the chain makes: each
      of their URLs once, in order. */
  function Requested(urls: seq<string>, n: nat): (r: seq<Option<string>>)
    requires n <= |urls|
    ensures |r| == n && forall k :: 0 <= k < n ==> r[k] == Some(urls[k])
  {
    if n == 0 then [] else Requested(urls, n - 1) + [Some(urls[n - 1])]
  }

  /** The comments of the chain's pages from the k-th on, by position: the
      entries of each in order, or the error of the first that fails. */
  function Walk<C>(load: Loader<C>, urls: seq<string>, k: nat): Option<Result<seq<C>, FetchError>>
    requires k < |urls|
    decreases |urls| - k
  {
    match At(load, urls, k)
    case Err(e) => Some(Err(e))
    case Ok(p) => Prefixed(p.entries, After(load, urls, k))
  }

  /** What the chain holds after its k-th page. */
  function After<C>(load: Loader<C>, urls: seq<string>, k: nat): Option<Result<seq<C>, FetchError>>
    requires k < |urls|
    decreases |urls| - k, 0
  {
    if k == |urls| - 1 then Some(Ok([])) else Walk(load, urls, k + 1)
  }

  /** The number of entries on the chain's pages from the k-th on. */
  function Sizes<C>(load: Loader<C>, urls: seq<string>, k: nat): nat
    requires k < |urls|
    decreases |urls| - k
  {
    var here := if At(load, urls, k).Ok? then |At(load, urls, k).value.entries| else 0;
    if k == |urls| - 1 then here else here + Sizes(load, urls, k + 1)
  }

  /** Walking always finishes, and what it gathers holds as many entries as
      the pages hold together. */
  lemma {:induction false} WalkLength<C>(load: Loader<C>, urls: seq<string>, k: nat)
    requires k < |urls|
    ensures Walk(load, urls, k).Some?
    ensures Walk(load, urls, k).value.Ok? ==> |Walk(load, urls, k).value.value| == Sizes(load, urls, k)
    decreases |urls| - k
  {
    if At(load, urls, k).Ok? && k < |urls| - 1 {
      WalkLength(load, urls, k + 1);
    }
  }

  /** Along a chain, following next links and walking the chain's pages by
      position agree. */
  lemma {:induction false} WalkTraverse<C>(load: Loader<C>, urls: seq<string>, k: nat)
    requires Chain(load, urls) && k < |urls|
    ensures Traverse(load, urls[k], k + 1, |urls| - k) == Walk(load, urls, k)
    decreases |urls| - k
  {
    Unfold(load, urls, k);
    var t := At(load, urls, k);
    if t.Ok? {
      if k < |urls| - 1 {
        ChainNext(load, urls, k);
        WalkTraverse(load, urls, k + 1);
        assert Remaining(load, urls, k, t.value) == Traverse(load, urls[k + 1], k + 1 + 1, |urls| - (k + 1));
      } else {
        assert t.value.next.None?;
      }
    }
  }

  /** The whole chain, from its first URL. */
  lemma ChainWalk<C>(load: Loader<C>, urls: seq<string>)
    requires Chain(load, urls)
    ensures Traverse(load, urls[0], 1, |urls|) == Walk(load, urls, 0)
  {
    WalkTraverse(load, urls, 0);
  }

  /** One more page gathered: past a page that fails lies its error; past
      one that loads lie its entries, then what follows it. */
  lemma Step<C>(load: Loader<C>, urls: seq<string>, k: nat, gathered: seq<C>)
    requires k + 1 < |urls|
    ensures At(load, urls, k + 1).Err? ==>
      Prefixed(gathered, After(load, urls, k)) == Some(Err(At(load, urls, k + 1).error))
    ensures At(load, urls, k + 1).Ok? ==>
      Prefixed(gathered, After(load, urls, k)) == Prefixed(gathered + At(load, urls, k + 1).value.entries, After(load, urls, k + 1))
  {
    if At(load, urls, k + 1).Ok? {
      PrefixedAppend(gathered, At(load, urls, k + 1).value.entries, After(load, urls, k + 1));
    }
  }

  /** Storing under an id above every key keeps the keys at most that id. */
  lemma StoredBelow<T>(c: map<int, Page<T>>, id: int, t: Result<Page<T>, FetchError>)
    requires forall i :: i in c ==> i < id
    ensures forall i :: i in Stored(c, id, t) ==> i <= id
  {
  }

  class CommentCache<C> {
    /** The comments fetched so far, by issue id. */
    var comments: map<int, seq<C>>
    /** Every request made, in order. */
    ghost var requests: seq<Option<string>>

    constructor ()
      ensures comments == map[] && requests == []
    {
      comments := map[];
      requests := [];
    }

    /** getComments(issue): a fresh navigator over the issue's comments,
        initialized and then moved to the next page for as long as there is
        one, gathering every page's entries; an error on any page ends the
        walk. It makes one request per URL of the chain. */
    method Collect(issue: Issue, server: Server<C>, ghost load: Loader<C>, ghost urls: seq<string>)
      returns (r: Result<seq<C>, FetchError>, ghost log: seq<Option<string>>)
      requires Serves(load, server) && Chain(load, urls) && urls[0] == issue.commentsUrl
      ensures Some(r) == Walk(load, urls, 0)
      ensures log == Requested(urls, |urls|)
    {
      var nav, first := FirstPage(issue, server, load, urls);
      log := nav.requests;
      assert log == Requested(urls, 1);
      if first.Err? {
        return Err(first.error), log;
      }
      var gathered := first.value;
      ghost var k: nat := 0;
      while nav.HasNextPage()
        invariant nav.Valid() && nav.current.Some? && k < |urls|
        invariant At(load, urls, k) == Ok(nav.current.value) && nav.current.value.id == k + 1
        invariant forall id :: id in nav.cache ==> id <= k + 1
        invariant nav.requests == Requested(urls, k + 1)
        invariant Walk(load, urls, 0) == Prefixed(gathered, After(load, urls, k))
        decreases |urls| - k
      {
        var next := NextPage(nav, server, load, urls, k);
        Step(load, urls, k, gathered);
        if next.Err? {
          log := nav.requests;
          return Err(next.error), log;
        }
        gathered := gathered + next.value;
        k := k + 1;
      }
      ChainEnd(load, urls, k);
      assert gathered + [] == gathered;
      log := nav.requests;
      r := Ok(gathered);
    }

    /** The start of getComments: a fresh navigator over the issue's
        comments, initialized. It requests the chain's first URL and yields
        the first page's entries, or its error. */
    method FirstPage(issue: Issue, server: Server<C>, ghost load: Loader<C>, ghost urls: seq<string>)
      returns (nav: Navigator<C>, first: Result<seq<C>, FetchError>)
      requires Serves(load, server) && Chain(load, urls) && urls[0] == issue.commentsUrl
      ensures fresh(nav) && nav.Valid() && nav.requests == [Some(urls[0])]
      ensures forall id :: id in nav.cache ==> id <= 1
      ensures var t := At(load, urls, 0);
        && first == (if t.Ok? then Ok(t.value.entries) else Err(t.error))
        && (t.Ok? ==> nav.current == Some(t.value) && nav.current.value.id == 1)
    {
      nav := ApiHandler.GetComments(issue, []);
      assert nav.queryUrl == issue.commentsUrl;
      ghost var t := At(load, urls, 0);
      assert t == Target(nav.cache, 1, Some(nav.queryUrl), server);
      first := nav.Initialize(server);
      StoredBelow(map[], 1, t);
    }

    /** One turn of getComments's loop: getNextPage on a navigator that
        stands on the k-th page of the chain, which has a next link. It
        requests the chain's next URL and yields the next page's entries, or
        its error, in which case that page is the chain's last. */
    method NextPage(nav: Navigator<C>, server: Server<C>, ghost load: Loader<C>, ghost urls: seq<string>, ghost k: nat)
      returns (next: Result<seq<C>, FetchError>)
      requires Serves(load, server) && Chain(load, urls) && k < |urls|
      requires nav.Valid() && nav.current.Some? && nav.current.value.next.Some?
      requires At(load, urls, k) == Ok(nav.current.value) && nav.current.value.id == k + 1
      requires forall id :: id in nav.cache ==> id <= k + 1
      modifies nav
      ensures k + 1 < |urls|
      ensures nav.Valid() && nav.current.Some? && nav.requests == old(nav.requests) + [Some(urls[k + 1])]
      ensures forall id :: id in nav.cache ==> id <= k + 2
      ensures var t := At(load, urls, k + 1);
        && next == (if t.Ok? then Ok(t.value.entries) else Err(t.error))
        && (t.Ok? ==> nav.current == Some(t.value) && nav.current.value.id == k + 2)
        && (t.Err? ==> k + 1 == |urls| - 1)
    {
      var p := nav.current.value;
      ChainNext(load, urls, k);
      ghost var c := nav.cache;
      ghost var t := At(load, urls, k + 1);
      assert t == Target(c, p.id + 1, p.next, server);
      next := nav.GetNextPage(server);
      StoredBelow(c, p.id + 1, t);
      if t.Err? {
        ChainEnd(load, urls, k + 1);
      }
    }

    /** get(issue): the stored comments on a hit; on a miss, the comments
        Collect gathers, stored under the issue's id when no page failed. */
    method Get(issue: Issue, server: Server<C>, ghost urls: seq<string>) returns (r: Result<seq<C>, FetchError>)
      requires issue.id !in comments ==> Chain(Load(server), urls) && urls[0] == issue.commentsUrl
      modifies this
      ensures issue.id in old(comments) ==>
        r == Ok(old(comments)[issue.id]) && comments == old(comments) && requests == old(requests)
      ensures issue.id !in old(comments) ==>
        && Some(r) == Traverse(Load(server), issue.commentsUrl, 1, |urls|)
        && comments == (if r.Ok? then old(comments)[issue.id := r.value] else old(comments))
        && requests == old(requests) + Requested(urls, |urls|)
    {
      if issue.id !in comments {
        LoadServes(server);
        var fetched, log := Collect(issue, server, Load(server), urls);
        ChainWalk(Load(server), urls);
        requests := requests + log;
        if fetched.Err? {
          return fetched;
        }
        comments := comments[issue.id := fetched.value];
      }
      r := Ok(comments[issue.id]);
    }
  }
}
