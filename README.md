# GitHub issue tracker: pagination and comment caching

This project models the layer of the GitHub issue tracker that pages through
GitHub API query results and keeps the comments of each issue.

- **`GitHubPageNavigator`** is a cursor over the pages of one query. Pages are
  identified by id, starting at 1. Each page gets its `first`, `prev`, `next`
  and `last` URLs from the reply's `Link` header, using the pattern
  `.*<(.*)>;\s+rel="name"`. The cursor keeps loaded pages in a cache, so a
  second visit to a page makes no request.
- **`CommentCache`** keeps the comments of each issue under the issue's id. On
  a miss it walks a fresh comment navigator from page 1 to the last page and
  concatenates the entries of every page.
- **`GitHubApiHandler`** builds the query URLs that seed new navigators. The
  form is `url?name=value&name=value&`, trailing `&` included.
- **`GitHubPage`** is the immutable page record.

Files:

- `Wrappers.dfy`: `Option` stands for a Java `null`, and `Result` for a thrown
  `IOException`.
- `Transport.dfy`: the server as a value. A map takes each answered URL to its
  headers and body. `Fetch` and `Decode` stand in for the authenticated
  connection and the JSON mapper.
- `Models.dfy`: the `Page` and `Issue` records. The page's datatype
  constructor is the Java constructor, and its destructors are the getters.
  The datatype value is immutable, as the Java fields are final.
- `LinkHeader.dfy`: `getPageUrl`, with the match `Matcher.find()` reports
  described by two predicates:
  - `Witness`: the pattern matches with these positions;
  - `Preferred`: the leftmost start, then the longest prefix, then the
    longest group.
- `LinkFormat.dfy`: headers written the way GitHub writes them, as
  `<url>; rel="name"` segments joined by `, `. The pattern extracts every
  listed relation's URL and finds no unlisted relation.
- `PageNavigator.dfy`: `loadPageFromApi`, plus the class `Navigator` with its
  page cache, current page, and a ghost log of requests.
- `ApiHandler.dfy`: the query parameters, `addQueryParameters` (its loop is
  proved against `WithQuery`), and the two navigator factories.
- `CommentCache.dfy`: the class `CommentCache` and the `while (hasNextPage)`
  traversal. The traversal is proved against `Traverse`, which is a reference
  definition of following next links.

The server's chain of next links is a ghost sequence of URLs (`Chain`). A
retrieval that misses the cache requires this chain to exist, since the Java
loop never ends on a cyclic chain. The chain is unique for a given first URL
(`ChainUnique`). The ghost request log records each URL requested on a cache
miss, and a hit adds nothing to it.

## Model

| member | source | states |
|---|---|---|
| PageNavigator.LoadPage | src/githubissuetracker/core/GitHubPageNavigator.java:133-144 | loading succeeds exactly when the URL is present, the server answers it, the Link header is not an empty list, and the body decodes; the page then carries the given id, the four URLs getPageUrl reads from the reply's headers, and the decoded entries; otherwise the error is the first failure met, in the source's order |
| PageNavigator.Target | src/githubissuetracker/core/GitHubPageNavigator.java:126-131 | a cached id yields the stored page; an uncached id yields what loading the URL yields |
| PageNavigator.Stored | src/githubissuetracker/core/GitHubPageNavigator.java:126-129 | the cache only grows: every existing entry is kept unchanged; a new key is added only for a miss that loaded, and it holds the loaded page |
| PageNavigator.Revisit | src/githubissuetracker/core/GitHubPageNavigator.java:126-131 | after a getPage that produced a page, a second getPage of that id is a hit that returns the same page, whatever URL it is given and whatever the server now says |
| PageNavigator.Navigator.GetPage | src/githubissuetracker/core/GitHubPageNavigator.java:126-131 | returns the target page; the cache becomes the stored cache; a hit makes no request and a miss makes exactly one, for the given URL; a failure leaves the cache unchanged |
| PageNavigator.Navigator.Initialize | src/githubissuetracker/core/GitHubPageNavigator.java:70-74 | page 1 is loaded from queryUrl, becomes current, and its entries are returned; on failure the current page and cache are unchanged |
| PageNavigator.Navigator.GetNextPage | src/githubissuetracker/core/GitHubPageNavigator.java:82-86 | moves to id + 1 by way of the current page's next URL; entries returned, state as Moved describes; on failure nothing but the request log changes |
| PageNavigator.Navigator.GetPreviousPage | src/githubissuetracker/core/GitHubPageNavigator.java:94-97 | moves to id - 1 by way of the current page's prev URL, with the same effects |
| PageNavigator.Navigator.HasNextPage | src/githubissuetracker/core/GitHubPageNavigator.java:104-106 | true iff the current page's next URL is present, and iff the headers it was read from announce a next link |
| PageNavigator.Navigator.HasPreviousPage | src/githubissuetracker/core/GitHubPageNavigator.java:113-115 | true iff the current page's prev URL is present, and iff its headers announce a prev link |
| PageNavigator.Navigator.PageSize | src/githubissuetracker/core/GitHubPageNavigator.java:122-124 | 0 before initialize, otherwise the current page's entry count |
| PageNavigator.Navigator.constructor | src/githubissuetracker/core/GitHubPageNavigator.java:55-59 | keeps the query URL; empty cache, no current page, no requests |
| LinkHeader.PageUrl | src/githubissuetracker/core/GitHubPageNavigator.java:146-165 | absent when there is no Link field or its first value is null; an empty value list is the error get(0) throws; otherwise a URL is found iff the pattern matches, and it is the group of the preferred match |
| LinkHeader.FindLink | src/githubissuetracker/core/GitHubPageNavigator.java:159-164 | no result iff the pattern matches nowhere; otherwise the group of the match find() prefers |
| LinkHeader.FindFrom | src/githubissuetracker/core/GitHubPageNavigator.java:159-160 | the search from position p yields a match at or after p that is tried before every other such match |
| LinkHeader.MatchAt | src/githubissuetracker/core/GitHubPageNavigator.java:35-38 | at a fixed start, the pattern yields a match tried before every match starting there |
| LinkHeader.LastClose | src/githubissuetracker/core/GitHubPageNavigator.java:35-38 | the greatest position where `>;`, whitespace and `rel="name"` follow |
| LinkHeader.LastOpen | src/githubissuetracker/core/GitHubPageNavigator.java:35-38 | the greatest `<` that such a closing part follows, with that greatest closing position |
| LinkHeader.ClosesMatchesPattern | src/githubissuetracker/core/GitHubPageNavigator.java:35-38 | the closing part matches iff one or more whitespace characters lie between `>;` and `rel="name"` (so `;rel=` with no space fails) |
| LinkHeader.PreferredUnique | src/githubissuetracker/core/GitHubPageNavigator.java:160 | find() reports at most one match |
| LinkHeader.PreferredExists | src/githubissuetracker/core/GitHubPageNavigator.java:160 | whenever the pattern matches, one match is preferred |
| LinkFormat.FindListed | src/githubissuetracker/core/GitHubPageNavigator.java:146-165 | in a well-formed header each listed relation's URL is what is extracted |
| LinkFormat.FindUnlisted | src/githubissuetracker/core/GitHubPageNavigator.java:146-165 | in a header of plain URLs an unlisted relation yields nothing |
| LinkFormat.SegmentPreferred | src/githubissuetracker/core/GitHubPageNavigator.java:35-38 | in a well-formed header the match at a relation's own segment is the preferred one |
| LinkFormat.CloseAtEnd | src/githubissuetracker/core/GitHubPageNavigator.java:35-38 | the closing part matches only at the `>` of a segment with that relation |
| LinkFormat.OpenAtStart | src/githubissuetracker/core/GitHubPageNavigator.java:35-38 | every `<` of the header starts a segment |
| ApiHandler.AddQueryParameters | src/githubissuetracker/core/GitHubApiHandler.java:61-70 | the URL unchanged without parameters, otherwise url + `?` + each parameter's `name=value&`, in argument order, trailing `&` kept |
| ApiHandler.QueryStringAppend | src/githubissuetracker/core/GitHubApiHandler.java:64-67 | the query string of concatenated parameter lists is the concatenation of their query strings |
| ApiHandler.ParseQueryString | src/githubissuetracker/core/GitHubApiHandler.java:63-67 | the query string reads back as exactly the parameters, in order |
| ApiHandler.ParamText | src/githubissuetracker/queryparameters/IssueState.java:12-20 | every parameter's name and value read back as that parameter, and names hold no `=` or `&` |
| ApiHandler.SortedByUpdate | src/githubissuetracker/core/GitHubApiHandler.java:43-45 | the issues query sorted by update is the issues URL followed by `?sort=updated&` |
| ApiHandler.GetIssues | src/githubissuetracker/core/GitHubApiHandler.java:43-47 | a fresh navigator seeded with `https://api.github.com/repos/owner/repository/issues` plus the parameters, with empty cache and no current page |
| ApiHandler.GetComments | src/githubissuetracker/core/GitHubApiHandler.java:56-59 | a fresh navigator seeded with the issue's comments URL plus the parameters, with empty cache and no current page |
| CommentCache.CommentCache.Get | src/githubissuetracker/core/CommentCache.java:40-45 | a hit returns the stored list and changes nothing, making no request; a miss returns what following next links from the comments URL gives, stores it under the issue's id only when no page failed, keeps every other entry, and requests each URL of the chain once, in order |
| CommentCache.CommentCache.Collect | src/githubissuetracker/core/CommentCache.java:47-57 | the loop returns the entries of every page of the chain in order, or the error of the first failing page, and requests each chain URL once |
| CommentCache.CommentCache.FirstPage | src/githubissuetracker/core/CommentCache.java:48-51 | a fresh navigator over the comments URL, initialized: it requests the chain's first URL and yields page 1's entries or error |
| CommentCache.CommentCache.NextPage | src/githubissuetracker/core/CommentCache.java:52-54 | one turn of the loop requests the next URL of the chain and yields the next page's entries; a failing page is the chain's last |
| CommentCache.CommentCache.constructor | src/githubissuetracker/core/CommentCache.java:28-30 | an empty map and no requests |
| CommentCache.WalkTraverse | src/githubissuetracker/core/CommentCache.java:50-54 | along a chain, following next links and walking the chain's pages by position agree |
| CommentCache.ChainTraverse | src/githubissuetracker/core/CommentCache.java:52-54 | following next links along a chain finishes, with any amount of fuel at least the chain's length giving the same result, and fails exactly when the last page fails, with its error |
| CommentCache.ChainUnique | src/githubissuetracker/core/CommentCache.java:48-52 | a chain is determined by the loader and its first URL |
| CommentCache.WalkLength | src/githubissuetracker/core/CommentCache.java:53-56 | a finished walk gathers as many entries as the chain's pages hold together |
| CommentCache.Requested | src/githubissuetracker/core/CommentCache.java:51-54 | the requests of the first n pages are each of their URLs once, in order |

## Left out

- Network I/O, authentication and the JSON mappers: `UrlConnectionHandler` and the mappers are not part of this model. The server is a value (`Server`) passed to each call. An unanswered URL, an unreadable body and an undecodable body are the error values of `FetchError`.
- Exceptions are modelled as `Result` errors. `RuntimeException`s other than the `get(0)` on an empty `Link` list (modelled as `MissingLinkValue`) are not modelled.
- Concurrency: the GUI's background threads are not modelled.
- The GUI, the properties file and the `Issue`, `Comment` and `User` beans: an issue is only its id, number and comments URL, and entries are an opaque type.
- The general regular-expression engine: only the shape of the four link patterns is modelled.
- `String.format` with a `null` owner or repository (which prints `null`) is not modelled; strings are never null here.
- Page ids are unbounded integers: the 32-bit wrap-around of `id + 1` past `Integer.MAX_VALUE` is not modelled.
- `HashMap` is modelled as a Dafny `map`; hashing and iteration order play no role.
- The `addAll` on page 1's list in `getComments` mutates a list the discarded navigator's cache also holds. The model concatenates values instead; nothing outside the loop can see the difference.
- CommentCache.CommentCache.Get: requires, on a miss, a finite chain of next links from the issue's comments URL. The Java loop does not terminate on a cyclic chain, and that behaviour is not modelled.
- CommentCache.CommentCache.FirstPage and CommentCache.CommentCache.NextPage are the start and one turn of the Java loop, split out as methods so that each is verified on its own. They are not separate operations in the source.
- CommentCache.CommentCache.Collect always calls getComments without query parameters, as the source does. Its result is stated against the positional walk; `Get` ties that walk to following next links.
- ApiHandler.SortedByUpdate: states the whole URL rather than only its suffix; the suffix `/issues?sort=updated&` follows from `IssuesUrl`.
