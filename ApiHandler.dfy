/** GitHubApiHandler: builds the query URLs that seed new navigators, and
    the query parameters (IssueState, SortCriteria, SortDirection) that go
    into them as `?name=value&name=value&`. */
module ApiHandler {
  import opened Wrappers
  import opened Models
  import opened PageNavigator

  datatype IssueState = Open | Closed | All
  datatype SortCriteria = Created | Updated | Comments
  datatype SortDirection = Asc | Desc

  /** A query parameter: each carries a fixed name and a fixed value. */
  datatype QueryParameter = State(state: IssueState) | Sort(criteria: SortCriteria) | Direction(direction: SortDirection)
  {
    function Name(): string {
      match this
      case State(_) => "state"
      case Sort(_) => "sort"
      case Direction(_) => "direction"
    }

    function Value(): string {
      match this
      case State(Open) => "open"
      case State(Closed) => "closed"
      case State(All) => "all"
      case Sort(Created) => "created"
      case Sort(Updated) => "updated"
      case Sort(Comments) => "comments"
      case Direction(Asc) => "asc"
      case Direction(Desc) => "desc"
    }
  }

  /** `name=value`: QUERY_PARAMETER_TEMPLATE filled in. */
  function Text(p: QueryParameter): string {
    p.Name() + "=" + p.Value()
  }

  /** `name=value&`: one parameter and the conjunction token after it. */
  function Pair(p: QueryParameter): string {
    Text(p) + "&"
  }

  /** The pairs of the parameters, in argument order. */
  function QueryString(ps: seq<QueryParameter>): string {
    if |ps| == 0 then "" else Pair(ps[0]) + QueryString(ps[1..])
  }

  /** The URL addQueryParameters returns: unchanged without parameters,
      otherwise followed by `?` and the pairs. */
  function WithQuery(url: string, ps: seq<QueryParameter>): string {
    if |ps| == 0 then url else url + "?" + QueryString(ps)
  }

  /** The query string of a concatenation is the concatenation of the
      query strings: the parameters appear in argument order. */
  lemma {:induction false} QueryStringAppend(a: seq<QueryParameter>, b: seq<QueryParameter>)
    ensures QueryString(a + b) == QueryString(a) + QueryString(b)
    decreases |a|
  {
    if |a| == 0 {
      assert a + b == b;
    } else {
      assert (a + b)[1..] == a[1..] + b;
      QueryStringAppend(a[1..], b);
    }
  }

  /** Appending a parameter appends its pair. */
  lemma QueryStringSnoc(ps: seq<QueryParameter>, p: QueryParameter)
    ensures QueryString(ps + [p]) == QueryString(ps) + Pair(p)
  {
    QueryStringAppend(ps, [p]);
    assert [p][1..] == [];
  }

  /** The parameter with this name and value, if there is one. */
  function ParamOf(name: string, value: string): Option<QueryParameter> {
    if name == "state" then
      if value == "open" then Some(State(Open))
      else if value == "closed" then Some(State(Closed))
      else if value == "all" then Some(State(All))
      else None
    else if name == "sort" then
      if value == "created" then Some(Sort(Created))
      else if value == "updated" then Some(Sort(Updated))
      else if value == "comments" then Some(Sort(Comments))
      else None
    else if name == "direction" then
      if value == "asc" then Some(Direction(Asc))
      else if value == "desc" then Some(Direction(Desc))
      else None
    else None
  }

  /** The position of the first c in s, if any. */
  function IndexOf(s: string, c: char): (r: Option<nat>)
    ensures r.Some? ==> r.value < |s| && s[r.value] == c && forall x :: 0 <= x < r.value ==> s[x] != c
    ensures r.None? ==> forall x :: 0 <= x < |s| ==> s[x] != c
  {
    if |s| == 0 then None
    else if s[0] == c then Some(0)
    else match IndexOf(s[1..], c)
      case None => None
      case Some(i) => Some(i + 1)
  }

  /** Reads a query string back into its parameters: each `name=value&`
      in turn. */
  function ParseQuery(q: string): Option<seq<QueryParameter>>
    decreases |q|
  {
    if |q| == 0 then Some([])
    else match IndexOf(q, '&')
      case None => None
      case Some(i) =>
        var pair := q[..i];
        match IndexOf(pair, '=')
        case None => None
        case Some(j) =>
          match ParamOf(pair[..j], pair[j + 1..])
          case None => None
          case Some(p) =>
            match ParseQuery(q[i + 1..])
            case None => None
            case Some(ps) => Some([p] + ps)
  }

  /** Names hold no `=` or `&`, values no `&`, and the text reads back. */
  lemma ParamText(p: QueryParameter)
    ensures '=' !in p.Name() && '&' !in Text(p)
    ensures ParamOf(p.Name(), p.Value()) == Some(p)
  {
    match p
    case State(Open) =>
    case State(Closed) =>
    case State(All) =>
    case Sort(Created) =>
    case Sort(Updated) =>
    case Sort(Comments) =>
    case Direction(Asc) =>
    case Direction(Desc) =>
  }

  /** The first c in s is at k when s[k] is c and nothing before it is. */
  lemma IndexOfAt(s: string, c: char, k: int)
    requires 0 <= k < |s| && s[k] == c && forall x :: 0 <= x < k ==> s[x] != c
    ensures IndexOf(s, c) == Some(k)
  {
  }

  /** Splitting `a` + c + `b` at its first c, when a holds no c. */
  lemma SplitAt(a: string, c: char, b: string)
    requires c !in a
    ensures IndexOf(a + [c] + b, c) == Some(|a|)
    ensures (a + [c] + b)[..|a|] == a && (a + [c] + b)[|a| + 1..] == b
  {
    var t := a + [c] + b;
    forall x | 0 <= x < |a| ensures t[x] != c {
      assert t[x] == a[x];
    }
    IndexOfAt(t, c, |a|);
  }

  /** Round trip: the query string reads back as the parameters it was
      built from. */
  lemma {:induction false} ParseQueryString(ps: seq<QueryParameter>)
    ensures ParseQuery(QueryString(ps)) == Some(ps)
    decreases |ps|
  {
    if |ps| > 0 {
      var p, tail := ps[0], ps[1..];
      var name, value, rest := p.Name(), p.Value(), QueryString(tail);
      var t := Text(p);
      ParamText(p);
      SplitAt(t, '&', rest);
      SplitAt(name, '=', value);
      ParseQueryString(tail);
      assert [p] + tail == ps;
    }
  }

  /** Concatenation is associative. */
  lemma Associative(a: string, b: string, c: string)
    ensures (a + b) + c == a + (b + c)
  {
  }

  /** addQueryParameters(url, parameters): appends `?` and then, for each
      parameter in turn, its pair. */
  method AddQueryParameters(url: string, parameters: seq<QueryParameter>) returns (r: string)
    ensures r == WithQuery(url, parameters)
  {
    r := url;
    if |parameters| > 0 {
      r := r + "?";
      for i := 0 to |parameters|
        invariant r == url + "?" + QueryString(parameters[..i])
      {
        assert parameters[..i + 1] == parameters[..i] + [parameters[i]];
        QueryStringSnoc(parameters[..i], parameters[i]);
        Associative(url + "?", QueryString(parameters[..i]), Pair(parameters[i]));
        r := r + Pair(parameters[i]);
      }
      assert parameters[..|parameters|] == parameters;
    }
  }

  /** REPOSITORY_ISSUE_URL_TEMPLATE filled in with owner and repository. */
  function IssuesUrl(owner: string, repository: string): string {
    "https://api.github.com/repos/" + owner + "/" + repository + "/issues"
  }

  /** The issues query sorted by last update is the issues URL followed by
      `?sort=updated&`. */
  lemma SortedByUpdate(owner: string, repository: string)
    ensures WithQuery(IssuesUrl(owner, repository), [Sort(Updated)]) == IssuesUrl(owner, repository) + "?sort=updated&"
  {
    assert QueryString([Sort(Updated)]) == Pair(Sort(Updated)) + QueryString([]);
  }

  /** getIssues(owner, repository, parameters): a fresh navigator over the
      repository's issues. */
  method GetIssues(owner: string, repository: string, parameters: seq<QueryParameter>) returns (nav: Navigator<Issue>)
    ensures fresh(nav) && nav.Valid()
    ensures nav.queryUrl == WithQuery(IssuesUrl(owner, repository), parameters)
    ensures nav.cache == map[] && nav.current == None && nav.requests == []
  {
    var url := AddQueryParameters(IssuesUrl(owner, repository), parameters);
    nav := new Navigator(url);
  }

  /** getComments(issue, parameters): a fresh navigator over the issue's
      comments. */
  method GetComments<C>(issue: Issue, parameters: seq<QueryParameter>) returns (nav: Navigator<C>)
    ensures fresh(nav) && nav.Valid()
    ensures nav.queryUrl == WithQuery(issue.commentsUrl, parameters)
    ensures nav.cache == map[] && nav.current == None && nav.requests == []
  {
    var url := AddQueryParameters(issue.commentsUrl, parameters);
    nav := new Navigator(url);
  }
}
