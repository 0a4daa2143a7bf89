/** How GitHubPageNavigator.getPageUrl pulls a page URL out of the "Link"
    response header: the four patterns `.*<(.*)>;\s+rel="first"` (and "prev",
    "next", "last"), run with Matcher.find(), and the two guards before them.
    The header format is Web Linking (section 3 of RFC 8288), but what is
    modelled is the pattern, not that grammar. */
module LinkHeader {
  import opened Wrappers
  import opened Transport

  /** The four relations the navigator looks for. */
  datatype Relation = First | Prev | Next | Last {
    function Name(): string {
      match this
      case First => "first"
      case Prev => "prev"
      case Next => "next"
      case Last => "last"
    }
  }

  /** The literal `rel="name"` that ends each pattern. */
  function RelText(rel: Relation): string {
    "rel=\"" + rel.Name() + "\""
  }

  /** The four literals differ already in their sixth character. */
  lemma RelTextSixth(a: Relation, b: Relation)
    ensures |RelText(a)| > 5 && |RelText(b)| > 5
    ensures RelText(a)[5] == RelText(b)[5] ==> a == b
  {
    assert RelText(a)[5] == a.Name()[0];
    assert RelText(b)[5] == b.Name()[0];
  }

  /** The characters Java's `.` refuses: the line terminators. */
  predicate IsLineTerminator(c: char) {
    c == '\n' || c == '\r' || c == '\U{0085}' || c == '\U{2028}' || c == '\U{2029}'
  }

  /** The characters Java's `\s` matches. */
  predicate IsSpace(c: char) {
    c == ' ' || c == '\t' || c == '\n' || c == '\U{000B}' || c == '\U{000C}' || c == '\r'
  }

  /** `.*` can match s[lo..hi]. */
  predicate NoLineBreak(s: string, lo: int, hi: int)
    requires 0 <= lo <= hi <= |s|
  {
    forall x :: lo <= x < hi ==> !IsLineTerminator(s[x])
  }

  /** `\s*` can match s[lo..hi]. */
  predicate AllSpace(s: string, lo: int, hi: int)
    requires 0 <= lo <= hi <= |s|
  {
    forall x :: lo <= x < hi ==> IsSpace(s[x])
  }

  /** t occurs in s at position k. */
  predicate TextAt(s: string, k: int, t: string)
    requires 0 <= k <= |s|
  {
    k + |t| <= |s| && s[k..k + |t|] == t
  }

  /** The end of the run of whitespace that starts at x. */
  function SpaceEnd(s: string, x: int): (e: int)
    requires 0 <= x <= |s|
    ensures x <= e <= |s| && AllSpace(s, x, e)
    ensures e < |s| ==> !IsSpace(s[e])
    decreases |s| - x
  {
    if x == |s| || !IsSpace(s[x]) then x else SpaceEnd(s, x + 1)
  }

  /** A run of whitespace from x up to a non-space character at k ends at k. */
  lemma {:induction false} SpaceEndAt(s: string, x: int, k: int)
    requires 0 <= x <= k < |s| && AllSpace(s, x, k) && !IsSpace(s[k])
    ensures SpaceEnd(s, x) == k
    decreases k - x
  {
    if x < k {
      SpaceEndAt(s, x + 1, k);
    }
  }

  /** The text t starts with `>;`, one or more whitespace characters and then
      `rel="name"`: the part of the pattern after the captured group. Since
      `\s+` is followed by a letter, it must take the whole whitespace run. */
  predicate Closes(t: string, rel: Relation) {
    3 <= |t| && t[0] == '>' && t[1] == ';' && IsSpace(t[2]) && TextAt(t, SpaceEnd(t, 2), RelText(rel))
  }

  /** Closes is the pattern's own reading: some non-empty whitespace run is
      followed by the relation literal. */
  lemma ClosesMatchesPattern(t: string, rel: Relation)
    ensures Closes(t, rel) <==>
            (3 <= |t| && t[0] == '>' && t[1] == ';' &&
             exists k :: 2 < k <= |t| && AllSpace(t, 2, k) && TextAt(t, k, RelText(rel)))
  {
    if Closes(t, rel) {
      var k := SpaceEnd(t, 2);
      assert TextAt(t, k, RelText(rel));
      assert t[k..k + |RelText(rel)|][0] == 'r';
      assert k > 2;
    }
    if 3 <= |t| && t[0] == '>' && t[1] == ';' &&
       exists k :: 2 < k <= |t| && AllSpace(t, 2, k) && TextAt(t, k, RelText(rel)) {
      var k :| 2 < k <= |t| && AllSpace(t, 2, k) && TextAt(t, k, RelText(rel));
      assert t[k..k + |RelText(rel)|][0] == 'r';
      assert t[k] == 'r';
      SpaceEndAt(t, 2, k);
      assert IsSpace(t[2]);
    }
  }

  /** The closing part of the pattern matches at position j of s. */
  predicate ClosesAt(s: string, j: int, rel: Relation) {
    0 <= j <= |s| && Closes(s[j..], rel)
  }

  /** Positions of one match: find() started at `start`, the `<` is at
      `open` and the `>` after the group is at `close`; the captured group
      is s[open + 1..close]. */
  datatype Span = Span(start: int, open: int, close: int)

  /** The pattern `.*<(.*)>;\s+rel="name"` matches s with the positions w. */
  predicate Witness(s: string, rel: Relation, w: Span) {
    && 0 <= w.start <= w.open < w.close <= |s|
    && NoLineBreak(s, w.start, w.open)
    && s[w.open] == '<'
    && NoLineBreak(s, w.open + 1, w.close)
    && ClosesAt(s, w.close, rel)
  }

  /** Matcher.find() tries a before b: it tries start positions from the
      left, and greedy `.*` tries the longest prefix, then the longest
      group, first. */
  predicate TriedFirst(a: Span, b: Span) {
    a.start < b.start || (a.start == b.start && (b.open < a.open || (b.open == a.open && b.close <= a.close)))
  }

  /** w is the match find() reports. */
  ghost predicate Preferred(s: string, rel: Relation, w: Span) {
    Witness(s, rel, w) && forall w' {:trigger Witness(s, rel, w')} :: Witness(s, rel, w') ==> TriedFirst(w, w')
  }

  /** At most one match is reported. */
  lemma PreferredUnique(s: string, rel: Relation, a: Span, b: Span)
    requires Preferred(s, rel, a) && Preferred(s, rel, b)
    ensures a == b
  {
    assert TriedFirst(a, b) && TriedFirst(b, a);
  }

  /** The greatest position in [lo, hi) where the closing part matches. */
  function LastClose(s: string, rel: Relation, lo: int, hi: int): (r: Option<int>)
    requires 0 <= lo <= hi <= |s|
    ensures r.Some? ==> lo <= r.value < hi && ClosesAt(s, r.value, rel)
    ensures forall j :: lo <= j < hi && ClosesAt(s, j, rel) ==> r.Some? && j <= r.value
    decreases hi - lo
  {
    if lo == hi then None
    else if ClosesAt(s, hi - 1, rel) then Some(hi - 1)
    else
      var r := LastClose(s, rel, lo, hi - 1);
      assert forall j :: lo <= j < hi && ClosesAt(s, j, rel) ==> j < hi - 1;
      r
  }

  /** The greatest `<` in [lo, hi) that some closing part in (open, e)
      follows, paired with the greatest such closing position. */
  function LastOpen(s: string, rel: Relation, lo: int, hi: int, e: int): (r: Option<(int, int)>)
    requires 0 <= lo <= hi <= e <= |s|
    ensures r.Some? ==> lo <= r.value.0 < hi && s[r.value.0] == '<'
    ensures r.Some? ==> LastClose(s, rel, r.value.0 + 1, e) == Some(r.value.1)
    ensures forall j :: lo < j <= hi && s[j - 1] == '<' && LastClose(s, rel, j, e).Some? ==> r.Some? && j - 1 <= r.value.0
    decreases hi - lo
  {
    if lo == hi then None
    else if s[hi - 1] == '<' && LastClose(s, rel, hi, e).Some? then Some((hi - 1, LastClose(s, rel, hi, e).value))
    else LastOpen(s, rel, lo, hi - 1, e)
  }

  /** The first line terminator at or after p, or the end of s. */
  function LineEnd(s: string, p: int): (e: int)
    requires 0 <= p <= |s|
    ensures p <= e <= |s| && NoLineBreak(s, p, e)
    ensures e < |s| ==> IsLineTerminator(s[e])
    decreases |s| - p
  {
    if p == |s| || IsLineTerminator(s[p]) then p else LineEnd(s, p + 1)
  }

  /** Every match that starts at p lies before the line end after p, and the
      search of its line finds it or one tried before it. */
  lemma WitnessInLine(s: string, rel: Relation, w: Span)
    requires Witness(s, rel, w)
    ensures var e := LineEnd(s, w.start);
      && w.open < w.close < e
      && LastClose(s, rel, w.open + 1, e).Some?
      && w.close <= LastClose(s, rel, w.open + 1, e).value
  {
    var e := LineEnd(s, w.start);
    assert s[w.close..][0] == '>';
    if e <= w.open {
      assert false;
    }
    if e <= w.close {
      assert false;
    }
  }

  /** What the pattern matches when find() tries start position p: the
      match with the longest prefix, then the longest group. */
  function MatchAt(s: string, rel: Relation, p: int): (r: Option<(int, int)>)
    requires 0 <= p <= |s|
    ensures r.Some? ==> Witness(s, rel, Span(p, r.value.0, r.value.1))
    ensures forall w: Span {:trigger Witness(s, rel, w)} :: w.start == p && Witness(s, rel, w) ==>
              r.Some? && TriedFirst(Span(p, r.value.0, r.value.1), w)
  {
    var e := LineEnd(s, p);
    var r := LastOpen(s, rel, p, e, e);
    assert forall w: Span {:trigger Witness(s, rel, w)} :: w.start == p && Witness(s, rel, w) ==>
              r.Some? && TriedFirst(Span(p, r.value.0, r.value.1), w) by {
      forall w: Span | w.start == p && Witness(s, rel, w)
        ensures r.Some? && TriedFirst(Span(p, r.value.0, r.value.1), w)
      {
        WitnessInLine(s, rel, w);
      }
    }
    r
  }

  /** Matcher.find() from start position p onwards. */
  function FindFrom(s: string, rel: Relation, p: int): (r: Option<Span>)
    requires 0 <= p <= |s|
    ensures r.Some? ==> p <= r.value.start && Witness(s, rel, r.value)
    ensures forall w: Span {:trigger Witness(s, rel, w)} :: p <= w.start && Witness(s, rel, w) ==> r.Some? && TriedFirst(r.value, w)
    decreases |s| - p
  {
    match MatchAt(s, rel, p)
    case Some((i, j)) => Some(Span(p, i, j))
    case None => if p == |s| then None else FindFrom(s, rel, p + 1)
  }

  /** matcher.find() ? matcher.group(1) : null, for one of the four patterns. */
  function FindLink(s: string, rel: Relation): (r: Option<string>)
    ensures r.None? <==> forall w {:trigger Witness(s, rel, w)} :: !Witness(s, rel, w)
    ensures forall w {:trigger Preferred(s, rel, w)} :: Preferred(s, rel, w) ==> r == Some(s[w.open + 1..w.close])
  {
    match FindFrom(s, rel, 0)
    case None => None
    case Some(w) =>
      ReportedUnique(s, rel, w);
      Some(s[w.open + 1..w.close])
  }

  /** The match the search reports is the only preferred one. */
  lemma ReportedUnique(s: string, rel: Relation, w: Span)
    requires FindFrom(s, rel, 0) == Some(w)
    ensures forall w' {:trigger Preferred(s, rel, w')} :: Preferred(s, rel, w') ==> w' == w
  {
    forall w' | Preferred(s, rel, w') ensures w' == w {
      PreferredUnique(s, rel, w, w');
    }
  }

  /** Whenever the pattern matches somewhere, one match is preferred. */
  lemma PreferredExists(s: string, rel: Relation, w: Span)
    requires Witness(s, rel, w)
    ensures exists v :: Preferred(s, rel, v)
  {
    var v := FindFrom(s, rel, 0).value;
    assert Preferred(s, rel, v);
  }

  /** The header value announces a link for rel: the "Link" field is there,
      its first value is not null, and the pattern matches it. */
  ghost predicate Announces(headers: Headers, rel: Relation) {
    && "Link" in headers
    && |headers["Link"]| > 0
    && headers["Link"][0].Some?
    && exists w :: Witness(headers["Link"][0].value, rel, w)
  }

  /** getPageUrl(pattern, headerFields). An empty value list for "Link"
      makes `get(0)` throw; that failure escapes loadPageFromApi like the
      IOExceptions do. */
  function PageUrl(rel: Relation, headers: Headers): (r: Result<Option<string>, FetchError>)
    ensures r.Err? <==> "Link" in headers && |headers["Link"]| == 0
    ensures "Link" !in headers ==> r == Ok(None)
    ensures "Link" in headers && |headers["Link"]| > 0 && headers["Link"][0].None? ==> r == Ok(None)
    ensures r.Ok? ==> (r.value.Some? <==> Announces(headers, rel))
    ensures r.Ok? && r.value.Some? ==>
              var v := headers["Link"][0].value;
              forall w {:trigger Preferred(v, rel, w)} :: Preferred(v, rel, w) ==> r.value.value == v[w.open + 1..w.close]
  {
    if "Link" !in headers then Ok(None)
    else if |headers["Link"]| == 0 then Err(MissingLinkValue)
    else match headers["Link"][0]
      case None => Ok(None)
      case Some(v) => Ok(FindLink(v, rel))
  }
}
