/** Well-formed "Link" header values, written the way GitHub writes them:
    `<url>; rel="name"` segments joined by ", ". For such a value, every
    listed relation's URL is what the navigator's pattern extracts, and an
    unlisted relation yields nothing. */
module LinkFormat {
  import opened Wrappers
  import opened LinkHeader

  /** One link of the header: a target URL and its relation. */
  datatype Link = Link(url: string, rel: Relation)

  /** What follows the URL of a segment after its `>`. */
  function Tag(rel: Relation): string {
    "; " + RelText(rel)
  }

  /** What follows the URL of a segment: `>; rel="name"`. */
  function After(rel: Relation): string {
    ">" + Tag(rel)
  }

  /** `<url>; rel="name"` */
  function Segment(l: Link): string {
    "<" + l.url + After(l.rel)
  }

  /** The header value listing the links in order, separated by ", ". */
  function Format(links: seq<Link>): string
    decreases |links|
  {
    if |links| == 0 then ""
    else if |links| == 1 then Segment(links[0])
    else Segment(links[0]) + ", " + Format(links[1..])
  }

  /** A URL the pattern cannot misread: no angle brackets, no line breaks. */
  predicate PlainUrl(u: string) {
    '<' !in u && '>' !in u && forall x :: 0 <= x < |u| ==> !IsLineTerminator(u[x])
  }

  predicate PlainUrls(links: seq<Link>) {
    forall k :: 0 <= k < |links| ==> PlainUrl(links[k].url)
  }

  /** Plain URLs and no relation listed twice. */
  predicate WellFormed(links: seq<Link>) {
    PlainUrls(links) && forall a, b :: 0 <= a < b < |links| ==> links[a].rel != links[b].rel
  }

  /** Where the k-th segment starts in Format(links). */
  function Start(links: seq<Link>, k: int): nat
    requires 0 <= k < |links|
    decreases k
  {
    if k == 0 then 0 else |Segment(links[0])| + 2 + Start(links[1..], k - 1)
  }

  /** Where the `>` that ends the k-th URL stands in Format(links). */
  function End(links: seq<Link>, k: int): nat
    requires 0 <= k < |links|
  {
    Start(links, k) + 1 + |links[k].url|
  }

  /** The literal parts of a segment contain no `<`, no `>` and no line break. */
  lemma TagChars(rel: Relation)
    ensures '<' !in Tag(rel) && '>' !in Tag(rel)
    ensures forall x :: 0 <= x < |Tag(rel)| ==> !IsLineTerminator(Tag(rel)[x])
  {
    match rel
    case First =>
    case Prev =>
    case Next =>
    case Last =>
  }

  /** The characters of a segment, position by position. */
  lemma SegmentChar(l: Link, x: int)
    requires 0 <= x < |Segment(l)|
    ensures Segment(l)[x] ==
      if x == 0 then '<'
      else if x <= |l.url| then l.url[x - 1]
      else if x == |l.url| + 1 then '>'
      else Tag(l.rel)[x - |l.url| - 2]
  {
    assert Segment(l) == ("<" + l.url) + After(l.rel);
    if x > |l.url| {
      assert Segment(l)[x] == After(l.rel)[x - |l.url| - 1];
    }
  }

  /** The URL and the text after it inside a segment followed by rest. */
  lemma SegmentParts(l: Link, rest: string)
    ensures (Segment(l) + rest)[1 + |l.url|..] == After(l.rel) + rest
    ensures (Segment(l) + rest)[1..1 + |l.url|] == l.url
    ensures (Segment(l) + rest)[0] == '<'
  {
    var u := "<" + l.url;
    assert Segment(l) + rest == u + (After(l.rel) + rest);
    DropAppend(u, After(l.rel) + rest, 0);
  }

  /** Dropping a prefix of a concatenation. */
  lemma DropAppend(a: string, b: string, x: int)
    requires 0 <= x <= |b|
    ensures (a + b)[|a| + x..] == b[x..]
  {
  }

  /** The k-th segment starts the rest of the header. */
  lemma {:induction false} SuffixAt(links: seq<Link>, k: int)
    requires 0 <= k < |links|
    ensures Start(links, k) < |Format(links)|
    ensures Format(links)[Start(links, k)..] == Format(links[k..])
    decreases k
  {
    if k == 0 {
      assert links[0..] == links;
      FormatSplit(links);
      assert Format(links)[Start(links, k)..] == Format(links[k..]);
    } else {
      var tail := links[1..];
      var a, G, x := Segment(links[0]) + ", ", Format(tail), Start(tail, k - 1);
      SuffixAt(tail, k - 1);
      assert tail[k - 1..] == links[k..];
      assert Format(links) == a + G;
      assert Start(links, k) == |a| + x;
      DropAppend(a, G, x);
      assert Format(links)[Start(links, k)..] == G[x..];
      assert Format(links)[Start(links, k)..] == Format(links[k..]);
    }
  }

  /** Later segments start after earlier ones end. */
  lemma {:induction false} StartOrder(links: seq<Link>, a: int, b: int)
    requires 0 <= a < b < |links|
    ensures End(links, a) < Start(links, b)
    decreases a
  {
    if a > 0 {
      StartOrder(links[1..], a - 1, b - 1);
    }
  }

  /** The closing part of the pattern, applied at the `>` of a segment,
      matches exactly the segment's own relation. */
  lemma SegmentCloses(l: Link, rest: string, r: Relation)
    ensures Closes(After(l.rel) + rest, r) <==> r == l.rel
  {
    var t := After(l.rel) + rest;
    var rt := RelText(l.rel);
    assert t == ">; " + rt + rest;
    assert t[3..3 + |rt|] == rt;
    assert t[3] == 'r';
    SpaceEndAt(t, 2, 3);
    RelTextSixth(r, l.rel);
    if Closes(t, r) {
      assert t[3..3 + |RelText(r)|][5] == RelText(r)[5];
      assert t[8] == rt[5];
    }
  }

  /** No line breaks in a header of plain URLs. */
  lemma {:induction false} FormatNoLineBreak(links: seq<Link>)
    requires PlainUrls(links)
    ensures NoLineBreak(Format(links), 0, |Format(links)|)
    decreases |links|
  {
    if |links| > 0 {
      var l := links[0];
      TagChars(l.rel);
      forall x | 0 <= x < |Segment(l)| ensures !IsLineTerminator(Segment(l)[x]) {
        SegmentChar(l, x);
      }
      if |links| > 1 {
        FormatNoLineBreak(links[1..]);
        var F := Format(links);
        var off := |Segment(l)| + 2;
        assert F == (Segment(l) + ", ") + Format(links[1..]);
        forall x | 0 <= x < |F| ensures !IsLineTerminator(F[x]) {
          if x >= off {
            assert F[x] == Format(links[1..])[x - off];
          }
        }
      }
    }
  }

  /** The text after the first segment of a non-empty header. */
  function Rest(links: seq<Link>): string
    requires |links| > 0
  {
    if |links| == 1 then "" else ", " + Format(links[1..])
  }

  /** A header is its first segment followed by the rest; past the
      separator, the rest is the header of the remaining links. */
  lemma FormatHead(links: seq<Link>)
    requires |links| > 0
    ensures Format(links) == Segment(links[0]) + Rest(links)
    ensures |links| > 1 ==> Format(links) == (Segment(links[0]) + ", ") + Format(links[1..])
    ensures |links| > 1 ==> forall x :: |Segment(links[0])| <= x < |Segment(links[0])| + 2 ==> Format(links)[x] in ", "
  {
    if |links| > 1 {
      var a := Segment(links[0]) + ", ";
      forall x | |Segment(links[0])| <= x < |Segment(links[0])| + 2 ensures Format(links)[x] in ", " {
        assert Format(links)[x] == a[x];
        assert a[x] == ", "[x - |Segment(links[0])|];
      }
    }
  }

  /** Inside the first segment, `<` stands only at position 0 and `>` only
      right after the URL. */
  lemma SegmentBrackets(l: Link, x: int)
    requires PlainUrl(l.url) && 0 <= x < |Segment(l)|
    ensures Segment(l)[x] == '<' ==> x == 0
    ensures Segment(l)[x] == '>' ==> x == |l.url| + 1
  {
    TagChars(l.rel);
    SegmentChar(l, x);
    if 0 < x <= |l.url| {
      assert l.url[x - 1] in l.url;
    } else if x > |l.url| + 1 {
      assert Tag(l.rel)[x - |l.url| - 2] in Tag(l.rel);
    }
  }

  /** A header of two or more links: first segment, separator, the rest. */
  lemma FormatTail(links: seq<Link>)
    requires |links| > 1
    ensures Format(links) == Segment(links[0]) + ", " + Format(links[1..])
  {
  }

  /** The characters of `seg, G`, position by position. */
  lemma AtJoin(seg: string, G: string, i: int)
    requires 0 <= i < |seg| + 2 + |G|
    ensures i < |seg| ==> (seg + ", " + G)[i] == seg[i]
    ensures |seg| <= i < |seg| + 2 ==> (seg + ", " + G)[i] in ", "
    ensures |seg| + 2 <= i ==> (seg + ", " + G)[i..] == G[i - |seg| - 2..]
  {
    if |seg| + 2 <= i {
      DropAppend(seg + ", ", G, i - |seg| - 2);
    }
  }

  /** A `<` within the first segment, or in a header of one link, is the
      first segment's own. */
  lemma OpenInFirst(links: seq<Link>, i: int)
    requires PlainUrls(links) && 0 <= i < |Format(links)| && Format(links)[i] == '<'
    requires |links| == 1 || i < |Segment(links[0])|
    ensures i == Start(links, 0)
  {
    FormatSplit(links);
    assert PlainUrl(links[0].url);
    SegmentBrackets(links[0], i);
  }

  /** A closing part within the first segment, or in a header of one link,
      is the first segment's own. */
  lemma CloseInFirst(links: seq<Link>, j: int, r: Relation)
    requires PlainUrls(links) && ClosesAt(Format(links), j, r)
    requires |links| == 1 || j < |Segment(links[0])|
    ensures links[0].rel == r && j == End(links, 0)
  {
    var l, F := links[0], Format(links);
    assert F[j..][0] == F[j];
    FormatSplit(links);
    assert PlainUrl(l.url);
    SegmentBrackets(l, j);
    SegmentParts(l, Rest(links));
    SegmentCloses(l, Rest(links), r);
  }

  /** Every `<` of the header starts a segment. */
  lemma {:induction false} OpenAtStart(links: seq<Link>, i: int)
    requires PlainUrls(links) && 0 <= i < |Format(links)| && Format(links)[i] == '<'
    ensures exists k :: 0 <= k < |links| && i == Start(links, k)
    decreases |links|
  {
    var seg := Segment(links[0]);
    if |links| == 1 || i < |seg| {
      OpenInFirst(links, i);
    } else {
      var G := Format(links[1..]);
      var off := |seg| + 2;
      FormatTail(links);
      AtJoin(seg, G, i);
      assert G[i - off..][0] == '<';
      OpenAtStart(links[1..], i - off);
      var k :| 0 <= k < |links[1..]| && i - off == Start(links[1..], k);
      assert i == Start(links, k + 1);
    }
  }

  /** Every position where the closing part matches is the `>` of a
      segment with that relation. */
  lemma {:induction false} CloseAtEnd(links: seq<Link>, j: int, r: Relation)
    requires PlainUrls(links) && ClosesAt(Format(links), j, r)
    ensures exists k :: 0 <= k < |links| && links[k].rel == r && j == End(links, k)
    decreases |links|
  {
    var F := Format(links);
    assert F[j..][0] == F[j];
    var l := links[0];
    var seg := Segment(l);
    if |links| == 1 || j < |seg| {
      CloseInFirst(links, j, r);
    } else {
      var G := Format(links[1..]);
      var off := |seg| + 2;
      FormatTail(links);
      AtJoin(seg, G, j);
      CloseAtEnd(links[1..], j - off, r);
      var k :| 0 <= k < |links[1..]| && links[1..][k].rel == r && j - off == End(links[1..], k);
      assert j == End(links, k + 1);
    }
  }

  /** The header from the k-th segment on. */
  lemma SegmentAt(links: seq<Link>, k: int)
    requires 0 <= k < |links|
    ensures Start(links, k) <= |Format(links)|
    ensures Format(links)[Start(links, k)..] == Segment(links[k]) + Rest(links[k..])
  {
    SuffixAt(links, k);
    FormatSplit(links[k..]);
  }

  /** The first segment and what follows it. */
  lemma FormatSplit(links: seq<Link>)
    requires |links| > 0
    ensures Format(links) == Segment(links[0]) + Rest(links)
  {
  }

  /** Where the parts of a segment stand in a text that holds it from s0
      on; e is the position of its `>`. */
  lemma Layout(F: string, s0: int, e: int, l: Link, rest: string)
    requires 0 <= s0 <= |F| && F[s0..] == Segment(l) + rest && e == s0 + 1 + |l.url|
    ensures e < |F|
    ensures F[s0] == '<'
    ensures F[s0 + 1..e] == l.url
    ensures F[e..] == After(l.rel) + rest
  {
    SegmentParts(l, rest);
    assert F[s0] == F[s0..][0];
    DropDrop(F, s0, 1 + |l.url|);
    DropSlice(F, s0, 1, 1 + |l.url|);
  }

  /** Where the k-th segment's `<`, URL and closing text stand. */
  lemma SegmentLayout(links: seq<Link>, k: int)
    requires 0 <= k < |links|
    ensures End(links, k) < |Format(links)|
    ensures Format(links)[Start(links, k)] == '<'
    ensures Format(links)[Start(links, k) + 1..End(links, k)] == links[k].url
    ensures Format(links)[End(links, k)..] == After(links[k].rel) + Rest(links[k..])
  {
    var F, s0, e, rest := Format(links), Start(links, k), End(links, k), Rest(links[k..]);
    SegmentAt(links, k);
    Layout(F, s0, e, links[k], rest);
  }

  /** Dropping twice is dropping once. */
  lemma DropDrop(s: string, a: int, b: int)
    requires 0 <= a && 0 <= b && a + b <= |s|
    ensures s[a..][b..] == s[a + b..]
  {
  }

  /** A slice of a suffix is a slice of the whole. */
  lemma DropSlice(s: string, a: int, b: int, c: int)
    requires 0 <= a && 0 <= b <= c && a + c <= |s|
    ensures s[a..][b..c] == s[a + b..a + c]
  {
  }

  /** The k-th segment yields a match of its own relation, whose group is
      the segment's URL. */
  lemma SegmentWitness(links: seq<Link>, k: int)
    requires PlainUrls(links) && 0 <= k < |links|
    ensures Witness(Format(links), links[k].rel, Span(0, Start(links, k), End(links, k)))
    ensures Format(links)[Start(links, k) + 1..End(links, k)] == links[k].url
  {
    SegmentLayout(links, k);
    FormatNoLineBreak(links);
    SegmentCloses(links[k], Rest(links[k..]), links[k].rel);
  }

  /** A match of a listed relation closes at that relation's own segment. */
  lemma WitnessClose(links: seq<Link>, m: int, w: Span)
    requires WellFormed(links) && 0 <= m < |links| && Witness(Format(links), links[m].rel, w)
    ensures w.close == End(links, m)
  {
    CloseAtEnd(links, w.close, links[m].rel);
  }

  /** A match opens at some segment's `<`. */
  lemma WitnessOpen(links: seq<Link>, r: Relation, w: Span)
    requires PlainUrls(links) && Witness(Format(links), r, w)
    ensures exists k :: 0 <= k < |links| && w.open == Start(links, k)
  {
    OpenAtStart(links, w.open);
  }

  /** A span from some segment's `<` to the m-th segment's `>` is tried
      no earlier than the m-th segment's own span. */
  lemma OrderedSpan(links: seq<Link>, m: int, k: int, w: Span)
    requires 0 <= m < |links| && 0 <= k < |links|
    requires 0 <= w.start && w.open < w.close
    requires w.open == Start(links, k) && w.close == End(links, m)
    ensures TriedFirst(Span(0, Start(links, m), End(links, m)), w)
  {
    if k > m { StartOrder(links, m, k); }
    if k < m { StartOrder(links, k, m); }
  }

  /** Any match of a listed relation is tried no earlier than the one at
      that relation's own segment. */
  lemma SegmentTriedFirst(links: seq<Link>, m: int, w: Span)
    requires WellFormed(links) && 0 <= m < |links| && Witness(Format(links), links[m].rel, w)
    ensures TriedFirst(Span(0, Start(links, m), End(links, m)), w)
  {
    WitnessClose(links, m, w);
    WitnessOpen(links, links[m].rel, w);
    var k :| 0 <= k < |links| && w.open == Start(links, k);
    OrderedSpan(links, m, k, w);
  }

  /** The match at a listed relation's own segment is the preferred one,
      and its group is that segment's URL. */
  lemma SegmentPreferred(links: seq<Link>, m: int)
    requires WellFormed(links) && 0 <= m < |links|
    ensures Preferred(Format(links), links[m].rel, Span(0, Start(links, m), End(links, m)))
    ensures Format(links)[Start(links, m) + 1..End(links, m)] == links[m].url
  {
    SegmentWitness(links, m);
    forall w | Witness(Format(links), links[m].rel, w)
      ensures TriedFirst(Span(0, Start(links, m), End(links, m)), w)
    {
      SegmentTriedFirst(links, m, w);
    }
  }

  /** Round trip: each listed relation's URL is what getPageUrl extracts. */
  lemma FindListed(links: seq<Link>, m: int)
    requires WellFormed(links) && 0 <= m < |links|
    ensures FindLink(Format(links), links[m].rel) == Some(links[m].url)
  {
    var F, r, w := Format(links), links[m].rel, Span(0, Start(links, m), End(links, m));
    SegmentPreferred(links, m);
    assert Preferred(F, r, w) && F[w.open + 1..w.close] == links[m].url;
  }

  /** An unlisted relation is absent. */
  lemma FindUnlisted(links: seq<Link>, rel: Relation)
    requires PlainUrls(links)
    requires forall k :: 0 <= k < |links| ==> links[k].rel != rel
    ensures FindLink(Format(links), rel) == None
  {
    forall w | Witness(Format(links), rel, w) ensures false {
      CloseAtEnd(links, w.close, rel);
    }
  }
}
