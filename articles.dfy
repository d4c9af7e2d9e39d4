/** Article records from the news feed: the keyword filter and the per-article field defaults. */
module Articles {
  import opened Json
  import opened Text

  /** The `source` object of an article; only its `name` is read. */
  datatype Source = Source(name: Field<string>)

  /** One decoded article object, with the four keys the dashboard reads. */
  datatype Article = Article(
    title: Field<string>,
    description: Field<string>,
    url: Field<string>,
    source: Field<Source>)

  /** What one article card shows; `None` is a Python `None` that reaches the page. */
  datatype Card = Card(
    title: Option<string>,
    description: Option<string>,
    url: Option<string>,
    sourceName: Option<string>)

  /** The only error the defaulting can raise: `.get` called on a `null` source. */
  datatype PyError = AttributeError

  datatype Result<+T> = Ok(value: T) | Raises(error: PyError)

  /** The keyword test: a case-insensitive substring of the title or the description. */
  predicate Matches(a: Article, keyword: string) {
    || Contains(Lower(OrEmpty(a.title.Get())), Lower(keyword))
    || Contains(Lower(OrEmpty(a.description.Get())), Lower(keyword))
  }

  /** Whether the filter keeps `a`: an empty keyword keeps everything. */
  predicate Kept(a: Article, keyword: string) {
    keyword == "" || Matches(a, keyword)
  }

  /** The list comprehension: the articles that match, in their original order. */
  function Select(articles: seq<Article>, keyword: string): seq<Article>
  {
    if articles == [] then []
    else
      (if Matches(articles[0], keyword) then [articles[0]] else [])
      + Select(articles[1..], keyword)
  }

  /** `xs` is obtained from `ys` by deleting elements, keeping the order of the rest. */
  predicate IsSubsequence<T(==)>(xs: seq<T>, ys: seq<T>)
    decreases |ys|
  {
    if xs == [] then true
    else if ys == [] then false
    else if xs[0] == ys[0] then IsSubsequence(xs[1..], ys[1..])
    else IsSubsequence(xs, ys[1..])
  }

  /**
   * The articles left on the page after the sidebar's keyword filter:
   * an empty keyword filters nothing, otherwise only matching articles stay.
   */
  function KeywordFilter(articles: seq<Article>, keyword: string): (kept: seq<Article>)
    ensures keyword == "" ==> kept == articles
    ensures IsSubsequence(kept, articles)
    ensures forall a :: a in kept <==> a in articles && Kept(a, keyword)
    ensures forall a :: multiset(kept)[a] == if Kept(a, keyword) then multiset(articles)[a] else 0
  {
    if keyword != "" then
      SelectSpec(articles, keyword);
      Select(articles, keyword)
    else
      SubsequenceRefl(articles);
      articles
  }

  lemma {:induction false} SubsequenceRefl<T>(s: seq<T>)
    ensures IsSubsequence(s, s)
    decreases |s|
  {
    if s != [] {
      SubsequenceRefl(s[1..]);
    }
  }

  /** `Select` keeps exactly the matching articles, each as often as it occurs, in order. */
  lemma {:induction false} SelectSpec(articles: seq<Article>, keyword: string)
    ensures IsSubsequence(Select(articles, keyword), articles)
    ensures forall a :: a in Select(articles, keyword) <==> a in articles && Matches(a, keyword)
    ensures forall a :: multiset(Select(articles, keyword))[a] ==
                        (if Matches(a, keyword) then multiset(articles)[a] else 0)
    decreases |articles|
  {
    if articles != [] {
      var head, tail := articles[0], articles[1..];
      SelectSpec(tail, keyword);
      assert articles == [head] + tail;
      var r := Select(articles, keyword);
      if Matches(head, keyword) {
        assert r == [head] + Select(tail, keyword);
        assert r[1..] == Select(tail, keyword);
      } else {
        assert r == Select(tail, keyword);
        if r != [] {
          assert r[0] in r;
          assert r[0] != head;
        }
      }
    }
  }

  /** Filtering twice with the same keyword is filtering once. */
  lemma {:induction false} KeywordFilterIdempotent(articles: seq<Article>, keyword: string)
    ensures KeywordFilter(KeywordFilter(articles, keyword), keyword) == KeywordFilter(articles, keyword)
  {
    if keyword != "" {
      SelectIdempotent(articles, keyword);
    }
  }

  lemma {:induction false} SelectIdempotent(articles: seq<Article>, keyword: string)
    ensures Select(Select(articles, keyword), keyword) == Select(articles, keyword)
    decreases |articles|
  {
    if articles != [] {
      SelectIdempotent(articles[1..], keyword);
      var s := Select(articles, keyword);
      if Matches(articles[0], keyword) {
        assert s[0] == articles[0] && s[1..] == Select(articles[1..], keyword);
        assert Select(s, keyword) == [s[0]] + Select(s[1..], keyword);
      } else {
        assert s == Select(articles[1..], keyword);
      }
    }
  }

  /** Skipping the filter for an empty keyword changes nothing: "" is in every string. */
  lemma {:induction false} EmptyKeywordMatchesAll(articles: seq<Article>)
    ensures Select(articles, "") == articles
    decreases |articles|
  {
    if articles != [] {
      EmptyInEverything(Lower(OrEmpty(articles[0].title.Get())));
      EmptyKeywordMatchesAll(articles[1..]);
    }
  }

  /** Keywords differing only in letter case filter alike, the empty keyword included. */
  lemma CaseInsensitive(articles: seq<Article>, k1: string, k2: string)
    requires Lower(k1) == Lower(k2)
    ensures KeywordFilter(articles, k1) == KeywordFilter(articles, k2)
  {
    LowerKeepsEmptiness(k1);
    LowerKeepsEmptiness(k2);
    if k1 != "" {
      assert forall a :: Matches(a, k1) == Matches(a, k2);
      SelectCongruent(articles, k1, k2);
    }
  }

  lemma {:induction false} SelectCongruent(articles: seq<Article>, k1: string, k2: string)
    requires forall a :: Matches(a, k1) == Matches(a, k2)
    ensures Select(articles, k1) == Select(articles, k2)
    decreases |articles|
  {
    if articles != [] {
      SelectCongruent(articles[1..], k1, k2);
    }
  }

  /** A keyword that matches no article empties the feed, although the fetch returned articles. */
  lemma NoMatchEmptiesFeed(articles: seq<Article>, keyword: string)
    requires keyword != ""
    requires forall a :: a in articles ==> !Matches(a, keyword)
    ensures KeywordFilter(articles, keyword) == []
  {
    assert multiset(KeywordFilter(articles, keyword)) == multiset{};
  }

  /**
   * The fields of one article card: a missing title becomes "No Title", an empty,
   * missing or `null` description falls back to the title, a missing url becomes "#"
   * and a missing source or source name becomes "Unknown Source". A `null` value that
   * is not replaced stays `None`; a `null` source makes `.get` raise.
   */
  function CardOf(a: Article): (r: Result<Card>)
    ensures r.Raises? <==> a.source.Null?
    ensures r.Ok? && a.title.Missing? ==> r.value.title == Some("No Title")
    ensures r.Ok? && a.title.Null? ==> r.value.title == None
    ensures r.Ok? && a.title.Present? ==> r.value.title == Some(a.title.value)
    ensures r.Ok? && a.description.Present? && a.description.value != "" ==>
              r.value.description == Some(a.description.value)
    ensures r.Ok? && !(a.description.Present? && a.description.value != "") ==>
              r.value.description == r.value.title
    ensures r.Ok? && a.url.Missing? ==> r.value.url == Some("#")
    ensures r.Ok? && a.url.Null? ==> r.value.url == None
    ensures r.Ok? && a.url.Present? ==> r.value.url == Some(a.url.value)
    ensures r.Ok? && (a.source.Missing? || a.source.value.name.Missing?) ==>
              r.value.sourceName == Some("Unknown Source")
    ensures r.Ok? && a.source.Present? && a.source.value.name.Null? ==> r.value.sourceName == None
    ensures r.Ok? && a.source.Present? && a.source.value.name.Present? ==>
              r.value.sourceName == Some(a.source.value.name.value)
  {
    var title := a.title.GetOr("No Title");
    var description := Or(a.description.Get(), title);
    var url := a.url.GetOr("#");
    match a.source
    case Null => Raises(AttributeError)
    case Missing => Ok(Card(title, description, url, Some("Unknown Source")))
    case Present(s) => Ok(Card(title, description, url, s.name.GetOr("Unknown Source")))
  }

  /** The description shown is empty or `None` only when the title shown is the same. */
  lemma DescriptionFallsBackToTitle(a: Article)
    requires !a.source.Null?
    ensures !Truthy(CardOf(a).value.description) ==> CardOf(a).value.description == CardOf(a).value.title
    ensures Truthy(CardOf(a).value.title) ==> Truthy(CardOf(a).value.description)
  {
  }

  /** An article without a title key always shows a non-empty title and description. */
  lemma MissingTitleShowsText(a: Article)
    requires !a.source.Null? && a.title.Missing?
    ensures CardOf(a).value.title == Some("No Title")
    ensures Truthy(CardOf(a).value.description)
  {
  }
}
