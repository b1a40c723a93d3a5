/**
 * What the crawler reads from a parsed archive page (crawl.py:72-163). The markup
 * lookups themselves are BeautifulSoup calls; a page is given here by what they
 * find: the text of the page-total span, and per article block the text of its
 * headline span, type div and timestamp paragraph, each absent when the lookup
 * finds no such child.
 */
module Extraction {
  import opened Outcomes
  import opened Text
  import PageCount

  datatype ArticleBlock = ArticleBlock(
    headlineText: Option<string>,    // get_headline: the headline span's text
    typeText: Option<string>,        // get_article_type: the article-type div's text
    timestampText: Option<string>)   // get_news_time_release: the timestamp paragraph's text

  datatype Page = Page(
    pageTotalText: Option<string>,   // the page-picker total span's text, e.g. "of 12"
    articles: seq<ArticleBlock>)     // get_headline_articles: the article blocks, in document order

  /** A headline dictionary: JSON object keys to string-or-null values. */
  type Headline = map<string, Option<string>>

  const HEADLINE_TITLE := "headline title"
  const TYPE := "type"
  const RELEASE_TIME := "release time"

  /**
   * get_headline_dict (crawl.py:154-163): exactly the three keys, each holding the
   * text of its own child, or None when that child is absent.
   */
  function HeadlineDict(a: ArticleBlock): (r: Headline)
    ensures r.Keys == {HEADLINE_TITLE, TYPE, RELEASE_TIME}
    ensures r[HEADLINE_TITLE] == a.headlineText && r[TYPE] == a.typeText && r[RELEASE_TIME] == a.timestampText
  {
    map[HEADLINE_TITLE := a.headlineText, TYPE := a.typeText, RELEASE_TIME := a.timestampText]
  }

  /** A missing child blanks its own field and no other (the fields degrade independently). */
  lemma MissingChildBlanksOnlyItsField(a: ArticleBlock)
    ensures HeadlineDict(a.(headlineText := None)) == HeadlineDict(a)[HEADLINE_TITLE := None]
    ensures HeadlineDict(a.(typeText := None)) == HeadlineDict(a)[TYPE := None]
    ensures HeadlineDict(a.(timestampText := None)) == HeadlineDict(a)[RELEASE_TIME := None]
  {
  }

  /** The dictionary records the block completely: blocks with equal dictionaries found the same texts. */
  lemma HeadlineDictInjective(a: ArticleBlock, b: ArticleBlock)
    ensures HeadlineDict(a) == HeadlineDict(b) <==> a == b
  {
    if HeadlineDict(a) == HeadlineDict(b) {
      assert HeadlineDict(a)[HEADLINE_TITLE] == HeadlineDict(b)[HEADLINE_TITLE];
      assert HeadlineDict(a)[TYPE] == HeadlineDict(b)[TYPE];
      assert HeadlineDict(a)[RELEASE_TIME] == HeadlineDict(b)[RELEASE_TIME];
    }
  }

  /** The list the crawler builds for one page (crawl.py:187-190): one dictionary per block, in order. */
  function Headlines(articles: seq<ArticleBlock>): (r: seq<Headline>)
    ensures |r| == |articles|
    ensures forall k :: 0 <= k < |articles| ==> r[k] == HeadlineDict(articles[k])
    decreases |articles|
  {
    if articles == [] then []
    else Headlines(articles[..|articles| - 1]) + [HeadlineDict(articles[|articles| - 1])]
  }

  /**
   * get_number_of_pages_today (crawl.py:125-138): the page total parsed from the
   * total span's text, None when the span is absent or its text has no "of N".
   */
  function NumberOfPagesToday(p: Page): (r: Option<nat>)
    ensures r.Some? ==> p.pageTotalText.Some?
    ensures p.pageTotalText.Some? ==> r == PageCount.ExtractNumber(p.pageTotalText.value)
  {
    match p.pageTotalText
    case None => None
    case Some(text) => PageCount.ExtractNumber(text)
  }

  /**
   * The page total read from the span: None exactly when the span is absent or its
   * text has no "of" followed by whitespace and digits; otherwise the value of the
   * digit run after the leftmost such "of".
   */
  lemma NumberOfPagesTodaySpec(p: Page)
    ensures NumberOfPagesToday(p).None? <==>
      p.pageTotalText.None? || forall i: nat, k: nat, e: nat :: !PageCount.Match(p.pageTotalText.value, i, k, e)
    ensures NumberOfPagesToday(p).Some? ==>
      (p.pageTotalText.Some? &&
       exists i: nat, k: nat, e: nat :: PageCount.Match(p.pageTotalText.value, i, k, e)
         && NumberOfPagesToday(p) == Some(DigitsValue(p.pageTotalText.value[k..e]))
         && forall j: nat, k': nat, e': nat :: j < i ==> !PageCount.Match(p.pageTotalText.value, j, k', e'))
  {
    if p.pageTotalText.Some? {
      PageCount.ExtractNumberSpec(p.pageTotalText.value);
    }
  }
}
