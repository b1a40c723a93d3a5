/**
 * The crawl controller, `crawling` (crawl.py:165-194): from a starting date up to
 * today, fetch the day's archive root page to learn how many pages the day has,
 * fetch each page, and append one digest per page that came back with article
 * blocks. The HTTP transport and the HTML parser are the injected `fetch`.
 */
module Crawler {
  import opened Outcomes
  import opened Calendar
  import opened Text
  import opened DateFormat
  import opened ArchiveUrls
  import opened Extraction

  /** get_soup: the parsed page when the request succeeds with status 200, None otherwise. */
  type Fetch = string -> Option<Page>

  /** One element of `crawled`, the dictionary `{'date': ..., 'headlines': [...]}`. */
  datatype Digest = Digest(date: string, headlines: seq<Headline>)

  /** A day the outer loop processed, with the number of pages its inner loop ran over. */
  datatype Visit = Visit(date: string, pages: nat)

  /** The days the crawl processes, in order, and the exception that ends it, if any. */
  datatype Schedule = Schedule(visits: seq<Visit>, raised: Option<Raised>)

  /** A digest with the page it came from; the page number is not stored in the output, but its order is. */
  datatype Unit = Unit(date: string, page: nat, digest: Digest)

  /**
   * The number of pages for a day (crawl.py:174-178). `carried` is Python's local
   * `number_of_pages` on entry: None while it has never been assigned (before the
   * first day), otherwise the number the previous day used. The root page's total
   * replaces it when the root page is fetched; a fetched root page without a total
   * gives 1. When the root fetch fails the previous day's number is used again,
   * and on the first day there is none: the test `number_of_pages == None` reads an
   * unassigned local and raises UnboundLocalError.
   */
  function ResolvePages(fetch: Fetch, date: string, carried: Option<nat>): (r: Result<nat, Raised>)
    ensures r.Err? <==> fetch(RootUrl(date)).None? && carried.None?
    ensures r.Err? ==> r.error == UnboundLocalError
  {
    match fetch(RootUrl(date))
    case Some(root) => Ok(match NumberOfPagesToday(root) case Some(n) => n case None => 1)
    case None => if carried.Some? then Ok(carried.value) else Err(UnboundLocalError)
  }

  /**
   * The digest for page `page` of `date` (crawl.py:180-192): there is one exactly
   * when the page is fetched and has article blocks, and it holds one headline
   * dictionary per block, in block order.
   */
  function Emitted(fetch: Fetch, date: string, page: nat): (r: Option<Digest>)
    ensures r.Some? <==> fetch(PageUrl(date, page)).Some? && |fetch(PageUrl(date, page)).value.articles| > 0
    ensures r.Some? ==> var articles := fetch(PageUrl(date, page)).value.articles;
      r.value.date == date && |r.value.headlines| == |articles|
      && forall k :: 0 <= k < |articles| ==> r.value.headlines[k] == HeadlineDict(articles[k])
  {
    match fetch(PageUrl(date, page))
    case None => None
    case Some(p) => if |p.articles| == 0 then None else Some(Digest(date, Headlines(p.articles)))
  }

  function PageUnits(fetch: Fetch, date: string, page: nat): seq<Unit>
  {
    match Emitted(fetch, date, page)
    case None => []
    case Some(g) => [Unit(date, page, g)]
  }

  /** The digests of pages 1 through `count` of `date`, in page order. */
  function DayUnits(fetch: Fetch, date: string, count: nat): seq<Unit>
    decreases count
  {
    if count == 0 then [] else DayUnits(fetch, date, count - 1) + PageUnits(fetch, date, count)
  }

  /** The digests of a sequence of processed days, day after day. */
  function Units(fetch: Fetch, visits: seq<Visit>): seq<Unit>
    decreases |visits|
  {
    if visits == [] then []
    else
      var last := visits[|visits| - 1];
      Units(fetch, visits[..|visits| - 1]) + DayUnits(fetch, last.date, last.pages)
  }

  function DigestsOf(units: seq<Unit>): (r: seq<Digest>)
    ensures |r| == |units| && forall i :: 0 <= i < |units| ==> r[i] == units[i].digest
  {
    seq(|units|, i requires 0 <= i < |units| => units[i].digest)
  }

  /**
   * The days `crawling` processes from `current` on, given the carried page
   * number: while `current <= today` as strings, the day is processed and the loop
   * moves to get_next_day's result; a raised exception ends the crawl.
   */
  function CrawlSchedule(fetch: Fetch, today: string, current: string, carried: Option<nat>): Schedule
    decreases DaysLeft(current)
  {
    if !LexLessEq(current, today) then Schedule([], None)
    else match ResolvePages(fetch, current, carried)
      case Err(e) => Schedule([], Some(e))
      case Ok(pages) =>
        match NextDay(current)
        case Err(e) => Schedule([Visit(current, pages)], Some(e))
        case Ok(next) =>
          NextDayDecreases(current);
          var rest := CrawlSchedule(fetch, today, next, Some(pages));
          Schedule([Visit(current, pages)] + rest.visits, rest.raised)
  }

  /**
   * crawling (crawl.py:165-194), with the clock's `datetime.today().strftime('%Y/%m/%d')`
   * given as `today`. Returns the list the source appends to the module-level
   * `crawled` (empty before the one call, crawl.py:204-206), and the exception that
   * ended the loop, if one did.
   */
  method Crawling(fetch: Fetch, today: string, startingDate: string) returns (crawled: seq<Digest>, raised: Option<Raised>)
    ensures var s := CrawlSchedule(fetch, today, startingDate, None);
      crawled == DigestsOf(Units(fetch, s.visits)) && raised == s.raised
  {
    ghost var whole := CrawlSchedule(fetch, today, startingDate, None);
    ghost var done: seq<Visit> := [];
    crawled, raised := [], None;
    var currentDate := startingDate;
    // Python's local `number_of_pages`: None until the first day's page number is
    // resolved; from then on the number the previous day used.
    var numberOfPages: Option<nat> := None;
    RemainsStart(fetch, today, startingDate);
    while LexLessEq(currentDate, today)
      invariant Remains(fetch, today, whole, done, currentDate, numberOfPages)
      invariant crawled == DigestsOf(Units(fetch, done))
      decreases DaysLeft(currentDate)
    {
      var resolved := PagesForDay(fetch, currentDate, numberOfPages);
      if resolved.Err? {
        RemainsRaised(fetch, today, whole, done, currentDate, numberOfPages);
        raised := Some(resolved.error);
        return;
      }
      var pages := resolved.value;
      var dayDigests := CrawlPages(fetch, currentDate, pages);
      CrawledStep(fetch, done, Visit(currentDate, pages), crawled, dayDigests);
      crawled := crawled + dayDigests;
      var next := NextDay(currentDate);
      RemainsStep(fetch, today, whole, done, currentDate, numberOfPages, pages);
      done := done + [Visit(currentDate, pages)];
      numberOfPages := Some(pages);
      if next.Err? {
        raised := Some(next.error);
        return;
      }
      NextDayDecreases(currentDate);
      currentDate := next.value;
    }
    RemainsEnd(fetch, today, whole, done, currentDate, numberOfPages);
  }

  /**
   * Lines 174-178 of one day: the page number of the inner loop. `carried` is the
   * local `number_of_pages` on entry, None while it has never been assigned.
   */
  method PagesForDay(fetch: Fetch, currentDate: string, carried: Option<nat>) returns (r: Result<nat, Raised>)
    ensures r == ResolvePages(fetch, currentDate, carried)
  {
    var numberOfPages := carried;
    var bound := carried.Some?;
    var soup := fetch(RootUrl(currentDate));
    if soup.Some? {
      numberOfPages, bound := NumberOfPagesToday(soup.value), true;
    }
    if !bound {
      return Err(UnboundLocalError);
    }
    if numberOfPages.None? {
      numberOfPages := Some(1);
    }
    r := Ok(numberOfPages.value);
  }

  /** The inner loop of `crawling` (crawl.py:179-193): pages 1 through `pages` of one day. */
  method CrawlPages(fetch: Fetch, currentDate: string, pages: nat) returns (digests: seq<Digest>)
    ensures digests == DigestsOf(DayUnits(fetch, currentDate, pages))
  {
    digests := [];
    for pageNum := 0 to pages
      invariant digests == DigestsOf(DayUnits(fetch, currentDate, pageNum))
    {
      var pageSoup := fetch(PageUrl(currentDate, pageNum + 1));
      if pageSoup.Some? {
        var articles := pageSoup.value.articles;
        if |articles| > 0 {
          var headlines := CollectHeadlines(articles);
          digests := digests + [Digest(currentDate, headlines)];
        }
      }
      DayDigestsStep(fetch, currentDate, pageNum);
    }
  }

  /** One turn of the page loop: the page's digest, if it gives one, follows the earlier pages' digests. */
  lemma DayDigestsStep(fetch: Fetch, date: string, page: nat)
    ensures DigestsOf(DayUnits(fetch, date, page + 1)) ==
      DigestsOf(DayUnits(fetch, date, page)) +
      match fetch(PageUrl(date, page + 1))
      case Some(p) => if |p.articles| > 0 then [Digest(date, Headlines(p.articles))] else []
      case None => []
  {
    DigestsOfConcat(DayUnits(fetch, date, page), PageUnits(fetch, date, page + 1));
  }

  /** The loop over a page's article blocks (crawl.py:187-190). */
  method CollectHeadlines(articles: seq<ArticleBlock>) returns (headlines: seq<Headline>)
    ensures headlines == Headlines(articles)
  {
    headlines := [];
    for i := 0 to |articles|
      invariant headlines == Headlines(articles[..i])
    {
      assert articles[..i + 1][..i] == articles[..i];
      headlines := headlines + [HeadlineDict(articles[i])];
    }
    assert articles[..|articles|] == articles;
  }

  /** One turn of the outer loop, for a day whose page number was resolved. */
  lemma ScheduleStep(fetch: Fetch, today: string, current: string, carried: Option<nat>, pages: nat)
    requires LexLessEq(current, today) && ResolvePages(fetch, current, carried) == Ok(pages)
    ensures NextDay(current).Err? ==>
      CrawlSchedule(fetch, today, current, carried) == Schedule([Visit(current, pages)], Some(NextDay(current).error))
    ensures NextDay(current).Ok? ==>
      var rest := CrawlSchedule(fetch, today, NextDay(current).value, Some(pages));
      CrawlSchedule(fetch, today, current, carried) == Schedule([Visit(current, pages)] + rest.visits, rest.raised)
  {
  }

  /**
   * The loop invariant of `crawling`: the whole crawl is the days processed so far
   * followed by the crawl from `current` on with the carried page number.
   */
  ghost predicate Remains(fetch: Fetch, today: string, whole: Schedule, done: seq<Visit>, current: string, carried: Option<nat>)
  {
    var rest := CrawlSchedule(fetch, today, current, carried);
    whole == Schedule(done + rest.visits, rest.raised)
  }

  /** Before the first day nothing is done and the whole crawl remains. */
  lemma RemainsStart(fetch: Fetch, today: string, start: string)
    ensures Remains(fetch, today, CrawlSchedule(fetch, today, start, None), [], start, None)
  {
    assert [] + CrawlSchedule(fetch, today, start, None).visits == CrawlSchedule(fetch, today, start, None).visits;
  }

  /** The day's page number cannot be resolved: the crawl ends with that exception. */
  lemma RemainsRaised(fetch: Fetch, today: string, whole: Schedule, done: seq<Visit>, current: string, carried: Option<nat>)
    requires Remains(fetch, today, whole, done, current, carried)
    requires LexLessEq(current, today) && ResolvePages(fetch, current, carried).Err?
    ensures whole == Schedule(done, Some(ResolvePages(fetch, current, carried).error))
  {
    assert done + [] == done;
  }

  /** A processed day joins `done`; get_next_day's exception ends the crawl after it. */
  lemma RemainsStep(fetch: Fetch, today: string, whole: Schedule, done: seq<Visit>, current: string, carried: Option<nat>, pages: nat)
    requires Remains(fetch, today, whole, done, current, carried)
    requires LexLessEq(current, today) && ResolvePages(fetch, current, carried) == Ok(pages)
    ensures NextDay(current).Err? ==> whole == Schedule(done + [Visit(current, pages)], Some(NextDay(current).error))
    ensures NextDay(current).Ok? ==>
      Remains(fetch, today, whole, done + [Visit(current, pages)], NextDay(current).value, Some(pages))
  {
    ScheduleStep(fetch, today, current, carried, pages);
    if NextDay(current).Err? {
      assert done + [Visit(current, pages)] + [] == done + [Visit(current, pages)];
    } else {
      var rest := CrawlSchedule(fetch, today, NextDay(current).value, Some(pages));
      VisitsAssoc(done, Visit(current, pages), rest.visits);
    }
  }

  /** The loop test fails: nothing remains. */
  lemma RemainsEnd(fetch: Fetch, today: string, whole: Schedule, done: seq<Visit>, current: string, carried: Option<nat>)
    requires Remains(fetch, today, whole, done, current, carried) && !LexLessEq(current, today)
    ensures whole == Schedule(done, None)
  {
    assert done + [] == done;
  }

  /** A processed day's digests follow the earlier ones. */
  lemma CrawledStep(fetch: Fetch, done: seq<Visit>, v: Visit, crawled: seq<Digest>, dayDigests: seq<Digest>)
    requires crawled == DigestsOf(Units(fetch, done))
    requires dayDigests == DigestsOf(DayUnits(fetch, v.date, v.pages))
    ensures crawled + dayDigests == DigestsOf(Units(fetch, done + [v]))
  {
    UnitsSnoc(fetch, done, v);
    DigestsOfConcat(Units(fetch, done), DayUnits(fetch, v.date, v.pages));
  }

  lemma UnitsSnoc(fetch: Fetch, visits: seq<Visit>, v: Visit)
    ensures Units(fetch, visits + [v]) == Units(fetch, visits) + DayUnits(fetch, v.date, v.pages)
  {
    assert (visits + [v])[..|visits|] == visits;
  }

  lemma VisitsAssoc(a: seq<Visit>, v: Visit, b: seq<Visit>)
    ensures a + ([v] + b) == (a + [v]) + b
  {
  }

  lemma DigestsOfConcat(a: seq<Unit>, b: seq<Unit>)
    ensures DigestsOf(a + b) == DigestsOf(a) + DigestsOf(b)
  {
  }
}
