/**
 * What `crawling` (crawl.py:165-194) promises about the days it visits and the
 * digests it produces, stated on the schedule and unit functions of the Crawler
 * module; Crawler.Crawling is proved to return exactly those.
 */
module CrawlProperties {
  import opened Outcomes
  import opened Calendar
  import opened Text
  import opened DateFormat
  import opened ArchiveUrls
  import opened Crawler
  import opened Chains
  import opened Extraction
  import PageCount

  /** The outer loop moves from `a`'s date to `b`'s with get_next_day. */
  ghost predicate Follows(a: Visit, b: Visit)
  {
    NextDay(a.date) == Ok(b.date)
  }

  /** `b`'s page number is the one ResolvePages gives with `a`'s carried in. */
  ghost predicate Carries(fetch: Fetch, a: Visit, b: Visit)
  {
    ResolvePages(fetch, b.date, Some(a.pages)) == Ok(b.pages)
  }

  /** The calendar day of a string strptime accepts (days since 0001/01/01, from 1); 0 for any other string. */
  ghost function DayNumber(s: string): int
  {
    match ParseStrptime(s)
    case Some(d) => Ordinal(d)
    case None => 0
  }

  /** `x` and `y` are dates and `x` is the earlier. */
  ghost predicate DayBefore(x: string, y: string)
  {
    ParseStrptime(x).Some? && ParseStrptime(y).Some? && DayNumber(x) < DayNumber(y)
  }

  /**
   * The days visited from `current` on: all pass the loop test against `today`,
   * the first is `current`, each is get_next_day of the one before, and each
   * day's page number is ResolvePages with the previous day's number carried in.
   */
  lemma ScheduleShape(fetch: Fetch, today: string, current: string, carried: Option<nat>)
    ensures forall i :: 0 <= i < |CrawlSchedule(fetch, today, current, carried).visits| ==>
      LexLessEq(CrawlSchedule(fetch, today, current, carried).visits[i].date, today)
    ensures CrawlSchedule(fetch, today, current, carried).visits != [] ==>
      CrawlSchedule(fetch, today, current, carried).visits[0].date == current
      && ResolvePages(fetch, current, carried) == Ok(CrawlSchedule(fetch, today, current, carried).visits[0].pages)
    ensures Linked(CrawlSchedule(fetch, today, current, carried).visits, Follows)
    ensures Linked(CrawlSchedule(fetch, today, current, carried).visits,
      (a: Visit, b: Visit) => Carries(fetch, a, b))
  {
    ScheduleBounded(fetch, today, current, carried);
    ScheduleFollows(fetch, today, current, carried);
    SchedulePages(fetch, today, current, carried);
  }

  lemma {:induction false} ScheduleBounded(fetch: Fetch, today: string, current: string, carried: Option<nat>)
    ensures Every(CrawlSchedule(fetch, today, current, carried).visits, (w: Visit) => LexLessEq(w.date, today))
    decreases DaysLeft(current)
  {
    if LexLessEq(current, today) && ResolvePages(fetch, current, carried).Ok? {
      var pages := ResolvePages(fetch, current, carried).value;
      ScheduleStep(fetch, today, current, carried, pages);
      if NextDay(current).Ok? {
        var next := NextDay(current).value;
        NextDayDecreases(current);
        ScheduleBounded(fetch, today, next, Some(pages));
        EveryCons(Visit(current, pages), CrawlSchedule(fetch, today, next, Some(pages)).visits, (w: Visit) => LexLessEq(w.date, today));
      }
    }
  }

  lemma {:induction false} ScheduleFollows(fetch: Fetch, today: string, current: string, carried: Option<nat>)
    ensures CrawlSchedule(fetch, today, current, carried).visits != [] ==>
      CrawlSchedule(fetch, today, current, carried).visits[0].date == current
    ensures Linked(CrawlSchedule(fetch, today, current, carried).visits, Follows)
    decreases DaysLeft(current)
  {
    if LexLessEq(current, today) && ResolvePages(fetch, current, carried).Ok? {
      var pages := ResolvePages(fetch, current, carried).value;
      ScheduleStep(fetch, today, current, carried, pages);
      if NextDay(current).Ok? {
        var next := NextDay(current).value;
        NextDayDecreases(current);
        ScheduleFollows(fetch, today, next, Some(pages));
        LinkedCons(Visit(current, pages), CrawlSchedule(fetch, today, next, Some(pages)).visits, Follows);
      }
    }
  }

  lemma {:induction false} SchedulePages(fetch: Fetch, today: string, current: string, carried: Option<nat>)
    ensures CrawlSchedule(fetch, today, current, carried).visits != [] ==>
      ResolvePages(fetch, current, carried) == Ok(CrawlSchedule(fetch, today, current, carried).visits[0].pages)
    ensures Linked(CrawlSchedule(fetch, today, current, carried).visits,
      (a: Visit, b: Visit) => Carries(fetch, a, b))
    decreases DaysLeft(current)
  {
    if LexLessEq(current, today) && ResolvePages(fetch, current, carried).Ok? {
      var pages := ResolvePages(fetch, current, carried).value;
      ScheduleStep(fetch, today, current, carried, pages);
      if NextDay(current).Ok? {
        var next := NextDay(current).value;
        NextDayDecreases(current);
        SchedulePages(fetch, today, next, Some(pages));
        ScheduleFollows(fetch, today, next, Some(pages));
        var rest := CrawlSchedule(fetch, today, next, Some(pages)).visits;
        assert rest != [] ==> Carries(fetch, Visit(current, pages), rest[0]);
        LinkedCons(Visit(current, pages), CrawlSchedule(fetch, today, next, Some(pages)).visits,
          (a: Visit, b: Visit) => Carries(fetch, a, b));
      }
    }
  }

  /**
   * How the crawl from `current` ends. Without an exception, it stops at the first
   * day that fails the loop test. UnboundLocalError comes only before any day is
   * done, on a first day whose root page is not fetched and with no page number
   * yet. Any other exception is get_next_day's, on the last visited day.
   */
  lemma {:induction false} ScheduleEnd(fetch: Fetch, today: string, current: string, carried: Option<nat>)
    ensures var s := CrawlSchedule(fetch, today, current, carried);
      s.raised.None? ==>
        if s.visits == [] then !LexLessEq(current, today)
        else NextDay(Last(s.visits).date).Ok? && !LexLessEq(NextDay(Last(s.visits).date).value, today)
    ensures var s := CrawlSchedule(fetch, today, current, carried);
      s.raised == Some(UnboundLocalError) <==>
        s.visits == [] && LexLessEq(current, today) && carried.None? && fetch(RootUrl(current)).None?
    ensures var s := CrawlSchedule(fetch, today, current, carried);
      s.raised.Some? && s.raised != Some(UnboundLocalError) ==>
        s.visits != [] && NextDay(Last(s.visits).date) == Err(s.raised.value)
    decreases DaysLeft(current)
  {
    if LexLessEq(current, today) && ResolvePages(fetch, current, carried).Ok? {
      var pages := ResolvePages(fetch, current, carried).value;
      ScheduleStep(fetch, today, current, carried, pages);
      if NextDay(current).Ok? {
        var next := NextDay(current).value;
        NextDayDecreases(current);
        ScheduleEnd(fetch, today, next, Some(pages));
        LastCons(Visit(current, pages), CrawlSchedule(fetch, today, next, Some(pages)).visits);
      }
    }
  }

  function Last<T>(s: seq<T>): T
    requires s != []
  {
    s[|s| - 1]
  }

  lemma LastCons<T>(v: T, s: seq<T>)
    ensures Last([v] + s) == if s == [] then v else Last(s)
  {
  }

  /**
   * Consecutive days are consecutive calendar days: any later visit is a date
   * exactly as many days on as it is visits on, and every visit after the first
   * is the zero-padded text of its date.
   */
  lemma ConsecutiveDays(vs: seq<Visit>)
    requires Linked(vs, Follows)
    ensures forall i :: 0 < i < |vs| ==> IsCanonical(vs[i].date)
    ensures forall i, j :: 0 <= i < j < |vs| ==>
      DayBefore(vs[i].date, vs[j].date) && DayNumber(vs[j].date) == DayNumber(vs[i].date) + (j - i)
  {
    var f := (v: Visit) => DayNumber(v.date);
    forall i | 0 <= i < |vs| - 1 ensures f(vs[i + 1]) == f(vs[i]) + 1 {
      FollowsStep(vs[i], vs[i + 1]);
    }
    Counted(vs, f);
    forall i | 0 < i < |vs| ensures IsCanonical(vs[i].date) {
      FollowsStep(vs[i - 1], vs[i - 1 + 1]);
    }
    forall i, j | 0 <= i < j < |vs|
      ensures DayBefore(vs[i].date, vs[j].date) && DayNumber(vs[j].date) == DayNumber(vs[i].date) + (j - i)
    {
      FollowsStep(vs[i], vs[i + 1]);
      FollowsStep(vs[j - 1], vs[j - 1 + 1]);
      assert f(vs[j]) == f(vs[i]) + (j - i);
    }
  }

  /** One step of the outer loop: from a date to the canonical text of the next calendar day. */
  lemma FollowsStep(a: Visit, b: Visit)
    requires Follows(a, b)
    ensures ParseStrptime(a.date).Some? && IsCanonical(b.date) && DayNumber(b.date) == DayNumber(a.date) + 1
  {
    NextDaySpec(a.date);
  }

  /** For texts that are canonical dates, string order is calendar order. */
  lemma CanonicalOrder(x: string, y: string)
    requires IsCanonical(x) && IsCanonical(y)
    ensures LexLessEq(x, y) <==> DayNumber(x) <= DayNumber(y)
    ensures x == y <==> DayNumber(x) == DayNumber(y)
  {
    var a, b := ParseStrptime(x).value, ParseStrptime(y).value;
    FormatOrder(a, b);
    OrdinalOrder(a, b);
  }

  /**
   * With the clock's text `today` of date `t`: every visited day written
   * zero-padded, which is every day after the first, is on or before `t`.
   */
  lemma NotAfterToday(fetch: Fetch, t: Date, current: string, carried: Option<nat>)
    requires IsValid(t)
    ensures var vs := CrawlSchedule(fetch, Format(t), current, carried).visits;
      forall i :: 0 <= i < |vs| && IsCanonical(vs[i].date) ==> DayNumber(vs[i].date) <= Ordinal(t)
  {
    var vs := CrawlSchedule(fetch, Format(t), current, carried).visits;
    ScheduleShape(fetch, Format(t), current, carried);
    FormatCanonical(t);
    ParseFormat(t);
    forall i | 0 <= i < |vs| && IsCanonical(vs[i].date) ensures DayNumber(vs[i].date) <= Ordinal(t) {
      CanonicalOrder(vs[i].date, Format(t));
    }
  }

  /**
   * From the date `start` to the date `today`, both written zero-padded, the crawl
   * visits every day of the range, oldest first, once each, unless the first day
   * raises UnboundLocalError; the only exception after a complete range is the
   * overflow past 9999/12/31.
   */
  lemma CompleteRange(fetch: Fetch, today: string, start: string, carried: Option<nat>)
    requires IsCanonical(start) && IsCanonical(today) && DayNumber(start) <= DayNumber(today)
    ensures var s := CrawlSchedule(fetch, today, start, carried);
      s.raised == Some(UnboundLocalError) ==> s.visits == [] && carried.None?
    ensures var s := CrawlSchedule(fetch, today, start, carried);
      s.raised != Some(UnboundLocalError) ==>
        |s.visits| == DayNumber(today) - DayNumber(start) + 1
        && (forall i :: 0 <= i < |s.visits| ==>
              IsCanonical(s.visits[i].date) && DayNumber(s.visits[i].date) == DayNumber(start) + i)
        && (s.raised.None? || (ParseStrptime(today) == Some(MAX_DATE) && s.raised == Some(OverflowError)))
  {
    var s := CrawlSchedule(fetch, today, start, carried);
    ScheduleShape(fetch, today, start, carried);
    ScheduleEnd(fetch, today, start, carried);
    if s.raised != Some(UnboundLocalError) {
      RangeVisits(today, start, s.visits, s.raised);
    }
  }

  /**
   * CompleteRange on the visits alone: a chain of get_next_day steps from `start`,
   * each day on or before `today`, that stops as CrawlSchedule does.
   */
  lemma RangeVisits(today: string, start: string, vs: seq<Visit>, raised: Option<Raised>)
    requires IsCanonical(start) && IsCanonical(today) && DayNumber(start) <= DayNumber(today)
    requires Linked(vs, Follows)
    requires forall i :: 0 <= i < |vs| ==> LexLessEq(vs[i].date, today)
    requires vs != [] ==> vs[0].date == start
    requires raised.None? ==>
      if vs == [] then !LexLessEq(start, today)
      else NextDay(Last(vs).date).Ok? && !LexLessEq(NextDay(Last(vs).date).value, today)
    requires raised.Some? ==> vs != [] && NextDay(Last(vs).date) == Err(raised.value)
    ensures |vs| == DayNumber(today) - DayNumber(start) + 1
    ensures forall i :: 0 <= i < |vs| ==> IsCanonical(vs[i].date) && DayNumber(vs[i].date) == DayNumber(start) + i
    ensures raised.None? || (ParseStrptime(today) == Some(MAX_DATE) && raised == Some(OverflowError))
  {
    CanonicalOrder(start, today);
    ConsecutiveDays(vs);
    forall i | 0 <= i < |vs| ensures IsCanonical(vs[i].date) && DayNumber(vs[i].date) == DayNumber(start) + i {
      if i > 0 {
        assert DayNumber(vs[i].date) == DayNumber(vs[0].date) + (i - 0);
      }
    }
    LastDay(today, DayNumber(start), vs, raised);
  }

  /** The step of RangeVisits about the last visited day and the reason the crawl stopped after it. */
  lemma LastDay(today: string, first: int, vs: seq<Visit>, raised: Option<Raised>)
    requires IsCanonical(today)
    requires vs != [] && LexLessEq(Last(vs).date, today)
    requires forall i :: 0 <= i < |vs| ==> IsCanonical(vs[i].date) && DayNumber(vs[i].date) == first + i
    requires raised.None? ==> NextDay(Last(vs).date).Ok? && !LexLessEq(NextDay(Last(vs).date).value, today)
    requires raised.Some? ==> NextDay(Last(vs).date) == Err(raised.value)
    ensures |vs| == DayNumber(today) - first + 1
    ensures raised.None? || (ParseStrptime(today) == Some(MAX_DATE) && raised == Some(OverflowError))
  {
    var last := Last(vs).date;
    assert IsCanonical(last) && DayNumber(last) == first + |vs| - 1;
    var t := ParseStrptime(today).value;
    CanonicalOrder(last, today);
    NextDaySpec(last);
    OrdinalAtMostMax(t);
    if raised.None? {
      CanonicalOrder(NextDay(last).value, today);
    } else {
      OrdinalAtMostMax(ParseStrptime(last).value);
      OrdinalOrder(t, MAX_DATE);
    }
  }

  /** `u` is the digest page `u.page` of `u.date` gives. */
  ghost predicate Emits(fetch: Fetch, u: Unit)
  {
    Emitted(fetch, u.date, u.page) == Some(u.digest)
  }

  /** Every unit of `r` is a digest of one of pages 1 through `count` of `date`. */
  ghost predicate DaySound(fetch: Fetch, date: string, count: nat, r: seq<Unit>)
  {
    forall k :: 0 <= k < |r| ==> r[k].date == date && 1 <= r[k].page <= count && Emits(fetch, r[k])
  }

  /** Every page 1 through `count` of `date` that gives a digest has its unit in `r`. */
  ghost predicate DayComplete(fetch: Fetch, date: string, count: nat, r: seq<Unit>)
  {
    forall p :: 1 <= p <= count && Emitted(fetch, date, p).Some? ==>
      Unit(date, p, Emitted(fetch, date, p).value) in r
  }

  ghost predicate PagesIncrease(r: seq<Unit>)
  {
    forall a, b :: 0 <= a < b < |r| ==> r[a].page < r[b].page
  }

  /**
   * Within one day (crawl.py:179-193): the units of pages 1 through `count` are,
   * in ascending page order, exactly the digests of the pages that give one.
   */
  lemma DayUnitsSpec(fetch: Fetch, date: string, count: nat)
    ensures DaySound(fetch, date, count, DayUnits(fetch, date, count))
    ensures DayComplete(fetch, date, count, DayUnits(fetch, date, count))
    ensures PagesIncrease(DayUnits(fetch, date, count))
  {
    DayUnitsSound(fetch, date, count);
    DayUnitsComplete(fetch, date, count);
  }

  /** The unit list of one page: its digest, if it gives one. */
  lemma PageUnitsShape(fetch: Fetch, date: string, page: nat)
    ensures PageUnits(fetch, date, page) ==
      if Emitted(fetch, date, page).Some? then [Unit(date, page, Emitted(fetch, date, page).value)] else []
  {
  }

  lemma {:induction false} DayUnitsSound(fetch: Fetch, date: string, count: nat)
    ensures DaySound(fetch, date, count, DayUnits(fetch, date, count))
    ensures PagesIncrease(DayUnits(fetch, date, count))
    decreases count
  {
    if count > 0 {
      DayUnitsSound(fetch, date, count - 1);
      var p, q := DayUnits(fetch, date, count - 1), PageUnits(fetch, date, count);
      assert DayUnits(fetch, date, count) == p + q;
      PageUnitsShape(fetch, date, count);
      var P := (u: Unit) => u.date == date && 1 <= u.page <= count && Emits(fetch, u);
      forall k | 0 <= k < |p| ensures P(p[k]) {
      }
      EveryAppend(p, q, P);
      forall k | 0 <= k < |p + q| ensures (p + q)[k].date == date && 1 <= (p + q)[k].page <= count && Emits(fetch, (p + q)[k]) {
        assert P((p + q)[k]);
      }
      forall k | 0 <= k < |p| ensures p[k].page < count {
      }
      forall k | 0 <= k < |q| ensures q[k].page == count {
        assert q[k] == q[0];
      }
      IncreasingAppend(p, q, count);
    }
  }

  lemma {:induction false} DayUnitsComplete(fetch: Fetch, date: string, count: nat)
    ensures DayComplete(fetch, date, count, DayUnits(fetch, date, count))
    decreases count
  {
    if count > 0 {
      DayUnitsComplete(fetch, date, count - 1);
      var p, q := DayUnits(fetch, date, count - 1), PageUnits(fetch, date, count);
      assert DayUnits(fetch, date, count) == p + q;
      PageUnitsShape(fetch, date, count);
      forall pg | 1 <= pg <= count && Emitted(fetch, date, pg).Some?
        ensures Unit(date, pg, Emitted(fetch, date, pg).value) in p + q
      {
        var u := Unit(date, pg, Emitted(fetch, date, pg).value);
        if pg < count {
          InAppend(u, p, q);
        } else {
          assert q == [u] && (p + q)[|p|] == u;
        }
      }
    }
  }

  lemma InAppend(u: Unit, p: seq<Unit>, q: seq<Unit>)
    requires u in p
    ensures u in p + q
  {
    var k :| 0 <= k < |p| && p[k] == u;
    assert (p + q)[k] == u;
  }

  /** Appending the unit of page `count`, if any, to units of lower pages keeps pages ascending. */
  lemma IncreasingAppend(p: seq<Unit>, q: seq<Unit>, count: nat)
    requires PagesIncrease(p) && |q| <= 1
    requires forall k :: 0 <= k < |p| ==> p[k].page < count
    requires forall k :: 0 <= k < |q| ==> q[k].page == count
    ensures PagesIncrease(p + q)
  {
    var r := p + q;
    forall a, b | 0 <= a < b < |r| ensures r[a].page < r[b].page {
      if b < |p| {
        assert r[a] == p[a] && r[b] == p[b];
      } else {
        assert r[a] == p[a] && r[b] == q[0];
      }
    }
  }

  /** Every unit of `r` is a digest of a page within the page number of a visited day with its date. */
  ghost predicate Sound(fetch: Fetch, vs: seq<Visit>, r: seq<Unit>)
  {
    forall k :: 0 <= k < |r| ==>
      exists i :: 0 <= i < |vs| && r[k].date == vs[i].date && 1 <= r[k].page <= vs[i].pages && Emits(fetch, r[k])
  }

  /** Every page within a visited day's page number that gives a digest has its unit in `r`. */
  ghost predicate Complete(fetch: Fetch, vs: seq<Visit>, r: seq<Unit>)
  {
    forall i, p :: 0 <= i < |vs| && 1 <= p <= vs[i].pages && Emitted(fetch, vs[i].date, p).Some? ==>
      Unit(vs[i].date, p, Emitted(fetch, vs[i].date, p).value) in r
  }

  /** Over a run of days: the units are exactly the digests of the pages within the days' page numbers. */
  lemma {:induction false} UnitsSpec(fetch: Fetch, vs: seq<Visit>)
    ensures Sound(fetch, vs, Units(fetch, vs))
    ensures Complete(fetch, vs, Units(fetch, vs))
    decreases |vs|
  {
    if vs != [] {
      var front, last := vs[..|vs| - 1], vs[|vs| - 1];
      UnitsSpec(fetch, front);
      DayUnitsSpec(fetch, last.date, last.pages);
      var p, q := Units(fetch, front), DayUnits(fetch, last.date, last.pages);
      var r := p + q;
      assert Units(fetch, vs) == r;
      forall k | 0 <= k < |r|
        ensures exists i :: 0 <= i < |vs| && r[k].date == vs[i].date && 1 <= r[k].page <= vs[i].pages && Emits(fetch, r[k])
      {
        if k < |p| {
          assert r[k] == p[k];
          var i :| 0 <= i < |front| && p[k].date == front[i].date && 1 <= p[k].page <= front[i].pages && Emits(fetch, p[k]);
          assert vs[i] == front[i];
        } else {
          assert r[k] == q[k - |p|];
          assert vs[|vs| - 1] == last;
        }
      }
      forall i, pg | 0 <= i < |vs| && 1 <= pg <= vs[i].pages && Emitted(fetch, vs[i].date, pg).Some?
        ensures Unit(vs[i].date, pg, Emitted(fetch, vs[i].date, pg).value) in r
      {
        if i < |front| {
          assert vs[i] == front[i];
        }
      }
    }
  }

  /** `r` is ordered by `earlier` on dates, and by page within a date. */
  ghost predicate Ordered(r: seq<Unit>, earlier: (string, string) -> bool)
  {
    forall a, b :: 0 <= a < b < |r| ==>
      earlier(r[a].date, r[b].date) || (r[a].date == r[b].date && r[a].page < r[b].page)
  }

  /** When the visited days are in `earlier` order, the output is ordered by date, and within a date by page. */
  lemma {:induction false} UnitsOrdered(fetch: Fetch, vs: seq<Visit>, earlier: (string, string) -> bool)
    requires forall i, j :: 0 <= i < j < |vs| ==> earlier(vs[i].date, vs[j].date)
    ensures Ordered(Units(fetch, vs), earlier)
    decreases |vs|
  {
    if vs != [] {
      var front, last := vs[..|vs| - 1], vs[|vs| - 1];
      forall i, j | 0 <= i < j < |front| ensures earlier(front[i].date, front[j].date) {
        assert front[i] == vs[i] && front[j] == vs[j];
      }
      UnitsOrdered(fetch, front, earlier);
      UnitsSpec(fetch, front);
      DayUnitsSpec(fetch, last.date, last.pages);
      var p, q := Units(fetch, front), DayUnits(fetch, last.date, last.pages);
      assert Units(fetch, vs) == p + q;
      forall k | 0 <= k < |p| ensures earlier(p[k].date, last.date) {
        var i :| 0 <= i < |front| && p[k].date == front[i].date && 1 <= p[k].page <= front[i].pages && Emits(fetch, p[k]);
        assert front[i] == vs[i];
      }
      OrderedAppend(p, q, last.date, earlier);
    }
  }

  /** Units of a later day, in page order, may follow units ordered by date. */
  lemma OrderedAppend(p: seq<Unit>, q: seq<Unit>, date: string, earlier: (string, string) -> bool)
    requires Ordered(p, earlier) && PagesIncrease(q)
    requires forall k :: 0 <= k < |q| ==> q[k].date == date
    requires forall k :: 0 <= k < |p| ==> earlier(p[k].date, date)
    ensures Ordered(p + q, earlier)
  {
    var r := p + q;
    forall a, b | 0 <= a < b < |r|
      ensures earlier(r[a].date, r[b].date) || (r[a].date == r[b].date && r[a].page < r[b].page)
    {
      if b < |p| {
        assert r[a] == p[a] && r[b] == p[b];
      } else if a >= |p| {
        assert r[a] == q[a - |p|] && r[b] == q[b - |p|];
      } else {
        assert r[a] == p[a] && r[b] == q[b - |p|];
      }
    }
  }

  /** Each digest carries the date of the day it was crawled for. */
  lemma DigestDates(fetch: Fetch, vs: seq<Visit>)
    ensures forall k :: 0 <= k < |Units(fetch, vs)| ==> Units(fetch, vs)[k].digest.date == Units(fetch, vs)[k].date
  {
    UnitsSpec(fetch, vs);
    var r := Units(fetch, vs);
    forall k | 0 <= k < |r| ensures r[k].digest.date == r[k].date {
      assert Emits(fetch, r[k]);
    }
  }

  /**
   * The output of `crawling`: every digest is for a day that passed the loop test
   * against `today` and carries that day's date; digests come in calendar order
   * of their dates and, within a date, in page order; and a page's digest is in
   * the output exactly when the page is within its visited day's page number
   * and is fetched with article blocks.
   */
  lemma CrawlingOutput(fetch: Fetch, today: string, start: string)
    ensures var vs := CrawlSchedule(fetch, today, start, None).visits;
      forall k :: 0 <= k < |Units(fetch, vs)| ==>
        LexLessEq(Units(fetch, vs)[k].date, today) && Units(fetch, vs)[k].digest.date == Units(fetch, vs)[k].date
    ensures Ordered(Units(fetch, CrawlSchedule(fetch, today, start, None).visits), DayBefore)
    ensures var vs := CrawlSchedule(fetch, today, start, None).visits;
      Sound(fetch, vs, Units(fetch, vs)) && Complete(fetch, vs, Units(fetch, vs))
  {
    var vs := CrawlSchedule(fetch, today, start, None).visits;
    ScheduleShape(fetch, today, start, None);
    ConsecutiveDays(vs);
    UnitsSpec(fetch, vs);
    UnitsOrdered(fetch, vs, DayBefore);
    DigestDates(fetch, vs);
    var r := Units(fetch, vs);
    forall k | 0 <= k < |r| ensures LexLessEq(r[k].date, today) {
      var i :| 0 <= i < |vs| && r[k].date == vs[i].date && 1 <= r[k].page <= vs[i].pages && Emits(fetch, r[k]);
    }
  }

  /** Every URL is a page whose total reads "of 2" and which holds one article. */
  function TwoPageSite(u: string): Option<Page>
  {
    Some(Page(Some("of 2"), [ArticleBlock(Some("A"), None, None)]))
  }

  /**
   * A one-day crawl whose root page says "of 2" and whose two pages hold one
   * article each: the day is visited with page number 2 and gives two digests,
   * for pages 1 and 2 in that order, each with the date and the one article's
   * headline dictionary.
   */
  lemma CrawlTwoPageDay()
    ensures CrawlSchedule(TwoPageSite, "2023/03/01", "2023/03/01", None) == Schedule([Visit("2023/03/01", 2)], None)
    ensures var g := Digest("2023/03/01", [HeadlineDict(ArticleBlock(Some("A"), None, None))]);
      DigestsOf(Units(TwoPageSite, [Visit("2023/03/01", 2)])) == [g, g]
    ensures var u := Units(TwoPageSite, [Visit("2023/03/01", 2)]);
      |u| == 2 && u[0].page == 1 && u[1].page == 2
  {
    TwoPageSiteSchedule();
    TwoPageSiteUnits();
    var g := Digest("2023/03/01", [HeadlineDict(ArticleBlock(Some("A"), None, None))]);
    DigestsOfPair(Unit("2023/03/01", 1, g), Unit("2023/03/01", 2, g));
  }

  lemma TwoPageSiteUnits()
    ensures var g := Digest("2023/03/01", [HeadlineDict(ArticleBlock(Some("A"), None, None))]);
      Units(TwoPageSite, [Visit("2023/03/01", 2)]) == [Unit("2023/03/01", 1, g), Unit("2023/03/01", 2, g)]
  {
    var vs := [Visit("2023/03/01", 2)];
    assert vs[..0] == [];
    TwoPageSiteDay();
  }

  lemma DigestsOfPair(a: Unit, b: Unit)
    ensures DigestsOf([a, b]) == [a.digest, b.digest]
  {
  }

  lemma TwoPageSiteSchedule()
    ensures CrawlSchedule(TwoPageSite, "2023/03/01", "2023/03/01", None) == Schedule([Visit("2023/03/01", 2)], None)
  {
    TwoPageSiteTotal();
    DayAfterFirstOfMarch();
    assert CrawlSchedule(TwoPageSite, "2023/03/01", "2023/03/02", Some(2)) == Schedule([], None);
  }

  lemma TwoPageSiteTotal()
    ensures ResolvePages(TwoPageSite, "2023/03/01", None) == Ok(2)
  {
    var t := "of 2";
    PageCount.MatchAtComplete(t, 0, 3, 4);
    assert t[3..4] == "2" && "2"[..0] == "";
  }

  lemma DayAfterFirstOfMarch()
    ensures NextDay("2023/03/01") == Ok("2023/03/02")
    ensures !LexLessEq("2023/03/02", "2023/03/01")
  {
    FormatText(Date(2023, 3, 1), "2023/03/01");
    FormatText(Date(2023, 3, 2), "2023/03/02");
    assert Successor(Date(2023, 3, 1)) == Date(2023, 3, 2);
    NextDayOfFormat(Date(2023, 3, 1));
    SuccessorIsNextDay(Date(2023, 3, 1));
    FormatOrder(Date(2023, 3, 2), Date(2023, 3, 1));
  }

  lemma TwoPageSiteDay()
    ensures var g := Digest("2023/03/01", [HeadlineDict(ArticleBlock(Some("A"), None, None))]);
      DayUnits(TwoPageSite, "2023/03/01", 2) == [Unit("2023/03/01", 1, g), Unit("2023/03/01", 2, g)]
  {
    var b := ArticleBlock(Some("A"), None, None);
    assert Headlines([b]) == [HeadlineDict(b)];
    assert DayUnits(TwoPageSite, "2023/03/01", 0) == [];
  }

  /** A first root page that cannot be fetched ends the crawl with UnboundLocalError before any day. */
  lemma CrawlFirstFetchFails()
    ensures CrawlSchedule((u: string) => None, "2023/03/01", "2023/03/01", None) == Schedule([], Some(UnboundLocalError))
  {
  }

  /** A carried page number of 0 is used again when the root fetch fails. */
  lemma CarriedZero()
    ensures ResolvePages((u: string) => None, "2023/03/01", Some(0)) == Ok(0)
  {
  }
}
