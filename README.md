# A verified model of the WSJ archive headline crawler

`crawl.py` walks the Wall Street Journal news archive one day at a time:

- It starts from a fixed date and continues while the date's text is `<=` today's text.
- For each day it fetches the archive root page `https://www.wsj.com/news/archive/YYYY/MM/DD`.
- It reads the number of pages from the root page's page picker ("of 12").
- It fetches each page `…/?page=N` in turn.
- For every page that comes back with article blocks, it appends one digest to a list: the date, plus one
  headline dictionary per article (`headline title`, `type`, `release time`).
- It moves to the next day with `get_next_day`.

This project models that controller and the pure helpers it rests on, in Dafny, and proves what they promise.

| module (file) | what it models |
|---|---|
| `Outcomes` (`outcomes.dfy`) | `Option`, `Result` and the Python exceptions the crawl can end with |
| `Text` (`text.dfy`) | Decimal numerals: `int(s)`, `str(n)`, zero padding. Python's `<` on `str`. |
| `Calendar` (`calendar.dfy`) | Proleptic Gregorian dates of `datetime` (years 1–9999), the successor of a date, and `toordinal` |
| `DateFormat` (`date_format.dfy`) | `strftime('%Y/%m/%d')`, `strptime(s, '%Y/%m/%d')`, and `get_next_day` |
| `ArchiveUrls` (`archive_urls.dfy`) | `extract_date_from_url`, `get_next_url`, and the archive URLs `crawling` builds |
| `PageCount` (`page_count.dfy`) | `extract_number`: `re.search(r'of\s+(\d+)', text)`, then `int` of the group |
| `Extraction` (`extraction.dfy`) | One parsed page as the crawler sees it; `get_headline_dict`, `get_number_of_pages_today` |
| `Crawler` (`crawler.dfy`) | `crawling` as a method with a `while` loop, an inner `for` loop over pages, and an inner loop over articles. Each is proved against a specification function. |
| `Chains` (`chains.dfy`) | Generic facts about every element, and every neighbouring pair, of a sequence |
| `CrawlProperties` (`crawl_properties.dfy`) | What the crawl's output is: the days it visits, the order of the digests, and exactly which pages give one |

The inputs of the model:

- **`fetch`:** the network and the HTML parser are a function parameter. It maps a URL to `None` (non-200 status or a failed request, as `get_soup` returns) or to a `Page`. The `Page` holds:
  - the text of the page-total span (`None` when the span is absent);
  - per article block, the texts of its headline span, type div and timestamp paragraph (`None` for an absent child).
- **`today`:** the clock reading `datetime.today().strftime('%Y/%m/%d')` is the string parameter `today`.

`Crawler.Crawling` returns two things:

- the list the source appends to the module-level `crawled`;
- the exception that ended the loop, if one did.

Unassigned `number_of_pages` (crawl.py:174-178):

- The local is assigned only when the day's root page is fetched.
- On a later day whose root fetch fails, the previous day's number is used again.
- On the first day there is none. The test `number_of_pages == None` then raises `UnboundLocalError`.

The model keeps exactly this behaviour:

- The carried number is an `Option<nat>`, and `None` means "never assigned".
- `ResolvePages`/`PagesForDay` return `Err(UnboundLocalError)` in that case.
- Initialising the number to 1 instead would make the model crawl a first day that the program never crawls.

`extract_number` can return 0 on "of 0". That gives a day with no pages.

Termination:

- The loop test is a string comparison, so termination is not obvious.
- The measure is `DateFormat.DaysLeft`: the number of days from the current date to 9999/12/31.
- Every successful `get_next_day` lowers it (`DateFormat.NextDayDecreases`).
- Past 9999/12/31, `get_next_day` raises `OverflowError`.
- So `Crawling` terminates for every `today` string, not only for formatted ones.

## Model

| member | source | states |
|---|---|---|
| Text.DecimalStringSpec | crawl.py:180 | `str(page_num+1)` in the page URL is a non-empty numeral of the page's value, with no leading zero |
| Text.PadOrder | crawl.py:22 | For zero-padded numerals of equal width, string order `<` is numeric order |
| Text.PadInjective | crawl.py:22 | Zero-padding a number is injective: equal padded texts come from equal numbers |
| Text.LexLessConcat | crawl.py:172 | Python's `str` `<` on concatenations whose first parts have equal length: the first parts decide, unless they are equal |
| Calendar.Successor | crawl.py:21 | `+ timedelta(days=1)` on a date before 9999/12/31 gives a representable date again |
| Calendar.SuccessorIsNextDay | crawl.py:21 | `+ timedelta(days=1)`: for a valid date other than 9999/12/31, the successor's day number is exactly one more |
| Calendar.OrdinalOrder | crawl.py:21 | Date order (year, then month, then day) is the order of day numbers; equal day numbers mean equal dates |
| Calendar.OrdinalAtMostMax | crawl.py:21 | Every representable date has a day number from 1 up to that of 9999/12/31, and only 9999/12/31 reaches it |
| Calendar.SuccessorUnique | crawl.py:21 | The successor is the only valid date whose day number is one more |
| DateFormat.NextDaySpec | crawl.py:14-23 | `NextDay` (`get_next_day`): success gives the zero-padded text of the day exactly one calendar day after the parsed one. ValueError exactly when `strptime` rejects the text (with `\d` read as ASCII digits). OverflowError exactly on 9999/12/31. Success exactly when the parsed date is before 9999/12/31, and no other exception. |
| DateFormat.ParseStrptime | crawl.py:20 | `strptime(s, '%Y/%m/%d')` returns only representable dates: a year from 1 to 9999 and a day that exists in its month |
| DateFormat.Format | crawl.py:22 | `strftime('%Y/%m/%d')` of a representable date has the `dddd/dd/dd` shape: four year digits, two month digits, two day digits |
| DateFormat.ParseFormat | crawl.py:20-22 | `strptime` undoes `strftime` on every representable date |
| DateFormat.FormatInjective | crawl.py:22 | Distinct dates have distinct `%Y/%m/%d` texts |
| DateFormat.NextDayOfFormat | crawl.py:14-23 | On a formatted date, the result is the formatted successor, or OverflowError on 9999/12/31 |
| DateFormat.FormatOrder | crawl.py:172 | For formatted dates, string `<` and `<=` are calendar order, so the loop test `current_date <= today` is chronological |
| DateFormat.NextDayIncreases | crawl.py:194 | On a formatted date before 9999/12/31, the next day's text is strictly greater as a string |
| DateFormat.NextDayDecreases | crawl.py:171-194 | Each successful `get_next_day` lowers the days left before 9999/12/31, so the crawl loop terminates for any `today` |
| DateFormat.NextDayFebruaryCommonYear | crawl.py:14-23 | 2023/02/28 is followed by 2023/03/01 |
| DateFormat.NextDayFebruaryLeapYear | crawl.py:14-23 | 2024/02/28 is followed by 2024/02/29, and 2024/02/29 by 2024/03/01 |
| DateFormat.NextDayYearEnd | crawl.py:14-23 | 2023/12/31 is followed by 2024/01/01, and 9999/12/31 raises OverflowError |
| DateFormat.NextDayNonexistentDate | crawl.py:20 | 2023/02/29, which does not exist, raises ValueError |
| DateFormat.NextDayUnpaddedInput | crawl.py:20-22 | `strptime` also accepts 2023/3/1; the result is zero-padded (2023/03/02) |
| ArchiveUrls.ExtractDateFromUrl | crawl.py:25-39 | A result is the URL's last ten characters. They have the `dddd/dd/dd` shape and a '/' comes before them. |
| ArchiveUrls.ExtractDateOfUrl | crawl.py:31-37 | Conversely, every URL ending in '/' and a `dddd/dd/dd` path yields exactly that path |
| ArchiveUrls.ExtractDateOfArchiveUrl | crawl.py:31-37 | Round trip: the date read back from `'https://www.wsj.com/news/archive/' + d` is `d` |
| ArchiveUrls.NextUrlCarriesNextDay | crawl.py:41-52 | `GetNextUrl` (`get_next_url`): `None` when the URL carries no date. Otherwise `get_next_day`'s exception, or a URL whose date reads back as `get_next_day` of the original date. |
| ArchiveUrls.RootUrlCarriesDate | crawl.py:173 | `RootUrl` (the day's archive URL): the root URL of a day gives that day back |
| ArchiveUrls.PageUrlInjective | crawl.py:180 | `PageUrl` (`url + '?page=' + str(page_num+1)`): different page numbers of one day are different URLs |
| PageCount.RunEnd | crawl.py:145 | The greedy run of `\s` or `\d` from a position: all its characters are in the class, and the next one is not |
| PageCount.RunEndUnique | crawl.py:145 | A maximal run is the greedy run |
| PageCount.MatchAtSound | crawl.py:145 | `MatchAt` (one anchored try of the pattern): a match found at a position is "of", whitespace and a maximal digit run, and yields that run's value |
| PageCount.MatchAtComplete | crawl.py:145 | `MatchAt`: every "of", whitespace, maximal-digit-run occurrence at a position is found there, with that value |
| PageCount.SearchFromSpec | crawl.py:145-150 | `SearchFrom` (the scan of `re.search`): the search from a position reports the leftmost match at or after it, or None exactly when there is none |
| PageCount.ExtractNumberSpec | crawl.py:139-150 | `ExtractNumber` (`extract_number`): None exactly when no "of" is followed by whitespace and digits. Otherwise the value (possibly 0) of the digit run of the leftmost such "of". |
| PageCount.ExtractNumberExamples | crawl.py:139-150 | "of 12" gives 12 and "of 0" gives 0; "of" and "" give None |
| Extraction.HeadlineDict | crawl.py:154-163 | Exactly the keys `headline title`, `type` and `release time`, each holding its own child's text or None |
| Extraction.MissingChildBlanksOnlyItsField | crawl.py:159-163 | A missing child sets its own field to None and leaves the other two unchanged |
| Extraction.HeadlineDictInjective | crawl.py:159-163 | Equal dictionaries come exactly from blocks with equal texts |
| Extraction.Headlines | crawl.py:187-190 | One dictionary per article block, in block order |
| Extraction.NumberOfPagesTodaySpec | crawl.py:125-138 | `get_number_of_pages_today`: None exactly when the total span is absent or its text has no "of" followed by whitespace and digits. Otherwise the value of the digit run after the leftmost such "of". |
| Crawler.ResolvePages | crawl.py:174-178 | The day's page number fails exactly when the root fetch fails on the first day (no carried number), and then with UnboundLocalError |
| Crawler.PagesForDay | crawl.py:174-178 | The imperative lines compute ResolvePages |
| Crawler.Emitted | crawl.py:180-192 | Page N of a day gives a digest exactly when it is fetched with a non-empty article list. The digest carries the day's date and one dictionary per article, in order. |
| Crawler.CollectHeadlines | crawl.py:187-190 | The loop over a page's articles builds Headlines of them |
| Crawler.CrawlPages | crawl.py:179-193 | The page loop of one day yields the digests of pages 1 through N, in page order |
| Crawler.DayDigestsStep | crawl.py:180-192 | Proof lemma for the loop invariant of `CrawlPages`, not a separate operation: one page-loop turn appends the page's digest, if it gives one |
| Crawler.Crawling | crawl.py:165-194 | The crawl's output is the digests of the days CrawlSchedule visits, in order, and it ends with CrawlSchedule's exception |
| Crawler.ScheduleStep | crawl.py:172-194 | Proof lemma for the loop invariant of `Crawling`, not a separate operation: a day that passes the loop test and has a page number is visited, and the crawl goes on from get_next_day's result or ends with its exception |
| Crawler.RemainsStep | crawl.py:171-194 | Proof lemma for the loop invariant of `Crawling`, not a separate operation: the outer loop invariant survives a processed day: the whole crawl is the days done followed by the crawl from the next day |
| Crawler.RemainsRaised | crawl.py:174-178 | Proof lemma for the loop invariant of `Crawling`, not a separate operation: a day whose page number cannot be resolved ends the crawl with that exception after the days done |
| Crawler.RemainsEnd | crawl.py:172 | Proof lemma for the loop invariant of `Crawling`, not a separate operation: when the loop test fails, the days done are the whole crawl |
| Crawler.CrawledStep | crawl.py:179-192 | Proof lemma for the loop invariant of `Crawling`, not a separate operation: a processed day's digests are appended after the earlier days' digests |
| Crawler.DigestsOfConcat | crawl.py:192 | Proof lemma for the loop invariant of `Crawling`, not a separate operation: the digests of two runs of units are the first run's digests followed by the second's |
| CrawlProperties.ScheduleShape | crawl.py:171-194 | `Crawler.CrawlSchedule` (the days the `while` loop visits): every visited day passes the loop test. The first is the starting date, and each next one is get_next_day of the one before. Each day's page number is resolved with the previous day's number carried in. |
| CrawlProperties.ScheduleEnd | crawl.py:172-194 | `Crawler.CrawlSchedule`: the crawl stops at the first day failing the loop test, or on UnboundLocalError (first day only, root page not fetched), or on get_next_day's exception for the last visited day |
| CrawlProperties.ConsecutiveDays | crawl.py:194 | Days reached by get_next_day are consecutive calendar days. Every day but the first is zero-padded. |
| CrawlProperties.CanonicalOrder | crawl.py:172 | For zero-padded date texts, string order and equality are calendar order and equality |
| CrawlProperties.NotAfterToday | crawl.py:172 | Every zero-padded visited day is on or before the calendar date of `today` |
| CrawlProperties.CompleteRange | crawl.py:165-194 | From a zero-padded start to a zero-padded `today`, every day of the range is visited, once each and oldest first, unless the first day raises UnboundLocalError. The only other exception is OverflowError, when `today` is 9999/12/31. |
| CrawlProperties.DayUnitsSpec | crawl.py:179-193 | `Crawler.DayUnits` (the `for` loop over pages): within a day, the digests are exactly those of the pages 1 through N that give one, in ascending page order |
| CrawlProperties.UnitsSpec | crawl.py:171-194 | `Crawler.Units` (everything the crawl appends): every digest comes from a page within its visited day's page number, and every such page that gives a digest has it in the output |
| CrawlProperties.UnitsOrdered | crawl.py:171-194 | When the visited days are in a given order, the output is ordered by date in that order, and within a date by page |
| CrawlProperties.DigestDates | crawl.py:185 | Each digest carries the date of the day it was crawled for |
| CrawlProperties.CrawlTwoPageDay | crawl.py:171-194 | A root page reading "of 2" with one article on each page, from 2023/03/01 up to 2023/03/01: that day is visited with page number 2 and the crawl ends without an exception. It gives two digests, for pages 1 and 2 in that order, each with that date and the one article's headline dictionary. |
| CrawlProperties.CrawlFirstFetchFails | crawl.py:174-178 | When no page can be fetched, the first day raises UnboundLocalError and no day is visited |
| CrawlProperties.CarriedZero | crawl.py:174-178 | A carried page number of 0 is reused when the root fetch fails |
| CrawlProperties.CrawlingOutput | crawl.py:165-194 | The crawl's output satisfies all of the following: every digest's date passed the loop test against `today`; digests are in calendar order of date, then page order; a page's digest is present exactly when the page is within its day's page number and is fetched with articles. |

## Left out

- HTTP transport (`get_response`, `get_soup`, crawl.py:7-12, 54-70): network I/O. The `fetch` parameter stands for it. A failed request or a status other than 200 is `None`.
- BeautifulSoup selectors (crawl.py:72-138): library calls on markup. Their results are fields of `Page` and `ArticleBlock`.
  - A lookup that raises inside its `try` returns `None` in the source. The model does not distinguish this from an absent child.
  - `get_headline_articles` returning `None` on such an exception is an empty article list, which the crawl treats the same way.
- `write_crawled_files` and the module-level script (crawl.py:196-208): file I/O and top-level execution. When `raised` is None, `Crawling` returns the list the script writes. When `raised` is Some, the exception escapes the call at crawl.py:206, so the script stops there and writes no file; the returned list is then only what `crawled` held when the exception escaped.
- `datetime.today()` (crawl.py:172): the clock is the parameter `today`. The model assumes it is read once, so it does not drift during the crawl.
- `print` calls (crawl.py:66, 69, 80, 95, 109, 123, 137, 152, 193): logging only.
- PageCount.ExtractNumberSpec: gives the value of any digit run, however long. On Python 3.11 and later, `int()` raises ValueError on a digit string longer than 4300 characters, and the `try/except` of `extract_number` (crawl.py:144-153) then returns None. That interpreter limit is not modelled.
- Exceptions of `crawling` are returned, not propagated. The digests appended before the exception are kept, as the module-level list keeps them.
- Regex generality beyond the two fixed patterns:
  - `\d` is ASCII digits here, while Python's `str` patterns also match other Unicode decimal digits.
  - `$` is the end of the string here, while Python's `$` also matches before a final newline.
  - The `\d` point applies to both `extract_date_from_url` and `extract_number`. The `$` point applies only to `extract_date_from_url` (crawl.py:31), since the pattern of `extract_number` (crawl.py:145) has no `$`.
  - The `\d` part also applies to `strptime`, whose `%Y` and `%d` patterns are built from `\d`. Only the starting date can hold such digits, since every later date is produced by `strftime`.
- DateFormat.ParseStrptime: accepts only ASCII digits in the year, month and day fields, while CPython's `strptime` also accepts other Unicode decimal digits in `%Y` and `%d`. `NextDaySpec` and `NextDay` inherit this.
- `strftime('%Y')` for years below 1000: `Format` always pads the year to four digits. C libraries that print such years unpadded are not modelled.
- Dictionary insertion order: `Headline` is a map, so the key order `json.dump` would write is not modelled.
- The `FormatOrder` family covers zero-padded texts. `strptime` also accepts unpadded ones such as `2023/3/1`. Only the starting date can be unpadded, since every later date is produced by `strftime`.
- An unassigned `number_of_pages` is not replaced by a default of 1, because that would change the first day's behaviour. The model raises UnboundLocalError there, as the source does.
