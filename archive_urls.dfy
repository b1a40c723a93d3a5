/** The archive's URLs and the date they carry (crawl.py:25-52, 173, 180). */
module ArchiveUrls {
  import opened Outcomes
  import opened Text
  import opened DateFormat

  const ARCHIVE_BASE := "https://www.wsj.com/news/archive/"

  /**
   * extract_date_from_url (crawl.py:25-39): `re.search(r'/(\d{4})/(\d{2})/(\d{2})$', url)`.
   * The pattern has a fixed length of eleven and is anchored at the end, so the only
   * place it can match is the last eleven characters; the three groups are joined
   * again with '/', which gives back the last ten characters of the URL.
   */
  function ExtractDateFromUrl(url: string): (r: Option<string>)
    ensures r.Some? ==> IsDatePath(r.value) && |url| >= 11 && url == url[..|url| - 11] + "/" + r.value
  {
    var n := |url|;
    if n >= 11 && url[n - 11] == '/' && IsDatePath(url[n - 10..]) then
      var year, month, day := url[n - 10..n - 6], url[n - 5..n - 3], url[n - 2..];
      var joined := year + "/" + month + "/" + day;
      assert joined == url[n - 10..];
      assert url == url[..n - 11] + "/" + joined;
      Some(joined)
    else None
  }

  /** Any URL ending in '/' and a date-shaped path yields exactly that path. */
  lemma ExtractDateOfUrl(prefix: string, date: string)
    requires IsDatePath(date)
    ensures ExtractDateFromUrl(prefix + "/" + date) == Some(date)
  {
    var url := prefix + "/" + date;
    assert url[|url| - 10..] == date;
    assert url[|url| - 11] == '/';
  }

  /** The archive URL of a date-shaped path gives that path back. */
  lemma ExtractDateOfArchiveUrl(date: string)
    requires IsDatePath(date)
    ensures ExtractDateFromUrl(ARCHIVE_BASE + date) == Some(date)
  {
    var prefix := "https://www.wsj.com/news/archive";
    assert ARCHIVE_BASE == prefix + "/";
    assert ARCHIVE_BASE + date == prefix + "/" + date;
    ExtractDateOfUrl(prefix, date);
  }

  /**
   * get_next_url (crawl.py:41-52): the archive URL of the day after the URL's date,
   * None when the URL carries no date, and the exception get_next_day raises
   * when the date-shaped path is no date.
   */
  function GetNextUrl(curUrl: string): (r: Result<Option<string>, Raised>)
  {
    match ExtractDateFromUrl(curUrl)
    case None => Ok(None)
    case Some(today) =>
      match NextDay(today)
      case Err(e) => Err(e)
      case Ok(tomorrow) => Ok(Some(ARCHIVE_BASE + tomorrow))
  }

  /** Reading the date back from get_next_url's result gives get_next_day of the original URL's date. */
  lemma NextUrlCarriesNextDay(curUrl: string)
    ensures ExtractDateFromUrl(curUrl).None? ==> GetNextUrl(curUrl) == Ok(None)
    ensures ExtractDateFromUrl(curUrl).Some? ==>
      match NextDay(ExtractDateFromUrl(curUrl).value)
      case Err(e) => GetNextUrl(curUrl) == Err(e)
      case Ok(tomorrow) =>
        GetNextUrl(curUrl).Ok? && GetNextUrl(curUrl).value.Some? &&
        ExtractDateFromUrl(GetNextUrl(curUrl).value.value) == Some(tomorrow)
  {
    if ExtractDateFromUrl(curUrl).Some? {
      var n := NextDay(ExtractDateFromUrl(curUrl).value);
      NextDaySpec(ExtractDateFromUrl(curUrl).value);
      if n.Ok? {
        FormatCanonical(ParseStrptime(n.value).value);
        ExtractDateOfArchiveUrl(n.value);
      }
    }
  }

  /** `f'https://www.wsj.com/news/archive/{current_date}'` (crawl.py:173). */
  function RootUrl(date: string): string
  {
    ARCHIVE_BASE + date
  }

  /** `f'https://www.wsj.com/news/archive/{current_date}/?page={page_num+1}'` (crawl.py:180). */
  function PageUrl(date: string, page: nat): string
  {
    ARCHIVE_BASE + date + "/?page=" + DecimalString(page)
  }

  /** The archive root URL of a date gives the date back. */
  lemma RootUrlCarriesDate(date: string)
    requires IsDatePath(date)
    ensures ExtractDateFromUrl(RootUrl(date)) == Some(date)
  {
    ExtractDateOfArchiveUrl(date);
  }

  /** Different pages of one date are different URLs. */
  lemma PageUrlInjective(date: string, p: nat, q: nat)
    ensures PageUrl(date, p) == PageUrl(date, q) <==> p == q
  {
    if PageUrl(date, p) == PageUrl(date, q) {
      var prefix := ARCHIVE_BASE + date + "/?page=";
      DecimalStringSpec(p);
      DecimalStringSpec(q);
      assert PageUrl(date, p)[|prefix|..] == DecimalString(p);
      assert PageUrl(date, q)[|prefix|..] == DecimalString(q);
    }
  }
}
