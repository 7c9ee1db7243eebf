/** What a content page offers the stats scraper, and the row both crawler
    versions build from it once the page's info panel is open. */
module ContentStats {
  import opened Wrappers
  import UploadDate

  /** How one attempt at opening the info panel ends: the click on the info
      button and the wait for the views counter both succeed, or the driver
      raises. */
  datatype Wait = Ready | Raised(error: Exception)

  /** The two failures the crawler retries on. */
  predicate Retried(w: Wait) {
    w.Raised? && (w.error == ElementClickInterceptedException || w.error == TimeoutException)
  }

  /** The text of each element the stats are read from, or None when the
      page has no such element. */
  datatype PageFields = PageFields(
    title: Option<string>,
    views: Option<string>,
    downloads: Option<string>,
    likes: Option<string>,
    uploadDate: Option<string>)

  /** A content page as the driver meets it: how each successive attempt at
      the info panel ends, and the fields shown once it is open. */
  datatype ContentVisit = ContentVisit(attempt: nat -> Wait, page: PageFields)

  /** One row of the stats frame, indexed by its content url; None is NaN. */
  datatype StatsRow = StatsRow(
    contentUrl: string,
    title: Option<string>,
    views: Option<int>,
    downloads: Option<int>,
    likes: Option<int>,
    uploadDate: Option<string>)

  /** The row given to a piece of content whose page never opened. */
  function DegradedRow(url: string): (r: StatsRow)
    ensures r.contentUrl == url
    ensures r.title.None? && r.views.None? && r.downloads.None? && r.likes.None? && r.uploadDate.None?
  {
    StatsRow(url, None, None, None, None, None)
  }

  /** `driver.find_element_by_xpath(path).text`. */
  function Element(o: Option<string>): Result<string> {
    match o
    case Some(text) => Ok(text)
    case None => Err(NoSuchElementException)
  }

  /** A count element is there and its text parses. */
  predicate Parses(o: Option<string>, toNumber: string -> Result<int>) {
    o.Some? && toNumber(o.value).Ok?
  }

  /** The statistics read off an opened page, with each count parsed by
      `toNumber` and the upload date rewritten by get_date. The title falls
      back to ''; the other lookups are unguarded, so the first missing
      element or unparsable text, in the order views, downloads, likes,
      upload date, raises. */
  function ExtractStats(url: string, page: PageFields, toNumber: string -> Result<int>): (r: Result<StatsRow>)
    ensures page.views.None? ==> r == Err(NoSuchElementException)
    ensures page.views.Some? && toNumber(page.views.value).Err? ==> r == Err(toNumber(page.views.value).error)
    ensures Parses(page.views, toNumber) && page.downloads.None? ==> r == Err(NoSuchElementException)
    ensures (Parses(page.views, toNumber) && page.downloads.Some? && toNumber(page.downloads.value).Err?) ==>
              r == Err(toNumber(page.downloads.value).error)
    ensures (Parses(page.views, toNumber) && Parses(page.downloads, toNumber) && page.likes.None?) ==>
              r == Err(NoSuchElementException)
    ensures (Parses(page.views, toNumber) && Parses(page.downloads, toNumber) &&
             page.likes.Some? && toNumber(page.likes.value).Err?) ==>
              r == Err(toNumber(page.likes.value).error)
    ensures (Parses(page.views, toNumber) && Parses(page.downloads, toNumber) && Parses(page.likes, toNumber) &&
             page.uploadDate.None?) ==>
              r == Err(NoSuchElementException)
    ensures (Parses(page.views, toNumber) && Parses(page.downloads, toNumber) && Parses(page.likes, toNumber) &&
             page.uploadDate.Some? && UploadDate.GetDate(page.uploadDate.value).Err?) ==>
              r == Err(UploadDate.GetDate(page.uploadDate.value).error)
    ensures r.Ok? <==>
      Parses(page.views, toNumber) && Parses(page.downloads, toNumber) && Parses(page.likes, toNumber) &&
      page.uploadDate.Some? && UploadDate.GetDate(page.uploadDate.value).Ok?
    ensures r.Ok? ==>
      r.value.contentUrl == url &&
      r.value.title == Some(if page.title.Some? then page.title.value else "") &&
      r.value.views == Some(toNumber(page.views.value).value) &&
      r.value.downloads == Some(toNumber(page.downloads.value).value) &&
      r.value.likes == Some(toNumber(page.likes.value).value) &&
      r.value.uploadDate == Some(UploadDate.GetDate(page.uploadDate.value).value)
  {
    var title := page.title.GetOr("");
    var viewsText :- Element(page.views);
    var views :- toNumber(viewsText);
    var downloadsText :- Element(page.downloads);
    var downloads :- toNumber(downloadsText);
    var likesText :- Element(page.likes);
    var likes :- toNumber(likesText);
    var dateText :- Element(page.uploadDate);
    var date :- UploadDate.GetDate(dateText);
    Ok(StatsRow(url, Some(title), Some(views), Some(downloads), Some(likes), Some(date)))
  }

  /** A page without the title element still gives a row, titled ''. */
  lemma MissingTitle(url: string, page: PageFields, toNumber: string -> Result<int>)
    requires page.title.None?
    ensures ExtractStats(url, page, toNumber).Ok? ==> ExtractStats(url, page, toNumber).value.title == Some("")
    ensures ExtractStats(url, page, toNumber) ==
            ExtractStats(url, page.(title := Some("")), toNumber)
  {
  }

  /** A row that was read holds a date in `YYYY-MM-DD` form. */
  lemma ExtractedDateShape(url: string, page: PageFields, toNumber: string -> Result<int>)
    requires ExtractStats(url, page, toNumber).Ok?
    ensures var d := ExtractStats(url, page, toNumber).value.uploadDate.value;
      |d| == 10 && d[4] == '-' && d[7] == '-'
  {
  }
}
