/** The process-pool crawler: its to_number variant, the unbounded stats
    retry, the split-and-apply helper over worker processes and the batch
    loop of main. */
module PexelsScraper {
  import opened Wrappers
  import opened PyStr
  import opened Frames
  import opened ContentStats
  import opened Pipeline
  import V2 = PexelsScraper2

  // ---------------------------------------------------------------------
  // to_number

  /** The first suffix, in the dict order K, M, B, from index `i` on that
      occurs anywhere in `s`. */
  function FirstKey(s: string, i: nat): (r: Option<nat>)
    requires i <= 3
    ensures r.Some? ==> (i <= r.value < 3 && V2.Suffixes[r.value] in s &&
      forall j :: i <= j < r.value ==> V2.Suffixes[j] !in s)
    ensures r.None? ==> forall j :: i <= j < 3 ==> V2.Suffixes[j] !in s
    decreases 3 - i
  {
    if i == 3 then None
    else if V2.Suffixes[i] in s then Some(i)
    else FirstKey(s, i + 1)
  }

  /** The position of a suffix character in K, M, B. */
  function KeyIndex(key: char): (i: nat)
    requires key in V2.Suffixes
    ensures i < 3 && V2.Suffixes[i] == key
  {
    if key == 'K' then 0 else if key == 'M' then 1 else 2
  }

  /** The number a suffix key gives: the text stripped of that key, read as
      a float, times the key's multiplier, truncated. */
  function Scaled(s: string, key: char): Result<int>
    requires key in V2.Suffixes
  {
    match ParseDecimal(Strip(s, key))
    case Ok(d) => Ok(TruncTimes(d, V2.Multiplier(key)))
    case Err(e) => Err(e)
  }

  /** `to_number` of this version: when the last character is a suffix, the
      key used is the first of K, M, B that occurs anywhere in the text. */
  function ToNumber(s: string): (r: Result<int>)
    ensures s == [] ==> r == Err(IndexError)
    ensures s != [] && s[|s| - 1] !in V2.Suffixes ==> r == ParseInt(s)
    ensures s != [] && s[|s| - 1] in V2.Suffixes ==>
      FirstKey(s, 0).Some? && r == Scaled(s, V2.Suffixes[FirstKey(s, 0).value])
  {
    if s == [] then Err(IndexError)
    else if s[|s| - 1] in V2.Suffixes then
      var last := KeyIndex(s[|s| - 1]);
      assert V2.Suffixes[last] in s;
      var k := FirstKey(s, 0);
      Scaled(s, V2.Suffixes[k.value])
    else
      ParseInt(s)
  }

  /** to_number as the for/break loop over the dict it is. */
  method ToNumberLoop(s: string) returns (r: Result<int>)
    ensures r == ToNumber(s)
  {
    if s == [] {
      return Err(IndexError);
    }
    if s[|s| - 1] !in V2.Suffixes {
      return ParseInt(s);
    }
    var last := KeyIndex(s[|s| - 1]);
    var i := 0;
    while true
      invariant 0 <= i <= last
      invariant forall j :: 0 <= j < i ==> V2.Suffixes[j] !in s
      decreases last - i
    {
      var key := V2.Suffixes[i];
      if key in s {
        assert FirstKey(s, 0) == Some(i);
        return Scaled(s, key);
      }
      i := i + 1;
    }
  }

  /** A key other than the last character leaves that character in the
      stripped text, and float() refuses a letter. */
  lemma OtherKeyFails(s: string, key: char, p: nat)
    requires s != [] && key in V2.Suffixes && p < |s| && s[p] != key && s[p] in V2.Suffixes
    ensures Scaled(s, key) == Err(ValueError)
  {
    StripKeeps(s, key, p);
    var t := Strip(s, key);
    var q :| 0 <= q < |t| && t[q] == s[p];
    if ParseDecimal(t).Ok? {
      ParseDecimalChars(t);
      assert false;
    }
  }

  /** Both versions of to_number compute the same partial function: where
      they pick different keys, both fail with ValueError. */
  lemma ToNumberAgrees(s: string)
    ensures ToNumber(s) == V2.ToNumber(s)
  {
    if s != [] && s[|s| - 1] in V2.Suffixes {
      var last := s[|s| - 1];
      var key := V2.Suffixes[FirstKey(s, 0).value];
      if key != last {
        var p :| 0 <= p < |s| && s[p] == key;
        OtherKeyFails(s, key, |s| - 1);
        OtherKeyFails(s, last, p);
      }
    }
  }

  // ---------------------------------------------------------------------
  // get_content_stats

  /** get_content_stats as written: the handler of a retried failure calls
      `logger.WARNING`, which Logger does not have, so the first retried
      failure leaves the loop as AttributeError and the page is never reset. */
  function GetContentStatsAsWritten(url: string, visit: ContentVisit): (r: (Result<StatsRow>, seq<string>))
    ensures r.1 == [url]
    ensures Retried(visit.attempt(0)) ==> r.0 == Err(AttributeError)
    ensures visit.attempt(0).Ready? ==> r.0 == ExtractStats(url, visit.page, ToNumber)
  {
    match visit.attempt(0)
    case Ready => (ExtractStats(url, visit.page, ToNumber), [url])
    case Raised(e) => (if Retried(visit.attempt(0)) then Err(AttributeError) else Err(e), [url])
  }

  /** The evidently intended loop from attempt `i` on: every retried failure
      resets the page and tries again. Attempts after `last` are not
      modelled: a retried failure at `last` propagates. */
  function RetryFrom(url: string, visit: ContentVisit, i: nat, last: nat): (Result<StatsRow>, seq<string>)
    requires i <= last
    decreases last - i
  {
    match visit.attempt(i)
    case Ready => (ExtractStats(url, visit.page, ToNumber), [])
    case Raised(e) =>
      if !Retried(visit.attempt(i)) || i == last then (Err(e), [])
      else (RetryFrom(url, visit, i + 1, last).0, [V2.Blank, url] + RetryFrom(url, visit, i + 1, last).1)
  }

  /** The intended get_content_stats, trying at most `last + 1` times. */
  function RetryingStats(url: string, visit: ContentVisit, last: nat): (Result<StatsRow>, seq<string>) {
    (RetryFrom(url, visit, 0, last).0, [url] + RetryFrom(url, visit, 0, last).1)
  }

  /** The attempt bound does not matter once some attempt within it is not
      retried. */
  lemma {:induction false} RetryFromSettled(url: string, visit: ContentVisit, i: nat, k1: nat, k2: nat)
    requires i <= k1 && i <= k2
    requires !Retried(visit.attempt(k1)) && !Retried(visit.attempt(k2))
    ensures RetryFrom(url, visit, i, k1) == RetryFrom(url, visit, i, k2)
    decreases k1 - i
  {
    if Retried(visit.attempt(i)) {
      RetryFromSettled(url, visit, i + 1, k1, k2);
    }
  }

  /** A reset before `n` more is `n + 1` resets. */
  lemma {:induction false} ResetsCons(url: string, n: nat)
    ensures [V2.Blank, url] + V2.Resets(url, n) == V2.Resets(url, n + 1)
  {
    if n > 0 {
      ResetsCons(url, n - 1);
    }
  }

  lemma {:induction false} RetryFromSettles(url: string, visit: ContentVisit, i: nat, k: nat, last: nat)
    requires i <= k <= last && !Retried(visit.attempt(k))
    requires forall j :: i <= j < k ==> Retried(visit.attempt(j))
    ensures RetryFrom(url, visit, i, last).1 == V2.Resets(url, k - i)
    ensures RetryFrom(url, visit, i, last).0 ==
      if visit.attempt(k).Ready? then ExtractStats(url, visit.page, ToNumber) else Err(visit.attempt(k).error)
    decreases k - i
  {
    if i < k {
      assert Retried(visit.attempt(i));
      RetryFromSettles(url, visit, i + 1, k, last);
      ResetsCons(url, k - i - 1);
    }
  }

  /** The first attempt that is not retried, the k-th, decides the outcome;
      each retried failure before it reset the page once. */
  lemma RetryingSettles(url: string, visit: ContentVisit, k: nat, last: nat)
    requires k <= last && !Retried(visit.attempt(k))
    requires forall j :: 0 <= j < k ==> Retried(visit.attempt(j))
    ensures RetryingStats(url, visit, last).1 == [url] + V2.Resets(url, k)
    ensures RetryingStats(url, visit, last).0 ==
      if visit.attempt(k).Ready? then ExtractStats(url, visit.page, ToNumber) else Err(visit.attempt(k).error)
  {
    RetryFromSettles(url, visit, 0, k, last);
  }

  /** get_content_stats as intended: reset and retry until the panel opens
      or another exception propagates. */
  method GetContentStatsRetrying(url: string, visit: ContentVisit) returns (r: Result<StatsRow>, visits: seq<string>)
    requires exists k: nat :: !Retried(visit.attempt(k))
    ensures forall k: nat :: !Retried(visit.attempt(k)) ==> (r, visits) == RetryingStats(url, visit, k)
  {
    ghost var k: nat :| !Retried(visit.attempt(k));
    visits := [url];
    var i := 0;
    while true
      invariant 0 <= i <= k
      invariant visits == [url] + V2.Resets(url, i)
      invariant RetryingStats(url, visit, k) ==
        (RetryFrom(url, visit, i, k).0, [url] + V2.Resets(url, i) + RetryFrom(url, visit, i, k).1)
      decreases k - i
    {
      var w := visit.attempt(i);
      if w.Ready? {
        break;
      }
      if !Retried(w) {
        r := Err(w.error);
        assert RetryFrom(url, visit, i, k) == (r, []);
        assert visits + [] == visits;
        forall k2 | !Retried(visit.attempt(k2)) ensures (r, visits) == RetryingStats(url, visit, k2) {
          RetryFromSettled(url, visit, 0, k, k2);
        }
        return;
      }
      visits := visits + [V2.Blank, url];
      assert [url] + V2.Resets(url, i) + ([V2.Blank, url] + RetryFrom(url, visit, i + 1, k).1)
          == [url] + V2.Resets(url, i + 1) + RetryFrom(url, visit, i + 1, k).1;
      i := i + 1;
    }
    r := ExtractStats(url, visit.page, ToNumber);
    assert RetryFrom(url, visit, i, k) == (r, []);
    assert visits + [] == visits;
    forall k2 | !Retried(visit.attempt(k2)) ensures (r, visits) == RetryingStats(url, visit, k2) {
      RetryFromSettled(url, visit, 0, k, k2);
    }
  }

  /** A page whose first click times out and whose second opens the panel:
      as written the crawl gets AttributeError and never loads the page
      again; as intended the page is reset once and its stats are read. */
  lemma RetryWitness(url: string, visit: ContentVisit)
    requires visit.attempt(0) == Raised(TimeoutException) && visit.attempt(1).Ready?
    ensures GetContentStatsAsWritten(url, visit) == (Err(AttributeError), [url])
    ensures RetryingStats(url, visit, 1) == (ExtractStats(url, visit.page, ToNumber), [url, V2.Blank, url])
  {
    var one := RetryFrom(url, visit, 1, 1);
    assert one == (ExtractStats(url, visit.page, ToNumber), []);
    assert RetryFrom(url, visit, 0, 1) == (one.0, [V2.Blank, url] + one.1);
    assert [url] + ([V2.Blank, url] + []) == [url, V2.Blank, url];
  }

  /** A video page opens the panel, whose views counter the wait has seen,
      but lacks one of the later photo stats: the first missing element
      raises NoSuchElementException, in both loops. */
  lemma VideoPageRaises(url: string, visit: ContentVisit, last: nat)
    requires visit.attempt(0).Ready? && Parses(visit.page.views, ToNumber)
    requires visit.page.downloads.None? ||
      (Parses(visit.page.downloads, ToNumber) && visit.page.likes.None?) ||
      (Parses(visit.page.downloads, ToNumber) && Parses(visit.page.likes, ToNumber) && visit.page.uploadDate.None?)
    ensures GetContentStatsAsWritten(url, visit).0 == Err(NoSuchElementException)
    ensures RetryingStats(url, visit, last).0 == Err(NoSuchElementException)
  {
  }

  // ---------------------------------------------------------------------
  // The page scrapers

  /** get_content_urls of this version. The prefix is added without
      `astype(str)`, so an anchor without href has no url; the model stops
      the crawl there with WebDriverException. */
  function GetContentUrls(web: Web, collectionUrl: string): (r: Result<seq<ContentRow>>)
    ensures r.Ok? <==> AllPresent(web.collection(collectionUrl).photos + web.collection(collectionUrl).videos)
    ensures r.Ok? ==> |r.value| == |web.collection(collectionUrl).photos| + |web.collection(collectionUrl).videos|
  {
    var page := web.collection(collectionUrl);
    var hrefs := page.photos + page.videos;
    if AllPresent(hrefs) then
      var dirs := Present(hrefs);
      Ok(ContentFrame(collectionUrl, page.heading, seq(|dirs|, i requires 0 <= i < |dirs| => SiteRoot + dirs[i])))
    else
      Err(WebDriverException)
  }

  /** Content rows list the photos first, then the videos, each prefixed,
      indexed by the collection url and named after the heading. */
  lemma ContentOrder(web: Web, collectionUrl: string, i: nat)
    requires GetContentUrls(web, collectionUrl).Ok? && i < |GetContentUrls(web, collectionUrl).value|
    ensures var page := web.collection(collectionUrl);
      var row := GetContentUrls(web, collectionUrl).value[i];
      row.collectionUrl == collectionUrl && row.collectionName == Strip(page.heading, '\n') &&
      (i < |page.photos| ==> page.photos[i] == Some(row.contentUrl[|SiteRoot|..]) && row.contentUrl[..|SiteRoot|] == SiteRoot) &&
      (i >= |page.photos| ==> page.videos[i - |page.photos|] == Some(row.contentUrl[|SiteRoot|..]) && row.contentUrl[..|SiteRoot|] == SiteRoot)
  {
    var page := web.collection(collectionUrl);
    var hrefs := page.photos + page.videos;
    var dirs := Present(hrefs);
    var row := GetContentUrls(web, collectionUrl).value[i];
    assert row.contentUrl == SiteRoot + dirs[i];
    assert row.contentUrl[|SiteRoot|..] == dirs[i];
    assert hrefs[i] == Some(dirs[i]);
  }

  function ContentWork(web: Web): string -> Result<seq<ContentRow>> {
    u => GetContentUrls(web, u)
  }

  /** get_content_stats of one content url, as written, as a one-row frame:
      a retried failure of the first attempt is AttributeError. */
  function GetContentStatsFrame(web: Web, contentUrl: string): Result<seq<StatsRow>> {
    var row :- GetContentStatsAsWritten(contentUrl, web.content(contentUrl)).0;
    Ok([row])
  }

  function StatsWork(web: Web): string -> Result<seq<StatsRow>> {
    u => GetContentStatsFrame(web, u)
  }

  // ---------------------------------------------------------------------
  // apply_to_split and parallel_apply

  /** The split count of parallel_apply: `4 * cores` splits when there are
      more elements than that, otherwise one per element. */
  function SplitCount(l: nat, cores: nat): (n: nat)
    ensures n <= l && n <= 4 * cores
    ensures l > 0 && cores > 0 ==> n > 0
    ensures n == if l > 4 * cores then 4 * cores else l
  {
    if l > 4 * cores then 4 * cores else l
  }

  /** apply_to_split: `pd.concat(map(f, split))` in one worker. */
  function ApplyToSplit<T, R>(work: T -> Result<seq<R>>, split: seq<T>): Result<seq<R>> {
    ConcatAll(work, split)
  }

  /** One job per split, in split order. */
  function Jobs<T, R>(work: T -> Result<seq<R>>, splits: seq<seq<T>>): (r: seq<Result<seq<R>>>)
    ensures |r| == |splits| && forall k :: 0 <= k < |splits| ==> r[k] == ApplyToSplit(work, splits[k])
  {
    seq(|splits|, k requires 0 <= k < |splits| => ApplyToSplit(work, splits[k]))
  }

  /** parallel_apply: the splits, one job each, and the jobs' frames
      concatenated in job order. */
  function ParallelApplyOf<T, R>(work: T -> Result<seq<R>>, elems: seq<T>, cores: nat): Result<seq<R>> {
    match ArraySplit(elems, SplitCount(|elems|, cores))
    case Err(e) => Err(e)
    case Ok(splits) => ConcatAll(Get, Jobs(work, splits))
  }

  method ParallelApply<T, R>(work: T -> Result<seq<R>>, elems: seq<T>, cores: nat) returns (r: Result<seq<R>>)
    ensures r == ParallelApplyOf(work, elems, cores)
  {
    var splits := ArraySplit(elems, SplitCount(|elems|, cores));
    if splits.Err? {
      return Err(splits.error);
    }
    var jobs := RunJobs(work, splits.value);
    r := ConcatAll(Get, jobs);
  }

  /** The pool's map over the splits: one job result per split, in order. */
  method RunJobs<T, R>(work: T -> Result<seq<R>>, splits: seq<seq<T>>) returns (jobs: seq<Result<seq<R>>>)
    ensures jobs == Jobs(work, splits)
  {
    jobs := [];
    for i := 0 to |splits|
      invariant |jobs| == i
      invariant forall k :: 0 <= k < i ==> jobs[k] == ApplyToSplit(work, splits[k])
    {
      jobs := jobs + [ApplyToSplit(work, splits[i])];
    }
  }

  lemma DivPositive(l: nat, n: nat)
    requires 0 < n <= l
    ensures l / n >= 1
  {
    DivAtLeastOne(l, n, l / n, l % n);
  }

  /** parallel_apply is `pd.concat(map(f, elems))` in element order: one
      frame per element, the first exception in element order, and
      ValueError for no elements or no cores, raised by `np.array_split`
      when the split count is 0. */
  lemma ParallelApplyMeaning<T, R>(work: T -> Result<seq<R>>, elems: seq<T>, cores: nat)
    ensures elems == [] || cores == 0 ==> ParallelApplyOf(work, elems, cores) == Err(ValueError)
    ensures elems != [] && cores > 0 ==> ParallelApplyOf(work, elems, cores) == ConcatMap(work, elems)
  {
    var n := SplitCount(|elems|, cores);
    if n > 0 {
      var splits := ArraySplit(elems, n).value;
      var jobs := Jobs(work, splits);
      DivPositive(|elems|, n);
      forall k | 0 <= k < |splits| ensures jobs[k] == ConcatMap(work, splits[k]) {
        assert |splits[k]| >= 1;
        ConcatAllMeaning(work, splits[k]);
      }
      ConcatMapPieces(work, splits, jobs);
      ConcatAllMeaning(Get, jobs);
    }
  }

  // ---------------------------------------------------------------------
  // main

  /** One batch of main: collections, skipped when there are none, then
      content, then stats, then the two joins. */
  function Batch(web: Web, cores: nat, split: seq<string>): Result<BatchOutcome> {
    var collections :- ParallelApplyOf(V2.CollectionsWork(web), split, cores);
    if collections == [] then Ok(Skipped)
    else
      var content :- ParallelApplyOf(ContentWork(web), V2.CollectionUrls(collections), cores);
      var stats :- ParallelApplyOf(StatsWork(web), V2.ContentUrls(content), cores);
      Ok(Joined(Join(collections, content, stats)))
  }

  function BatchOf(web: Web, cores: nat): seq<string> -> Result<BatchOutcome> {
    s => Batch(web, cores, s)
  }

  /** The rows of a batch belong to the batch's artists. */
  lemma BatchArtists(web: Web, cores: nat)
    ensures RowsFromBatch(BatchOf(web, cores))
  {
    var batch := BatchOf(web, cores);
    forall s: seq<string>, k: nat | batch(s).Ok? && batch(s).value.Joined? && k < |batch(s).value.rows|
      ensures batch(s).value.rows[k].ArtistUrl().Some? ==> batch(s).value.rows[k].ArtistUrl().value in s
    {
      var cw := V2.CollectionsWork(web);
      ParallelApplyMeaning(cw, s, cores);
      var collections := ConcatMap(cw, s).value;
      var content := ParallelApplyOf(ContentWork(web), V2.CollectionUrls(collections), cores).value;
      var stats := ParallelApplyOf(StatsWork(web), V2.ContentUrls(content), cores).value;
      assert batch(s).value.rows == Join(collections, content, stats);
      var row := batch(s).value.rows[k];
      if row.ArtistUrl().Some? {
        JoinArtists(collections, content, stats, k);
        var c :| c in collections && c.artistUrl == row.ArtistUrl().value;
        ConcatMapSource(cw, s, c);
        var i :| 0 <= i < |s| && cw(s[i]).Ok? && c in cw(s[i]).value;
        var rows := V2.GetCollectionsUrls(web, s[i]).value;
        var j :| 0 <= j < |rows| && rows[j] == c;
        assert c.artistUrl == s[i];
      }
    }
  }

  /** As written, the stats stage of a batch fails as soon as one of its
      content pages has a first click that times out or is intercepted; when
      no page before it fails, the error is AttributeError. */
  lemma StatsStageStops(web: Web, cores: nat, urls: seq<string>, k: nat)
    requires cores > 0 && k < |urls| && Retried(web.content(urls[k]).attempt(0))
    ensures ParallelApplyOf(StatsWork(web), urls, cores).Err?
    ensures (forall j :: 0 <= j < k ==> StatsWork(web)(urls[j]).Ok?) ==>
      ParallelApplyOf(StatsWork(web), urls, cores) == Err(AttributeError)
  {
    var work := StatsWork(web);
    ParallelApplyMeaning(work, urls, cores);
    assert work(urls[k]) == Err(AttributeError);
    ConcatMapRaises(work, urls, k, AttributeError);
  }

  /** As written, a batch whose collections and content are read stops the
      crawl when one of its content pages has a retried first attempt. */
  lemma BatchStops(web: Web, cores: nat, split: seq<string>, k: nat)
    requires ParallelApplyOf(V2.CollectionsWork(web), split, cores).Ok?
    requires var collections := ParallelApplyOf(V2.CollectionsWork(web), split, cores).value;
      collections != [] &&
      ParallelApplyOf(ContentWork(web), V2.CollectionUrls(collections), cores).Ok? &&
      var urls := V2.ContentUrls(ParallelApplyOf(ContentWork(web), V2.CollectionUrls(collections), cores).value);
      k < |urls| && Retried(web.content(urls[k]).attempt(0))
    ensures Batch(web, cores, split).Err?
  {
    ParallelApplyMeaning(V2.CollectionsWork(web), split, cores);
    var collections := ParallelApplyOf(V2.CollectionsWork(web), split, cores).value;
    var content := ParallelApplyOf(ContentWork(web), V2.CollectionUrls(collections), cores).value;
    StatsStageStops(web, cores, V2.ContentUrls(content), k);
  }

  /** The whole of main after the artist list is read: the pool refuses
      zero processes; a one-line artist file read without `ndmin` is a 0-d
      array whose len() raises TypeError, unless the completed-artist filter
      has turned it into a 1-d array. */
  function CrawlOutcome(artists: seq<string>, web: Web, cores: nat, file: FileState): (Result<()>, FileState) {
    if cores == 0 then (Err(ValueError), file)
    else if |artists| == 1 && !file.present then (Err(TypeError), file)
    else Crawl(artists, BatchOf(web, cores), file)
  }

  /** main resumes correctly: what it appends to an existing data file
      belongs to listed artists the file did not hold, and a header is
      written only into a file that did not exist. */
  lemma CrawlResumes1(artists: seq<string>, web: Web, cores: nat, file: FileState, k: nat)
    requires |file.lines| <= k < |CrawlOutcome(artists, web, cores, file).1.lines|
    ensures CrawlOutcome(artists, web, cores, file).1.lines[k] == Header ==> k == |file.lines| && !file.present
    ensures var line := CrawlOutcome(artists, web, cores, file).1.lines[k];
      line.Record? && line.row.ArtistUrl().Some? ==>
        line.row.ArtistUrl().value in artists &&
        !(file.present && line.row.ArtistUrl().value in Completed(file.lines))
  {
    BatchArtists(web, cores);
    CrawlResumes(artists, BatchOf(web, cores), file, k);
  }

  /** The three parallel_apply stages of one batch. */
  method RunBatch(web: Web, cores: nat, split: seq<string>) returns (o: Result<BatchOutcome>)
    ensures o == Batch(web, cores, split)
  {
    var collections := ParallelApply(V2.CollectionsWork(web), split, cores);
    if collections.Err? {
      return Err(collections.error);
    }
    if collections.value == [] {
      return Ok(Skipped);
    }
    var content := ParallelApply(ContentWork(web), V2.CollectionUrls(collections.value), cores);
    if content.Err? {
      return Err(content.error);
    }
    var stats := ParallelApply(StatsWork(web), V2.ContentUrls(content.value), cores);
    if stats.Err? {
      return Err(stats.error);
    }
    return Ok(Joined(Join(collections.value, content.value, stats.value)));
  }

  /** The batch loop of main over `batches`. */
  method RunBatchLoop(batches: seq<seq<string>>, web: Web, cores: nat, file: DataFile) returns (r: Result<()>)
    modifies file
    ensures (r, file.State()) == RunBatches(batches, BatchOf(web, cores), old(file.State()))
  {
    var batch := BatchOf(web, cores);
    var i := 0;
    while i < |batches|
      invariant 0 <= i <= |batches|
      invariant RunBatches(batches[i..], batch, file.State()) == RunBatches(batches, batch, old(file.State()))
    {
      var split := batches[i];
      assert batches[i..][0] == split && batches[i..][1..] == batches[i + 1..];
      var o := RunBatch(web, cores, split);
      assert o == batch(split);
      if o.Err? {
        return Err(o.error);
      }
      if o.value.Joined? {
        var header := !file.present;
        file.Append(o.value.rows, header);
      }
      i := i + 1;
    }
    return Ok(());
  }

  /** main: batches of at most five pending artists, each scraped through
      parallel_apply and appended to the data file. */
  method Run(artists: seq<string>, web: Web, cores: nat, file: DataFile) returns (r: Result<()>)
    modifies file
    ensures (r, file.State()) == CrawlOutcome(artists, web, cores, old(file.State()))
  {
    if cores == 0 {
      return Err(ValueError);
    }
    if |artists| == 1 && !file.present {
      return Err(TypeError);
    }
    var pending := Pending(artists, file.State());
    var splits := Batches(pending);
    if splits.Err? {
      return Err(splits.error);
    }
    r := RunBatchLoop(splits.value, web, cores, file);
  }
}
