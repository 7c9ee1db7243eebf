# Pexels crawler, modelled in Dafny

The repository crawls pexels.com. For each artist it reads the collections
page and the content (photos, then videos) of every collection. It opens
each content page's info panel and reads the title, views, downloads,
likes and upload date. The rows are joined and appended to a CSV data file.
A rerun skips artists that the file already holds. There are two versions:

- `pexels_scraper2.py` spreads the work over a pool of Selenium drivers
  held by threads (`ThreadedDrivers`).
- `pexels_scraper.py` spreads it over worker processes (`parallel_apply`).

The project models the sequential rules underneath that plumbing:

- the stat parsers `to_number` and `get_date`;
- the retry loop that opens a content page's info panel;
- the driver-slot pool and its lock flags;
- the arithmetic that splits the work, and the order in which results are
  concatenated;
- the row building and the two joins;
- the resume filter, the batching into at most five artists, and the
  header decision for the data file.

Pages are inputs. A `Web` value gives, for each url:

- the artist page: the artist name and the collection hrefs;
- the collection page: the heading and the photo and video hrefs;
- the content page: how each successive attempt at the info panel ends, and
  the text of each stat element.

Where Python raises, the model returns an `Err` with the exception kind.

Files:

- `wrappers.dfy`: `Option`, `Result` and the exception kinds.
- `pystr.dfy`: the part of `str.strip`, `int()` and `float()` the crawler
  relies on, plus decimal digits.
- `upload_date.dfy`: `get_date`, which is `strptime` with
  `"Uploaded at %B %d, %Y"` followed by `strftime('%Y-%m-%d')`.
- `frames.dfy`: `map` with the first exception winning, `pd.concat`, and
  `np.array_split`.
- `content_stats.dfy`: the stats row read off an opened content page.
- `pipeline.dfy`: the steps shared by both versions:
  - collection and content rows;
  - the right join on collection url and the left join on content url;
  - the data file, as a class with an `Append` method;
  - the resume filter and the batches;
  - the batch loop as a function.
- `pexels_scraper2.dfy`: the threaded version. `ThreadedDrivers` is a class
  over an array of lock flags. `get_content_stats` and `main` are loops,
  each proved equal to a specification function.
- `pexels_scraper.dfy`: the process-pool version. Its `to_number` loop,
  `parallel_apply` and `main` are methods, and its retry loop comes both as
  written and corrected.

Three behaviours of the code that a reader may not expect are modelled as
written:

- A batch whose collections hold no content at all is not skipped. The
  stats stage then receives no urls and raises `ValueError`, ending the
  crawl. In `pexels_scraper2.py` it is the `pd.concat` of nothing in
  `map` that raises (`:248`, called at `:280`). In `pexels_scraper.py`
  the split count becomes 0, and `np.array_split` refuses it before
  anything is concatenated (`:176-177`, called at `:216`).
- An artist with no collections gets no rows, so it is never recorded as
  done. It is crawled again on every rerun.
- In `pexels_scraper.py` the retry loop never retries; see Findings. The
  model's main follows that code. A content page whose first click times
  out or is intercepted gives AttributeError. Collecting the
  `apply_async` jobs with `map(methodcaller('get'), jobs)` re-raises the
  first such exception in job order, so the crawl stops before that batch
  is appended (`pexels_scraper.py:138`, `:180-181`, `:216`, `:226`).

## Model

| member | source | states |
|---|---|---|
| PexelsScraper2.ToNumber | pexels_scraper2.py:146-157 | Only an empty string raises IndexError. In this model every other failure is ValueError; see "## Left out" for the OverflowError and digit-limit cases it does not model. |
| PexelsScraper2.ToNumberPlain | pexels_scraper2.py:155-156 | A count without a suffix reads back as the integer it shows, for every integer. |
| PexelsScraper2.ToNumberScaled | pexels_scraper2.py:152-154 | A whole number followed by K, M or B reads as that number times 1000, 10^6 or 10^9. |
| PexelsScraper2.ToNumberSuffixed | pexels_scraper2.py:152-154 | A text that float() reads as a decimal, followed by a suffix, reads as that decimal times the suffix's multiplier, truncated toward zero. |
| PexelsScraper2.StripSuffix | pexels_scraper2.py:154 | `strip(key)` of a text that ends in one key removes exactly that key, when the rest neither starts nor ends with it. |
| PexelsScraper2.ToNumberExampleK | pexels_scraper2.py:146-157 | "1.2K" reads as 1200. |
| PexelsScraper2.ToNumberExampleM | pexels_scraper2.py:146-157 | "3M" reads as 3000000. |
| PexelsScraper2.ToNumberExamplePlain | pexels_scraper2.py:146-157 | "347" reads as 347. |
| PyStr.Strip | pexels_scraper2.py:154 | `str.strip(c)` returns a contiguous slice. Everything removed on either side is `c`, and the result neither starts nor ends with `c`. |
| PyStr.ParseIntSigned | pexels_scraper2.py:156 | The decimal digits of a natural number, with or without a leading `-`, read back by `int()` as that number or its negation. |
| PyStr.ParseIntText | pexels_scraper2.py:156 | `int()` of any whitespace, then an optional `+` or `-`, then one or more ASCII digits, then any whitespace, gives the digits' value, negated after `-`. |
| PyStr.ParseIntShowInt | pexels_scraper2.py:156 | `int(str(n)) == n` for every integer n. |
| PyStr.ParseDecimalShowNat | pexels_scraper2.py:154 | `float()` of a digit string is that number exactly. |
| PyStr.ParseDecimalPoint | pexels_scraper2.py:154 | `float()` of "w.f" is w + f/10^len(f), exactly. |
| PyStr.ParseDecimalChars | pexels_scraper2.py:154 | Text that `float()` accepts holds only digits, '.', signs and whitespace. |
| PyStr.StripKeeps | pexels_scraper.py:113 | `strip(c)` never removes a character other than `c`. |
| UploadDate.Strptime | pexels_scraper2.py:201-202 | A parsed date is a real calendar date. Text that does not match the format raises ValueError. |
| UploadDate.IsoFormat | pexels_scraper2.py:202 | `strftime('%Y-%m-%d')` has 10 characters, with dashes at positions 4 and 7. The three digit fields hold the year, month and day. |
| UploadDate.GetDate | pexels_scraper2.py:201-202 | get_date succeeds exactly when strptime does, and its result has the YYYY-MM-DD shape. |
| UploadDate.ScanUploadedLine | pexels_scraper2.py:201-202 | "Uploaded at <Month> <d>, <yyyy>" scans back to the date it was printed from. |
| UploadDate.GetDateRoundTrip | pexels_scraper2.py:201-202 | For every valid date, get_date of its upload line is its ISO 8601 extended calendar date (section 4.1.2.2 of ISO 8601:2004). |
| UploadDate.GetDateRejectsMissingDay | pexels_scraper2.py:201-202 | A day the month does not have, or year 0, raises ValueError. |
| UploadDate.GetDateExample | pexels_scraper2.py:201-202 | "Uploaded at April 5, 2020" becomes "2020-04-05". |
| UploadDate.IsoFormatExample | pexels_scraper2.py:202 | 5 April 2020 is written "2020-04-05", zero-padded. |
| UploadDate.UploadedLineExample | pexels_scraper2.py:201 | 5 April 2020 is spelled "Uploaded at April 5, 2020", as the site prints it. |
| UploadDate.UploadedLineLeapExample | pexels_scraper2.py:201 | A day its month lacks (29 February 2019) is still spelled out, as "Uploaded at February 29, 2019". |
| UploadDate.ScanWordsLine | pexels_scraper2.py:201 | The words "Uploaded at " are read off the front of a line, leaving the month name and the rest. |
| UploadDate.ScanDayYearLine | pexels_scraper2.py:201 | " %d, %Y" reads back any day 1..31 and any four-digit year that it printed. |
| UploadDate.PaddedExamples | pexels_scraper2.py:202 | The year field is padded to four digits and the month and day to two. |
| UploadDate.MonthFromName | pexels_scraper2.py:201 | `%B` reads every full month name as its month number. |
| UploadDate.MonthNameUnique | pexels_scraper2.py:201 | No month name is read as another month. |
| ContentStats.ExtractStats | pexels_scraper2.py:199-214 | Views, downloads and likes are looked up and parsed in that order, then the upload date. The first element that is missing raises NoSuchElementException. The first text that does not parse raises the parser's own exception. The row exists exactly when every element is present and every text parses. Its fields are the parsed values. |
| ContentStats.MissingTitle | pexels_scraper2.py:203-206 | A missing title element gives the same outcome as an empty title. It is never an error. |
| ContentStats.ExtractedDateShape | pexels_scraper2.py:212 | Every row that was read holds a YYYY-MM-DD upload date. |
| ContentStats.DegradedRow | pexels_scraper2.py:190-197 | The give-up row is indexed by the content url, and all its fields are NaN. |
| PexelsScraper2.GetContentStats | pexels_scraper2.py:172-197 | The `for i in range(3)` loop returns the outcome, and the sequence of pages visited, that the attempt-by-attempt specification gives. |
| PexelsScraper2.RetryGivesUp | pexels_scraper2.py:179-197 | After three retried failures there are three resets (blank page, then the page again), and the row is all NaN. |
| PexelsScraper2.RetrySettles | pexels_scraper2.py:172-185 | The first attempt that is not retried decides the outcome: the page's stats, or the exception. Each earlier failure reset the page exactly once. |
| PexelsScraper2.FirstAttemptReady | pexels_scraper2.py:172-178 | A page that opens at the first try is loaded once and never reset. |
| PexelsScraper2.Resets | pexels_scraper2.py:183-185 | k resets are 2k page loads. |
| PexelsScraper2.VectorizeScalar | pexels_scraper2.py:69-80 | A vectorised scraper called with one value returns a one-element list of that value's result, or its exception. |
| Frames.MapAll | pexels_scraper2.py:79 | `list(map(f, xs))` succeeds exactly when every call does, with one result per element in order. Otherwise it raises the first failing element's exception. |
| PexelsScraper2.GetContentUrls | pexels_scraper2.py:129-140 | One row per photo and then per video, in that order. Each row holds the site prefix plus the href, with a missing href written "None". Every row is indexed by the collection url and named after the heading stripped of newlines. |
| Pipeline.DropLikes | pexels_scraper2.py:93-95 | A missing href raises TypeError in the `likes` filter. Otherwise no kept href contains "likes". |
| Pipeline.DropLikesMembership | pexels_scraper2.py:93-95 | An href is kept exactly when it is on the page and does not contain "likes". |
| Pipeline.DropLikesAppend | pexels_scraper2.py:93-95 | The filter keeps page order: filtering a concatenation is concatenating the filtered parts. |
| Pipeline.CollectionRows | pexels_scraper2.py:84-103 | There is one row per kept href, in order. It is indexed by the artist url, carries the artist name, and its url is the site prefix plus the href. |
| Pipeline.ContentFrame | pexels_scraper2.py:136-140 | There is one row per url, in order. It is indexed by the collection url and carries the heading stripped of newlines. |
| PexelsScraper2.FirstFree | pexels_scraper2.py:224-229 | The lowest-index free slot is returned, with every slot before it held. None means every slot is held. |
| PexelsScraper2.ThreadedDrivers.constructor | pexels_scraper2.py:217-222 | A new pool has n slots, all free. |
| PexelsScraper2.ThreadedDrivers.AcquireLock | pexels_scraper2.py:224-229 | The lowest free slot is marked held and its index returned, and no other slot changes. With every slot held it raises IndexError and changes nothing. |
| PexelsScraper2.ThreadedDrivers.FuncWrapper | pexels_scraper2.py:231-238 | On a normal return the slots are exactly as before the call. When the work raises, the slot it took stays held. |
| PexelsScraper2.ThreadedDrivers.Map | pexels_scraper2.py:240-248 | Calls func_wrapper once per element in element order, then chains and concatenates the results: the first exception, or pd.concat of the frames. With no drivers it raises ZeroDivisionError. |
| PexelsScraper2.Chunksize | pexels_scraper2.py:242-243 | The chunk size is always in [1, 2000], and it equals L // n whenever that is in range. |
| PexelsScraper2.RunAllKeepsLocks | pexels_scraper2.py:231-238 | When every call returns normally, every slot is released again. |
| PexelsScraper2.MapKeepsLocks | pexels_scraper2.py:240-248 | A map that returns leaves the pool as it found it. |
| PexelsScraper2.RunAllVectorized | pexels_scraper2.py:231-248 | Starting with a free slot, the per-element results chain to exactly `list(map(f, xs))`, even though a failed call keeps its slot. |
| PexelsScraper2.MapVectorized | pexels_scraper2.py:240-248 | Starting with a free slot, map is `pd.concat(map(f, xs))`: the frames of all elements in input order, the first exception, or ValueError for no elements. |
| PexelsScraper2.BatchMeaning | pexels_scraper2.py:271-286 | With at least one driver, a batch through the pool computes the same as the plain sequential pipeline. With none, it raises ZeroDivisionError. |
| PexelsScraper2.BatchArtists | pexels_scraper2.py:273-286 | Every artist url in a batch's joined rows belongs to that batch. |
| PexelsScraper2.CrawlResumes2 | pexels_scraper2.py:257-290 | Every record main appends belongs to a listed artist that the existing file did not hold. A header is written only first, and only into a file that did not exist. |
| PexelsScraper2.Run | pexels_scraper2.py:257-290 | The batch loop of main, run over the fresh driver pool, leaves the data file, and returns the outcome, that the crawl specification gives. |
| PexelsScraper2.CollectionUrls | pexels_scraper2.py:278 | `collections['collection url']` lists each row's collection url, in row order. |
| PexelsScraper2.ContentUrls | pexels_scraper2.py:280 | `content['content url']` lists each row's content url, in row order. |
| Pipeline.RightJoinAppend | pexels_scraper2.py:284 | The right join follows content order: it distributes over concatenation of the content rows. |
| Pipeline.RightJoinSound | pexels_scraper2.py:284 | Every joined row carries a content row. Its collection is either a collection row with that url, or None, and None only when no collection row has the url. |
| Pipeline.RightJoinUnique | pexels_scraper2.py:284 | When every content row has exactly one matching collection, the join has one row per content row, carrying that collection. |
| Pipeline.RightJoinUnmatched | pexels_scraper2.py:284 | A content row without a matching collection is kept, with no collection. |
| Pipeline.LeftJoinSound | pexels_scraper2.py:285 | Every output row is an input row. Its stats are either the row's own or a stats row for its content url. |
| Pipeline.LeftJoinUnique | pexels_scraper2.py:285 | When each content url has at most one stats row, the join keeps every row in order, each with its matching stats if any. |
| Pipeline.JoinArtists | pexels_scraper2.py:282-287 | Every artist url in the joined frame is that of a collection row. |
| Pipeline.DataFile.Append | pexels_scraper2.py:290 | The file then exists and holds its old lines, followed by a header line when asked, followed by one record per row. |
| Pipeline.Records | pexels_scraper2.py:290 | There is one CSV record per joined row, in order. |
| Pipeline.PendingMembership | pexels_scraper2.py:258-261 | An artist is pending exactly when it is listed and an existing file does not hold it. |
| Pipeline.PendingAppend | pexels_scraper2.py:261 | The completed-artist filter keeps the listed order. |
| Pipeline.BatchCount | pexels_scraper2.py:266 | The batch count is ceil(L / 5). |
| Pipeline.BatchesShape | pexels_scraper2.py:266-267 | No pending artists raises ValueError. Otherwise the batches concatenate to the pending list, each holds one to five artists, and their sizes differ by at most one. |
| Frames.ArraySplit | pexels_scraper2.py:267 | `np.array_split(xs, n)` raises ValueError for n <= 0. Otherwise it has n parts that concatenate to xs, and the first len % n parts hold one element more. |
| Frames.ArraySplitBalanced | pexels_scraper2.py:267 | The parts of array_split differ in size by at most one. |
| Frames.FilterMembership | pexels_scraper2.py:261 | A filter keeps exactly the elements that satisfy the predicate. |
| Frames.FilterAppend | pexels_scraper2.py:261 | A filter keeps order. |
| Frames.ConcatMap | pexels_scraper2.py:248 | The chained, concatenated results succeed exactly when every call does, and otherwise raise the first exception in element order. |
| Frames.ConcatMapSource | pexels_scraper2.py:248 | Every concatenated row comes from the result for some element. |
| Frames.ConcatMapRaises | pexels_scraper.py:181 | One element that raises makes the concatenation raise, and its exception is the one raised when every element before it returned. |
| Frames.Concat | pexels_scraper2.py:248 | `pd.concat` of no frames raises ValueError. Otherwise it is the frames' rows in order. |
| Frames.ConcatAllMeaning | pexels_scraper.py:170 | `pd.concat(map(f, xs))` is ValueError for no elements, and otherwise the in-order chained result. |
| Frames.ConcatMapPieces | pexels_scraper.py:177-181 | Concatenating per-split results in split order is concatenating per-element results over the whole input. |
| Pipeline.RunBatchesHeader | pexels_scraper2.py:271-290 | The batch loop only appends. A header appears only as the first appended line, and only when the file did not exist. |
| Pipeline.RunBatchesArtists | pexels_scraper2.py:271-290 | Every appended record belongs to an artist of one of the batches. |
| Pipeline.CrawlResumes | pexels_scraper2.py:257-290 | A rerun appends records only for listed artists not yet in the file, and never a second header. |
| PexelsScraper.FirstKey | pexels_scraper.py:111-114 | Returns the first of K, M, B, in dict order, that occurs anywhere in the text. |
| PexelsScraper.ToNumber | pexels_scraper.py:104-117 | Empty text raises IndexError. A text not ending in a suffix is `int()`. Otherwise the key used is the first of K, M, B that occurs in the text. |
| PexelsScraper.ToNumberLoop | pexels_scraper.py:104-117 | The for/break loop over the dict computes that function. |
| PexelsScraper.OtherKeyFails | pexels_scraper.py:113 | Stripping a key other than the last character leaves a letter, which float() refuses with ValueError. |
| PexelsScraper.ToNumberAgrees | pexels_scraper.py:104-117 | Both versions of to_number give the same result on every string. |
| PexelsScraper.GetContentStatsAsWritten | pexels_scraper.py:130-142 | As written, the page is loaded once. A retried failure ends as AttributeError, and an opened panel gives the page's stats. |
| PexelsScraper.RetryWitness | pexels_scraper.py:137-142 | A first click that times out followed by a panel that opens ends as AttributeError as written. As intended, it gives the stats after one reset. |
| PexelsScraper.GetContentStatsRetrying | pexels_scraper.py:130-142 | The intended loop retries until an attempt is not retried, and equals the specification for every attempt count that reaches that attempt. |
| PexelsScraper.RetryFromSettled | pexels_scraper.py:130-142 | The attempt bound of the specification does not change its outcome, once some attempt within it is not retried. |
| PexelsScraper.RetryingSettles | pexels_scraper.py:130-142 | The first attempt that is not retried decides the outcome, and each failure before it reset the page once. |
| PexelsScraper.VideoPageRaises | test_pexels_scraper.py:21-26 | Take a page whose panel opens and whose views counter parses. If its downloads, likes or upload date element is missing, it raises NoSuchElementException, both as written and as intended. |
| PexelsScraper.GetContentUrls | pexels_scraper.py:72-102 | Content rows exist exactly when every href is present, with one row per photo and then per video. |
| PexelsScraper.ContentOrder | pexels_scraper.py:93-100 | Row i carries the prefixed href of photo i, or of video i minus the photo count, and is indexed by the collection url. |
| PexelsScraper.SplitCount | pexels_scraper.py:175-176 | The split count is 4*cores when L > 4*cores and L otherwise. It is never more than L, so every split is non-empty, and it is positive when L and cores are. |
| PexelsScraper.Jobs | pexels_scraper.py:178-180 | There is one job per split, in split order. |
| PexelsScraper.ParallelApply | pexels_scraper.py:174-181 | The jobs loop computes the splits-and-jobs definition. |
| PexelsScraper.ParallelApplyMeaning | pexels_scraper.py:159-181 | parallel_apply is `pd.concat(map(f, elems))` in element order. It raises ValueError for no elements or no cores. |
| PexelsScraper.StatsStageStops | pexels_scraper.py:137-138 | As written, the stats stage raises as soon as one content page has a retried first attempt. The exception is AttributeError when every page before it succeeded. |
| PexelsScraper.BatchStops | pexels_scraper.py:216 | As written, a batch raises when its content urls include a page with a retried first attempt. |
| PexelsScraper.BatchArtists | pexels_scraper.py:208-222 | Every artist url in a batch's joined rows belongs to that batch. |
| PexelsScraper.CrawlResumes1 | pexels_scraper.py:195-226 | Every record main appends belongs to a listed artist not in the existing file, and a header is written only into a new file. |
| PexelsScraper.RunBatch | pexels_scraper.py:208-222 | The three parallel_apply stages compute the batch specification: skipped without collections, then the two joins. |
| PexelsScraper.RunBatchLoop | pexels_scraper.py:206-226 | The loop appends each batch's rows, with a header only while the file does not exist, and stops at the first exception. |
| PexelsScraper.Run | pexels_scraper.py:195-226 | main computes the crawl specification, with get_content_stats as written. Zero processes raises ValueError, and a one-line artist file with no data file raises TypeError. |

## Left out

- Page access is left out: Selenium, BeautifulSoup, the XPath and class
  selectors, and scrolling to the end of a collection. The extracted hrefs
  and element texts are inputs. So are the artist name and the collection
  heading. A missing `h1` or `span` element is not modelled.
- Driver creation is left out, with its retry-forever loop, along with
  `time.sleep`, `driver.quit` and the `finally` block of main. These are
  foreign calls without a result to model. A navigation that itself fails
  is not modelled either.
- The `while True` loop in `vectorize` around `partial` is modelled as
  one step, because `partial` cannot raise.
- Threads and processes are modelled sequentially, in input order.
  `executor.map` and `mp.Pool` run concurrently. The result order and the
  first exception in that order are what the model keeps. `chunksize` is
  not passed on, because splitting the work into chunks does not change
  the results of a thread pool. Chunksize states its bounds.
- PexelsScraper2.FuncWrapper: the work is assumed not to depend on which
  slot's driver runs it.
- PexelsScraper2.ToNumber: float arithmetic is idealised as the exact
  decimal times the multiplier, truncated toward zero. The exponents,
  `inf` and `nan` of Python's `float()` are not modelled. Neither are the
  underscores between digits and the Unicode whitespace and digits that
  Python's `int()` and `float()` both accept (`int("1_000")` is 1000); the
  model raises ValueError on them. For a suffixed decimal whose value times the
  multiplier exceeds the largest float (about 1.8e308), the product is
  `inf` in Python, and `int()` of it raises OverflowError. The model gives
  the exact value instead.
  Python 3.11 and later refuse `int()` of more than 4300 digits with
  ValueError; the model has no digit limit. The same holds for
  PexelsScraper.ToNumber.
- PexelsScraper2.ToNumberPlain: holds for integers of any length. Under
  Python 3.11 and later, an integer shown with more than 4300 digits makes
  `int()` raise ValueError, so the round trip holds there only below that
  length. PyStr.ParseIntSigned, PyStr.ParseIntShowInt and
  PyStr.ParseIntText have no digit limit either.
- UploadDate.Strptime: month names and spaces are matched by ASCII rules
  only, not by the C library's locale. The digits of `%d` and `%Y` are
  ASCII digits only as well. Python's pattern uses `\d`, which matches any
  Unicode decimal digit, and `int()` converts those digits. So
  "Uploaded at April 5, ٢٠٢٠" gives "2020-04-05" in Python but
  ValueError in the model.
- UploadDate.IsoFormat: the year is always padded to four digits. Some C
  libraries do not pad years below 1000.
- I/O is left out: CSV reading and writing, `np.loadtxt`, logging, and
  `sys.argv`. The data file is a sequence of header and record lines, and
  the artists already crawled are read back from its records.
- A pandas detail is left out. For a content row whose collection url
  matches nothing, the right join gives a row without an artist url, and
  the pandas index value such a row gets is not modelled.
- The core count that `psutil` returns is an input. `psutil` returning
  None is not modelled.
- PexelsScraper.GetContentUrls: in the source, an anchor without href
  gets a NaN content url, and the crawl fails later when the driver is sent
  there. The model fails at the content stage instead, with
  WebDriverException.
- PexelsScraper.RetryingStats: the intended loop has no bound. Its
  specification takes the number of attempts as a parameter, and does not
  model a page that never stops failing, on which the source loops forever.
  The crawl of main (PexelsScraper.Run) does not use the corrected loop. Its
  stats stage runs get_content_stats as written.
- ContentStats.ContentVisit: an opened panel and the views element are not
  tied together. In the source an attempt succeeds only once the views
  element is visible (`pexels_scraper.py:135`, `pexels_scraper2.py:176`),
  and the later lookup uses the same path. So the model's case of a missing
  views element after an opened panel cannot arise there.
- main.py is not part of this model. It calls functions that
  `pexels_scraper.py` does not define.
- test_pexels_scraper.py is not part of this model. It needs a live browser
  and serves only as evidence for VideoPageRaises.

## Findings

| source | as written | input that shows it | evidently intended | confidence | as-written member | corrected member |
|---|---|---|---|---|---|---|
| pexels_scraper.py:138 | The handler for a timed-out or intercepted click calls `logger.WARNING(...)`. Logger has no such method, so the handler raises AttributeError, the page is never reset, and the loop never retries. | A content page whose first click raises TimeoutException and whose second attempt opens the panel. | Log a warning (`logger.warning`), reset the page, and try again until the panel opens. | not executed | PexelsScraper.GetContentStatsAsWritten, PexelsScraper.RetryWitness, PexelsScraper.BatchStops | PexelsScraper.GetContentStatsRetrying, PexelsScraper.RetryingSettles |
