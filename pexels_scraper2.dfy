/** The threaded crawler: stat parsing, the bounded stats retry, the
    vectorised page scrapers, the pool of driver slots and the batch loop of
    main. */
module PexelsScraper2 {
  import opened Wrappers
  import opened PyStr
  import opened Frames
  import opened ContentStats
  import opened Pipeline

  // ---------------------------------------------------------------------
  // to_number

  /** The suffixes a count may carry. */
  const Suffixes: seq<char> := ['K', 'M', 'B']

  function Multiplier(key: char): (m: nat)
    requires key in Suffixes
    ensures m == if key == 'K' then 1000 else if key == 'M' then 1000000 else 1000000000
  {
    if key == 'K' then 1000 else if key == 'M' then 1000000 else 1000000000
  }

  /** `to_number`: a count as the site prints it. When the last character is
      a suffix, the rest of the text read as a float times the suffix's
      multiplier, truncated; otherwise the whole text read by int(). */
  function ToNumber(s: string): (r: Result<int>)
    ensures r.Err? ==> r.error == if s == [] then IndexError else ValueError
  {
    if s == [] then Err(IndexError)
    else
      var key := s[|s| - 1];
      if key in Suffixes then
        match ParseDecimal(Strip(s, key))
        case Ok(d) => Ok(TruncTimes(d, Multiplier(key)))
        case Err(e) => Err(e)
      else
        ParseInt(s)
  }

  /** Removing a suffix that ends a text which neither starts nor ends with it. */
  lemma StripSuffix(body: string, key: char)
    requires body != [] && body[0] != key && body[|body| - 1] != key
    ensures Strip(body + [key], key) == body
  {
    var s := body + [key];
    var i, j :| 0 <= i <= j <= |s| && Strip(s, key) == s[i..j]
      && (forall k :: 0 <= k < i ==> s[k] == key)
      && (forall k :: j <= k < |s| ==> s[k] == key);
    assert s[0] != key && s[|s| - 2] != key && s[|s| - 1] == key;
    assert i == 0;
    assert i < j ==> Strip(s, key)[j - i - 1] == s[j - 1];
    assert j == |s| - 1;
    assert s[..|s| - 1] == body;
  }

  /** A plain count is read back as the integer it shows. */
  lemma {:induction false} ToNumberPlain(n: int)
    ensures ToNumber(ShowInt(n)) == Ok(n)
  {
    ShowIntLastDigit(n);
    ToNumberUnsuffixed(ShowInt(n));
    ParseIntShowInt(n);
  }

  /** A count without a suffix is read by int() alone. */
  lemma ToNumberUnsuffixed(s: string)
    requires s != [] && IsDigit(s[|s| - 1])
    ensures ToNumber(s) == ParseInt(s)
  {
  }

  /** A whole number with a suffix is that number times the multiplier. */
  lemma ToNumberScaled(n: nat, key: char)
    requires key in Suffixes
    ensures ToNumber(ShowNat(n) + [key]) == Ok(n * Multiplier(key))
  {
    var digits := ShowNat(n);
    assert !IsDigit(key);
    StripSuffix(digits, key);
    ParseDecimalShowNat(n);
  }

  /** A suffixed count is the float before the suffix times the multiplier. */
  lemma ToNumberSuffixed(body: string, key: char, d: Decimal)
    requires key in Suffixes && ParseDecimal(body) == Ok(d)
    ensures ToNumber(body + [key]) == Ok(TruncTimes(d, Multiplier(key)))
  {
    ParseDecimalChars(body);
    ParseDecimalLastChar(body);
    assert !DecimalChar(key);
    StripSuffix(body, key);
  }

  /** Counts as the site shows them, read as the crawler reads them. */
  lemma ToNumberExampleK(s: string)
    requires s == "1.2K"
    ensures ToNumber(s) == Ok(1200)
  {
    var body := s[..3];
    assert body + ['K'] == s;
    DecimalExample(body);
    var d := Decimal(false, 12, 1);
    ToNumberSuffixed(body, 'K', d);
    assert TruncTimes(d, 1000) == 1200;
  }

  lemma DecimalExample(body: string)
    requires body == "1.2"
    ensures ParseDecimal(body) == Ok(Decimal(false, 12, 1))
  {
    assert ShowNat(1) == "1";
    assert ShowNat(1) + "." + "2" == body;
    ParseDecimalPoint(1, "2");
    assert DigitsValue("2") == 2 && Pow10(1) == 10;
  }

  lemma ToNumberExampleM(s: string)
    requires s == "3M"
    ensures ToNumber(s) == Ok(3000000)
  {
    assert ShowNat(3) + ['M'] == s;
    ToNumberScaled(3, 'M');
  }

  lemma ToNumberExamplePlain(s: string)
    requires s == "347"
    ensures ToNumber(s) == Ok(347)
  {
    assert ShowNat(3) == "3";
    assert ShowNat(34) == ShowNat(3) + [DigitChar(4)];
    assert ShowNat(347) == ShowNat(34) + [DigitChar(7)];
    assert ShowInt(347) == s;
    ToNumberPlain(347);
  }

  // ---------------------------------------------------------------------
  // get_content_stats: the bounded retry

  const MaxAttempts: nat := 3

  /** The page the driver is sent to between two attempts. */
  const Blank: string := "about:blank"

  /** `k` resets: each sends the driver to the blank page and back. */
  function Resets(url: string, k: nat): (r: seq<string>)
    ensures |r| == 2 * k
  {
    if k == 0 then [] else Resets(url, k - 1) + [Blank, url]
  }

  /** Attempts `i` onwards: the outcome and the pages visited. A retried
      failure resets the page; the third one gives up with a NaN row. */
  function StatsAttempts(url: string, visit: ContentVisit, i: nat): (Result<StatsRow>, seq<string>)
    requires i < MaxAttempts
    decreases MaxAttempts - i
  {
    match visit.attempt(i)
    case Ready => (ExtractStats(url, visit.page, ToNumber), [])
    case Raised(e) =>
      if !Retried(visit.attempt(i)) then (Err(e), [])
      else if i == MaxAttempts - 1 then (Ok(DegradedRow(url)), [Blank, url])
      else
        (StatsAttempts(url, visit, i + 1).0, [Blank, url] + StatsAttempts(url, visit, i + 1).1)
  }

  /** `get_content_stats(driver, logger, content_url)`: the row and every
      page the driver was sent to, in order. */
  function ContentStatsOf(url: string, visit: ContentVisit): (Result<StatsRow>, seq<string>) {
    (StatsAttempts(url, visit, 0).0, [url] + StatsAttempts(url, visit, 0).1)
  }

  lemma ResetsStep(url: string, i: nat, rest: seq<string>)
    ensures [url] + Resets(url, i) + ([Blank, url] + rest) == [url] + Resets(url, i + 1) + rest
  {
  }

  /** get_content_stats as the loop it is. */
  method GetContentStats(url: string, visit: ContentVisit) returns (r: Result<StatsRow>, visits: seq<string>)
    ensures (r, visits) == ContentStatsOf(url, visit)
  {
    visits := [url];
    var i := 0;
    while true
      invariant 0 <= i < MaxAttempts
      invariant visits == [url] + Resets(url, i)
      invariant ContentStatsOf(url, visit) ==
        (StatsAttempts(url, visit, i).0, [url] + Resets(url, i) + StatsAttempts(url, visit, i).1)
      decreases MaxAttempts - i
    {
      var w := visit.attempt(i);
      if w.Ready? {
        break;
      }
      if !Retried(w) {
        r := Err(w.error);
        assert StatsAttempts(url, visit, i) == (r, []);
        assert visits + [] == visits;
        return;
      }
      visits := visits + [Blank, url];
      if i == MaxAttempts - 1 {
        r := Ok(DegradedRow(url));
        assert StatsAttempts(url, visit, i) == (r, [Blank, url]);
        return;
      }
      ResetsStep(url, i, StatsAttempts(url, visit, i + 1).1);
      i := i + 1;
    }
    r := ExtractStats(url, visit.page, ToNumber);
    assert StatsAttempts(url, visit, i) == (r, []);
    assert visits + [] == visits;
  }

  /** Three retried failures in a row: three resets, then a row of NaNs
      indexed by the content url. */
  lemma RetryGivesUp(url: string, visit: ContentVisit)
    requires Retried(visit.attempt(0)) && Retried(visit.attempt(1)) && Retried(visit.attempt(2))
    ensures ContentStatsOf(url, visit) == (Ok(DegradedRow(url)), [url] + Resets(url, 3))
  {
    var two := StatsAttempts(url, visit, 2);
    assert two == (Ok(DegradedRow(url)), [Blank, url]);
    var one := StatsAttempts(url, visit, 1);
    assert one == (two.0, [Blank, url] + two.1);
    var zero := StatsAttempts(url, visit, 0);
    assert zero == (one.0, [Blank, url] + one.1);
    assert Resets(url, 1) == [Blank, url];
    assert Resets(url, 2) == [Blank, url, Blank, url];
    assert Resets(url, 3) == [Blank, url, Blank, url, Blank, url];
    assert zero.1 == Resets(url, 3);
  }

  /** The first attempt that is not retried, the k-th, decides: an opened
      panel gives the page's stats, any other failure propagates; each of the
      k failures before it reset the page once. */
  lemma RetrySettles(url: string, visit: ContentVisit, k: nat)
    requires k < MaxAttempts && !Retried(visit.attempt(k))
    requires forall j :: 0 <= j < k ==> Retried(visit.attempt(j))
    ensures ContentStatsOf(url, visit).1 == [url] + Resets(url, k)
    ensures ContentStatsOf(url, visit).0 ==
      if visit.attempt(k).Ready? then ExtractStats(url, visit.page, ToNumber) else Err(visit.attempt(k).error)
  {
    assert Retried(visit.attempt(0)) ==> k > 0;
    assert Retried(visit.attempt(1)) && k > 1 ==> k == 2;
    if k == 0 {
    } else if k == 1 {
      assert StatsAttempts(url, visit, 0).1 == [Blank, url] + StatsAttempts(url, visit, 1).1;
    } else {
      assert StatsAttempts(url, visit, 1).1 == [Blank, url] + StatsAttempts(url, visit, 2).1;
      assert Resets(url, 2) == [Blank, url, Blank, url];
    }
  }

  /** A page whose first attempt opens the panel is never reset. */
  lemma FirstAttemptReady(url: string, visit: ContentVisit)
    requires visit.attempt(0).Ready?
    ensures ContentStatsOf(url, visit) == (ExtractStats(url, visit.page, ToNumber), [url])
  {
    assert StatsAttempts(url, visit, 0) == (ExtractStats(url, visit.page, ToNumber), []);
    assert [url] + [] == [url];
  }

  // ---------------------------------------------------------------------
  // vectorize and the page scrapers

  /** What a vectorised scraper is called with: one value, or an array. */
  datatype Arg<T> = Scalar(x: T) | Array(xs: seq<T>)

  /** `np.array(array, ndmin=1)` of a non-array: one element. */
  function AsArray<T>(a: Arg<T>): seq<T> {
    match a
    case Scalar(x) => [x]
    case Array(xs) => xs
  }

  /** `vectorize(function)(driver, logger, array)`: one result per element,
      in order. */
  function Vectorize<T, R>(f: T -> Result<R>, a: Arg<T>): Result<seq<R>> {
    MapAll(f, AsArray(a))
  }

  function Vectorized<T, R>(f: T -> Result<R>): Arg<T> -> Result<seq<R>> {
    a => Vectorize(f, a)
  }

  /** A single value gives a one-element list of its result. */
  lemma VectorizeScalar<T, R>(f: T -> Result<R>, x: T)
    ensures Vectorize(f, Scalar(x)) == if f(x).Ok? then Ok([f(x).value]) else Err(f(x).error)
  {
    assert [x][0] == x;
    if f(x).Ok? {
      var v := MapAll(f, [x]).value;
      assert |v| == 1 && f(x) == Ok(v[0]);
      assert v == [f(x).value];
    }
  }

  /** get_collections_urls of one artist. */
  function GetCollectionsUrls(web: Web, artistUrl: string): Result<seq<CollectionRow>> {
    CollectionRows(artistUrl, web.artist(CollectionsUrl(artistUrl)))
  }

  /** A content href after `astype(str)` and the site prefix: a missing href
      becomes the text "None". */
  function ContentHref(href: Option<string>): string {
    SiteRoot + (if href.Some? then href.value else "None")
  }

  /** get_content_urls of one collection: photos first, then videos, each
      row indexed by the collection url and named after the heading. */
  function GetContentUrls(web: Web, collectionUrl: string): (r: Result<seq<ContentRow>>)
    ensures var page := web.collection(collectionUrl);
      r.Ok? && |r.value| == |page.photos| + |page.videos| &&
      (forall i :: 0 <= i < |r.value| ==>
        r.value[i].collectionUrl == collectionUrl && r.value[i].collectionName == Strip(page.heading, '\n')) &&
      (forall i :: 0 <= i < |page.photos| ==> r.value[i].contentUrl == ContentHref(page.photos[i])) &&
      (forall i :: 0 <= i < |page.videos| ==>
        r.value[|page.photos| + i].contentUrl == ContentHref(page.videos[i]))
  {
    var page := web.collection(collectionUrl);
    Ok(ContentFrame(collectionUrl, page.heading, ContentHrefs(page.photos, page.videos)))
  }

  /** The content urls of the photo links, then of the video links. */
  function ContentHrefs(photos: seq<Option<string>>, videos: seq<Option<string>>): (urls: seq<string>)
    ensures |urls| == |photos| + |videos|
    ensures forall i :: 0 <= i < |photos| ==> urls[i] == ContentHref(photos[i])
    ensures forall i :: 0 <= i < |videos| ==> urls[|photos| + i] == ContentHref(videos[i])
  {
    seq(|photos| + |videos|, i requires 0 <= i < |photos| + |videos| =>
      if i < |photos| then ContentHref(photos[i]) else ContentHref(videos[i - |photos|]))
  }

  /** get_content_stats of one content url, as a one-row frame. */
  function GetContentStatsFrame(web: Web, contentUrl: string): Result<seq<StatsRow>> {
    var row :- ContentStatsOf(contentUrl, web.content(contentUrl)).0;
    Ok([row])
  }

  function CollectionsWork(web: Web): string -> Result<seq<CollectionRow>> {
    u => GetCollectionsUrls(web, u)
  }

  function ContentWork(web: Web): string -> Result<seq<ContentRow>> {
    u => GetContentUrls(web, u)
  }

  function StatsWork(web: Web): string -> Result<seq<StatsRow>> {
    u => GetContentStatsFrame(web, u)
  }

  // ---------------------------------------------------------------------
  // ThreadedDrivers

  /** The lowest-index free slot, if any. */
  function FirstFree(locks: seq<bool>): (r: Option<nat>)
    ensures r.Some? ==> r.value < |locks| && !locks[r.value] && forall j :: 0 <= j < r.value ==> locks[j]
    ensures r.None? ==> forall j :: 0 <= j < |locks| ==> locks[j]
  {
    if locks == [] then None
    else if !locks[0] then Some(0)
    else match FirstFree(locks[1..])
      case None => None
      case Some(i) => Some(i + 1)
  }

  /** Every slot free, as ThreadedDrivers starts. */
  function AllFree(n: nat): (r: seq<bool>)
    ensures |r| == n && forall i :: 0 <= i < n ==> !r[i]
  {
    seq(n, _ => false)
  }

  /** func_wrapper on the slot states `locks`: the outcome and the new slot
      states. The work does not depend on which slot's driver runs it. */
  function WrapperOutcome<T, R>(locks: seq<bool>, work: Arg<T> -> Result<R>, elems: Arg<T>): (Result<R>, seq<bool>) {
    match FirstFree(locks)
    case None => (Err(IndexError), locks)
    case Some(i) =>
      var res := work(elems);
      (res, if res.Ok? then locks else locks[i := true])
  }

  /** func_wrapper on each element in turn: the outcomes in order and the
      slot states after the last. */
  function RunAllResults<T, R>(locks: seq<bool>, work: Arg<T> -> Result<R>, xs: seq<T>): (r: (seq<Result<R>>, seq<bool>))
    ensures |r.0| == |xs| && |r.1| == |locks|
  {
    if xs == [] then ([], locks)
    else
      var (rs, l) := RunAllResults(locks, work, xs[..|xs| - 1]);
      var (res, l2) := WrapperOutcome(l, work, Scalar(xs[|xs| - 1]));
      (rs + [res], l2)
  }

  /** ThreadedDrivers.map on the slot states `locks`: the concatenated rows
      (the first exception in element order, or pandas' refusal of an empty
      list) and the new slot states. */
  function MapOutcome<T, R>(locks: seq<bool>, work: Arg<T> -> Result<seq<seq<R>>>, xs: seq<T>): (Result<seq<R>>, seq<bool>) {
    if |locks| == 0 then (Err(ZeroDivisionError), locks)
    else
      var (results, l) := RunAllResults(locks, work, xs);
      (match ConcatMap(Get, results)
       case Err(e) => Err(e)
       case Ok(frames) => Concat(frames), l)
  }

  /** `min(max(L // n, 1), 2000)`. */
  function Chunksize(l: nat, n: nat): (c: nat)
    requires n > 0
    ensures 1 <= c <= 2000
    ensures 1 <= l / n <= 2000 ==> c == l / n
  {
    var m := if l / n > 1 then l / n else 1;
    if m < 2000 then m else 2000
  }

  class ThreadedDrivers {
    /** One flag per driver: whether its lock is held. */
    const locks: array<bool>

    constructor (nThreads: nat)
      ensures fresh(locks) && locks[..] == AllFree(nThreads)
    {
      locks := new bool[nThreads](_ => false);
    }

    /** acquire_lock: takes the lowest-index free slot and returns its
        index, changing no other slot; with no slot free it raises
        IndexError and changes nothing. */
    method AcquireLock() returns (r: Result<nat>)
      modifies locks
      ensures FirstFree(old(locks[..])).Some? ==>
        r == Ok(FirstFree(old(locks[..])).value) && locks[..] == old(locks[..])[r.value := true]
      ensures FirstFree(old(locks[..])).None? ==> r == Err(IndexError) && locks[..] == old(locks[..])
    {
      for i := 0 to locks.Length
        invariant forall j :: 0 <= j < i ==> locks[j]
        invariant locks[..] == old(locks[..])
      {
        if !locks[i] {
          locks[i] := true;
          return Ok(i);
        }
      }
      return Err(IndexError);
    }

    /** func_wrapper: runs the work on a slot of its own. On a normal return
        the slot is released and the slots are as before; when the work
        raises, the slot stays held. */
    method FuncWrapper<T, R>(work: Arg<T> -> Result<R>, elems: Arg<T>) returns (r: Result<R>)
      modifies locks
      ensures (r, locks[..]) == WrapperOutcome(old(locks[..]), work, elems)
      ensures r.Ok? ==> locks[..] == old(locks[..])
    {
      var slot := AcquireLock();
      if slot.Err? {
        return Err(slot.error);
      }
      r := work(elems);
      if r.Err? {
        return;
      }
      locks[slot.value] := false;
      assert locks[..] == old(locks[..])[slot.value := true][slot.value := false];
      assert old(locks[..])[slot.value := true][slot.value := false] == old(locks[..]);
    }

    /** map: func_wrapper on every element in turn, then the outcomes
        chained in element order and concatenated. */
    method Map<T, R>(work: Arg<T> -> Result<seq<seq<R>>>, elems: seq<T>) returns (r: Result<seq<R>>)
      modifies locks
      ensures (r, locks[..]) == MapOutcome(old(locks[..]), work, elems)
    {
      if locks.Length == 0 {
        return Err(ZeroDivisionError);
      }
      var results: seq<Result<seq<seq<R>>>> := [];
      for i := 0 to |elems|
        invariant (results, locks[..]) == RunAllResults(old(locks[..]), work, elems[..i])
      {
        assert elems[..i + 1][..i] == elems[..i];
        var res := FuncWrapper(work, Scalar(elems[i]));
        results := results + [res];
      }
      assert elems[..|elems|] == elems;
      r := match ConcatMap(Get, results)
        case Err(e) => Err(e)
        case Ok(frames) => Concat(frames);
    }
  }

  /** When every call returned, every slot was released again. */
  lemma {:induction false} RunAllKeepsLocks<T, R>(locks: seq<bool>, work: Arg<T> -> Result<R>, xs: seq<T>)
    requires forall k :: 0 <= k < |xs| ==> RunAllResults(locks, work, xs).0[k].Ok?
    ensures RunAllResults(locks, work, xs).1 == locks
  {
    if xs != [] {
      var p := xs[..|xs| - 1];
      var (rs, l) := RunAllResults(locks, work, p);
      assert forall k :: 0 <= k < |p| ==> RunAllResults(locks, work, p).0[k].Ok? by {
        forall k | 0 <= k < |p| ensures rs[k].Ok? {
          assert RunAllResults(locks, work, xs).0[k] == rs[k];
        }
      }
      RunAllKeepsLocks(locks, work, p);
      assert RunAllResults(locks, work, xs).0[|xs| - 1] == WrapperOutcome(l, work, Scalar(xs[|xs| - 1])).0;
    }
  }

  /** A map that returns leaves every slot as it found it. */
  lemma MapKeepsLocks<T, R>(locks: seq<bool>, work: Arg<T> -> Result<seq<seq<R>>>, xs: seq<T>)
    requires MapOutcome(locks, work, xs).0.Ok?
    ensures MapOutcome(locks, work, xs).1 == locks
  {
    var results := RunAllResults(locks, work, xs).0;
    assert ConcatMap(Get, results).Ok?;
    RunAllKeepsLocks(locks, work, xs);
  }

  /** With a free slot to start from, running a vectorised scraper on every
      element through the slots collects exactly list(map(f, xs)): the first
      exception in element order wins even though a failed call keeps its
      slot, and when nothing fails the slots come back as they were. */
  lemma {:induction false} RunAllVectorized<T, R>(locks: seq<bool>, f: T -> Result<seq<R>>, xs: seq<T>)
    requires FirstFree(locks).Some?
    ensures ConcatMap(Get, RunAllResults(locks, Vectorized(f), xs).0) == MapAll(f, xs)
    ensures MapAll(f, xs).Ok? ==> RunAllResults(locks, Vectorized(f), xs).1 == locks
  {
    if xs != [] {
      var p, x := xs[..|xs| - 1], xs[|xs| - 1];
      assert xs == p + [x];
      RunAllVectorized(locks, f, p);
      var (rs, l) := RunAllResults(locks, Vectorized(f), p);
      var (res, l2) := WrapperOutcome(l, Vectorized(f), Scalar(x));
      ConcatMapAppend(Get, rs, [res]);
      MapAllAppend(f, p, [x]);
      assert ConcatMap(Get, [res]) == res by {
        assert [res][1..] == [];
        match res {
          case Ok(v) => assert v + [] == v;
          case Err(_) =>
        }
      }
      if MapAll(f, p).Ok? {
        assert res == MapAll(f, [x]);
      }
    }
  }

  /** ThreadedDrivers.map over a vectorised scraper, started with a free
      slot, is `pd.concat(map(f, xs))`: the frames of all elements in order,
      the first exception, or ValueError for no elements. */
  lemma MapVectorized<T, R>(locks: seq<bool>, f: T -> Result<seq<R>>, xs: seq<T>)
    requires FirstFree(locks).Some?
    ensures MapOutcome(locks, Vectorized(f), xs).0 == ConcatAll(f, xs)
    ensures xs == [] ==> MapOutcome(locks, Vectorized(f), xs).0 == Err(ValueError)
    ensures xs != [] ==> MapOutcome(locks, Vectorized(f), xs).0 == ConcatMap(f, xs)
  {
    RunAllVectorized(locks, f, xs);
    ConcatAllMeaning(f, xs);
  }

  // ---------------------------------------------------------------------
  // main

  /** `n_physical_cores * 3`. */
  function ThreadCount(cores: nat): nat {
    cores * 3
  }

  function CollectionUrls(rows: seq<CollectionRow>): (r: seq<string>)
    ensures |r| == |rows| && forall i :: 0 <= i < |rows| ==> r[i] == rows[i].collectionUrl
  {
    seq(|rows|, i requires 0 <= i < |rows| => rows[i].collectionUrl)
  }

  function ContentUrls(rows: seq<ContentRow>): (r: seq<string>)
    ensures |r| == |rows| && forall i :: 0 <= i < |rows| ==> r[i] == rows[i].contentUrl
  {
    seq(|rows|, i requires 0 <= i < |rows| => rows[i].contentUrl)
  }

  /** One batch of main, with the driver slots as `locks` at its start:
      collections, skipped when there are none, then content, then stats,
      then the two joins. */
  function Batch(web: Web, locks: seq<bool>, split: seq<string>): Result<BatchOutcome> {
    var collections :- MapOutcome(locks, Vectorized(CollectionsWork(web)), split).0;
    if collections == [] then Ok(Skipped)
    else
      var content :- MapOutcome(locks, Vectorized(ContentWork(web)), CollectionUrls(collections)).0;
      var stats :- MapOutcome(locks, Vectorized(StatsWork(web)), ContentUrls(content)).0;
      Ok(Joined(Join(collections, content, stats)))
  }

  function BatchOf(web: Web, locks: seq<bool>): seq<string> -> Result<BatchOutcome> {
    s => Batch(web, locks, s)
  }

  /** The same batch computed without driver slots: each stage is
      `pd.concat(map(scraper, urls))`. */
  function SequentialBatch(web: Web, split: seq<string>): Result<BatchOutcome> {
    var collections :- ConcatAll(CollectionsWork(web), split);
    if collections == [] then Ok(Skipped)
    else
      var content :- ConcatAll(ContentWork(web), CollectionUrls(collections));
      var stats :- ConcatAll(StatsWork(web), ContentUrls(content));
      Ok(Joined(Join(collections, content, stats)))
  }

  /** With at least one driver, the pool changes nothing about what a batch
      computes; with none, every batch fails on the chunk size. */
  lemma BatchMeaning(web: Web, n: nat, split: seq<string>)
    ensures n > 0 ==> Batch(web, AllFree(n), split) == SequentialBatch(web, split)
    ensures n == 0 ==> Batch(web, AllFree(n), split) == Err(ZeroDivisionError)
  {
    if n > 0 {
      var locks := AllFree(n);
      assert FirstFree(locks).Some?;
      MapVectorized(locks, CollectionsWork(web), split);
      var c := ConcatAll(CollectionsWork(web), split);
      if c.Ok? && c.value != [] {
        BatchJoinMeaning(web, locks, c.value);
      }
    }
  }

  /** The content and stats stages of a batch that found collections. */
  lemma BatchJoinMeaning(web: Web, locks: seq<bool>, collections: seq<CollectionRow>)
    requires FirstFree(locks).Some?
    ensures (var content :- MapOutcome(locks, Vectorized(ContentWork(web)), CollectionUrls(collections)).0;
             var stats :- MapOutcome(locks, Vectorized(StatsWork(web)), ContentUrls(content)).0;
             Ok(Joined(Join(collections, content, stats))))
         == (var content :- ConcatAll(ContentWork(web), CollectionUrls(collections));
             var stats :- ConcatAll(StatsWork(web), ContentUrls(content));
             Ok(Joined(Join(collections, content, stats))))
  {
    MapVectorized(locks, ContentWork(web), CollectionUrls(collections));
    var t := ConcatAll(ContentWork(web), CollectionUrls(collections));
    if t.Ok? {
      MapVectorized(locks, StatsWork(web), ContentUrls(t.value));
    }
  }

  /** The rows of a batch belong to the batch's artists. */
  lemma BatchArtists(web: Web, n: nat)
    ensures RowsFromBatch(BatchOf(web, AllFree(n)))
  {
    var batch := BatchOf(web, AllFree(n));
    forall s: seq<string>, k: nat | batch(s).Ok? && batch(s).value.Joined? && k < |batch(s).value.rows|
      ensures batch(s).value.rows[k].ArtistUrl().Some? ==> batch(s).value.rows[k].ArtistUrl().value in s
    {
      BatchMeaning(web, n, s);
      var collections := ConcatAll(CollectionsWork(web), s).value;
      var content := ConcatAll(ContentWork(web), CollectionUrls(collections)).value;
      var stats := ConcatAll(StatsWork(web), ContentUrls(content)).value;
      assert batch(s).value.rows == Join(collections, content, stats);
      var row := batch(s).value.rows[k];
      if row.ArtistUrl().Some? {
        JoinArtists(collections, content, stats, k);
        var c :| c in collections && c.artistUrl == row.ArtistUrl().value;
        ConcatAllMeaning(CollectionsWork(web), s);
        ConcatMapSource(CollectionsWork(web), s, c);
        var i :| 0 <= i < |s| && CollectionsWork(web)(s[i]).Ok? && c in CollectionsWork(web)(s[i]).value;
        var rows := GetCollectionsUrls(web, s[i]).value;
        var j :| 0 <= j < |rows| && rows[j] == c;
        assert c.artistUrl == s[i];
      }
    }
  }

  /** The whole crawl of main after the artist list is read. */
  function CrawlOutcome(artists: seq<string>, web: Web, cores: nat, file: FileState): (Result<()>, FileState) {
    Crawl(artists, BatchOf(web, AllFree(ThreadCount(cores))), file)
  }

  /** main resumes correctly: what it appends to an existing data file
      belongs to listed artists the file did not hold, and a header is
      written only into a file that did not exist. */
  lemma CrawlResumes2(artists: seq<string>, web: Web, cores: nat, file: FileState, k: nat)
    requires |file.lines| <= k < |CrawlOutcome(artists, web, cores, file).1.lines|
    ensures CrawlOutcome(artists, web, cores, file).1.lines[k] == Header ==> k == |file.lines| && !file.present
    ensures var line := CrawlOutcome(artists, web, cores, file).1.lines[k];
      line.Record? && line.row.ArtistUrl().Some? ==>
        line.row.ArtistUrl().value in artists &&
        !(file.present && line.row.ArtistUrl().value in Completed(file.lines))
  {
    BatchArtists(web, ThreadCount(cores));
    CrawlResumes(artists, BatchOf(web, AllFree(ThreadCount(cores))), file, k);
  }

  /** main: batches of at most five pending artists, each scraped through
      the driver pool and appended to the data file. */
  method Run(artists: seq<string>, web: Web, cores: nat, file: DataFile) returns (r: Result<()>)
    modifies file
    ensures (r, file.State()) == CrawlOutcome(artists, web, cores, old(file.State()))
  {
    var pending := Pending(artists, file.State());
    var splits := Batches(pending);
    if splits.Err? {
      return Err(splits.error);
    }
    var batches := splits.value;
    var drivers := new ThreadedDrivers(ThreadCount(cores));
    var locks0 := AllFree(ThreadCount(cores));
    var batch := BatchOf(web, locks0);
    var i := 0;
    while i < |batches|
      invariant 0 <= i <= |batches|
      invariant drivers.locks[..] == locks0
      invariant RunBatches(batches[i..], batch, file.State()) == RunBatches(batches, batch, old(file.State()))
      invariant fresh(drivers.locks)
    {
      var split := batches[i];
      assert batches[i..][0] == split && batches[i..][1..] == batches[i + 1..];
      var collections := drivers.Map(Vectorized(CollectionsWork(web)), split);
      if collections.Err? {
        return Err(collections.error);
      }
      MapKeepsLocks(locks0, Vectorized(CollectionsWork(web)), split);
      if collections.value == [] {
        i := i + 1;
        continue;
      }
      var content := drivers.Map(Vectorized(ContentWork(web)), CollectionUrls(collections.value));
      if content.Err? {
        return Err(content.error);
      }
      MapKeepsLocks(locks0, Vectorized(ContentWork(web)), CollectionUrls(collections.value));
      var stats := drivers.Map(Vectorized(StatsWork(web)), ContentUrls(content.value));
      if stats.Err? {
        return Err(stats.error);
      }
      MapKeepsLocks(locks0, Vectorized(StatsWork(web)), ContentUrls(content.value));
      var joined := Join(collections.value, content.value, stats.value);
      var header := !file.present;
      file.Append(joined, header);
      i := i + 1;
    }
    return Ok(());
  }
}
