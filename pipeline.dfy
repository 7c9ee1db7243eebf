/** The relational part of the crawl shared by both crawler versions: the
    rows each stage produces, the two joins, resuming from the data file, the
    batching of pending artists, and appending each batch to the data file. */
module Pipeline {
  import opened Wrappers
  import opened PyStr
  import opened Frames
  import opened ContentStats

  const SiteRoot: string := "https://www.pexels.com"

  /** A row of the collections frame, indexed by the artist url. */
  datatype CollectionRow = CollectionRow(artistUrl: string, artistName: string, collectionUrl: string)

  /** A row of the content frame, indexed by the collection url. */
  datatype ContentRow = ContentRow(collectionUrl: string, collectionName: string, contentUrl: string)

  /** An artist's collections page: the name in its heading and the href of
      every collection link, None for a link without one. */
  datatype ArtistPage = ArtistPage(name: string, hrefs: seq<Option<string>>)

  /** A collection page scrolled to its end: its heading and the hrefs of
      its photo links and of its video links. */
  datatype CollectionPage = CollectionPage(heading: string, photos: seq<Option<string>>, videos: seq<Option<string>>)

  /** What the driver shows for each url the crawl visits. */
  datatype Web = Web(
    artist: string -> ArtistPage,
    collection: string -> CollectionPage,
    content: string -> ContentVisit)

  predicate AllPresent(hrefs: seq<Option<string>>) {
    forall i :: 0 <= i < |hrefs| ==> hrefs[i].Some?
  }

  function Present(hrefs: seq<Option<string>>): (r: seq<string>)
    requires AllPresent(hrefs)
    ensures |r| == |hrefs| && forall i :: 0 <= i < |r| ==> hrefs[i] == Some(r[i])
  {
    seq(|hrefs|, i requires 0 <= i < |hrefs| => hrefs[i].value)
  }

  predicate NotLikes(href: string) {
    !Contains(href, "likes")
  }

  /** `filter(not_likes, hrefs)`: `'likes' in None` raises TypeError, so one
      link without an href fails the whole page. */
  function DropLikes(hrefs: seq<Option<string>>): (r: Result<seq<string>>)
    ensures r.Ok? <==> AllPresent(hrefs)
    ensures !AllPresent(hrefs) ==> r == Err(TypeError)
    ensures r.Ok? ==> forall i :: 0 <= i < |r.value| ==> NotLikes(r.value[i])
  {
    if AllPresent(hrefs) then
      var kept := Filter(NotLikes, Present(hrefs));
      assert forall i :: 0 <= i < |kept| ==> NotLikes(kept[i]) by {
        forall i | 0 <= i < |kept| ensures NotLikes(kept[i]) {
          FilterMembership(NotLikes, Present(hrefs), kept[i]);
        }
      }
      Ok(kept)
    else Err(TypeError)
  }

  /** Every href without 'likes' survives DropLikes, and nothing else does. */
  lemma DropLikesMembership(hrefs: seq<Option<string>>, href: string)
    requires AllPresent(hrefs)
    ensures href in DropLikes(hrefs).value <==> Some(href) in hrefs && NotLikes(href)
  {
    var p := Present(hrefs);
    FilterMembership(NotLikes, p, href);
    if Some(href) in hrefs {
      var i :| 0 <= i < |hrefs| && hrefs[i] == Some(href);
      assert p[i] == href;
    }
  }

  /** DropLikes of two runs of links is the two results in order. */
  lemma DropLikesAppend(a: seq<Option<string>>, b: seq<Option<string>>)
    requires AllPresent(a) && AllPresent(b)
    ensures AllPresent(a + b)
    ensures DropLikes(a + b).value == DropLikes(a).value + DropLikes(b).value
  {
    assert Present(a + b) == Present(a) + Present(b);
    FilterAppend(NotLikes, Present(a), Present(b));
  }

  /** get_collections_urls' frame: the kept hrefs, in page order, each
      prefixed with the site root and indexed by the artist url with the
      artist's name. */
  function CollectionRows(artistUrl: string, page: ArtistPage): (r: Result<seq<CollectionRow>>)
    ensures r.Ok? <==> AllPresent(page.hrefs)
    ensures r.Ok? ==> |r.value| == |DropLikes(page.hrefs).value| && forall i :: 0 <= i < |r.value| ==>
      r.value[i] == CollectionRow(artistUrl, page.name, SiteRoot + DropLikes(page.hrefs).value[i])
  {
    var dirs :- DropLikes(page.hrefs);
    Ok(seq(|dirs|, i requires 0 <= i < |dirs| => CollectionRow(artistUrl, page.name, SiteRoot + dirs[i])))
  }

  /** The page an artist's collections are read from. */
  function CollectionsUrl(artistUrl: string): string {
    artistUrl + "/collections/"
  }

  /** The content frame of one collection, given the content urls already
      built from the page's hrefs: indexed by the collection url, each row
      with the heading stripped of newlines. */
  function ContentFrame(collectionUrl: string, heading: string, urls: seq<string>): (r: seq<ContentRow>)
    ensures |r| == |urls| && forall i :: 0 <= i < |r| ==>
      r[i] == ContentRow(collectionUrl, Strip(heading, '\n'), urls[i])
  {
    seq(|urls|, i requires 0 <= i < |urls| => ContentRow(collectionUrl, Strip(heading, '\n'), urls[i]))
  }

  // ---------------------------------------------------------------------
  // Joins

  /** A row of the joined frame; None stands for NaN cells. */
  datatype JoinedRow = JoinedRow(collection: Option<CollectionRow>, content: ContentRow, stats: Option<StatsRow>) {
    function ArtistUrl(): Option<string> {
      if collection.Some? then Some(collection.value.artistUrl) else None
    }
  }

  /** Whether a row's key is the given url. */
  function HasKey<K>(key: K -> string, url: string): K -> bool {
    r => key(r) == url
  }

  /** The rows whose key is `url`, in their order. */
  function Matching<K>(key: K -> string, rows: seq<K>, url: string): seq<K> {
    Filter(HasKey(key, url), rows)
  }

  function CollectionKey(c: CollectionRow): string { c.collectionUrl }

  function StatsKey(s: StatsRow): string { s.contentUrl }

  /** The joined rows of one content row: one per matching collection row,
      in collections order, or a single row of NaNs when none matches. */
  function Attach(matches: seq<CollectionRow>, row: ContentRow): (r: seq<JoinedRow>)
    ensures |r| == if matches == [] then 1 else |matches|
  {
    if matches == [] then [JoinedRow(None, row, None)]
    else seq(|matches|, i requires 0 <= i < |matches| => JoinedRow(Some(matches[i]), row, None))
  }

  /** `collections.join(content, on='collection url', how='right')`: every
      content row in content order, with its matching collection rows. */
  function RightJoin(collections: seq<CollectionRow>, content: seq<ContentRow>): seq<JoinedRow> {
    if content == [] then []
    else
      Attach(Matching(CollectionKey, collections, content[0].collectionUrl), content[0])
        + RightJoin(collections, content[1..])
  }

  /** The stats of one joined row: one row per matching stats row, in stats
      order, or the row itself with NaN stats when none matches. */
  function Fill(row: JoinedRow, matches: seq<StatsRow>): (r: seq<JoinedRow>)
    ensures |r| == if matches == [] then 1 else |matches|
  {
    if matches == [] then [row]
    else seq(|matches|, i requires 0 <= i < |matches| => row.(stats := Some(matches[i])))
  }

  /** `.join(stats, on='content url', how='left')`: every row of the first
      join in order, with its matching stats. */
  function LeftJoin(rows: seq<JoinedRow>, stats: seq<StatsRow>): seq<JoinedRow> {
    if rows == [] then []
    else Fill(rows[0], Matching(StatsKey, stats, rows[0].content.contentUrl)) + LeftJoin(rows[1..], stats)
  }

  function Join(collections: seq<CollectionRow>, content: seq<ContentRow>, stats: seq<StatsRow>): seq<JoinedRow> {
    LeftJoin(RightJoin(collections, content), stats)
  }

  lemma {:induction false} RightJoinAppend(collections: seq<CollectionRow>, a: seq<ContentRow>, b: seq<ContentRow>)
    ensures RightJoin(collections, a + b) == RightJoin(collections, a) + RightJoin(collections, b)
  {
    if a == [] {
      assert a + b == b;
    } else {
      assert (a + b)[0] == a[0];
      assert (a + b)[1..] == a[1..] + b;
      RightJoinAppend(collections, a[1..], b);
    }
  }

  /** Every row of the right join carries a content row, and a collection
      row of that same collection url, or none exactly when no collection
      row has that url. */
  lemma RightJoinSound(collections: seq<CollectionRow>, content: seq<ContentRow>, k: nat)
    requires k < |RightJoin(collections, content)|
    ensures var row := RightJoin(collections, content)[k];
      row.content in content && row.stats.None? &&
      (row.collection.Some? ==> row.collection.value in collections &&
                                row.collection.value.collectionUrl == row.content.collectionUrl) &&
      (row.collection.None? ==> Matching(CollectionKey, collections, row.content.collectionUrl) == [])
  {
    RightJoinMatched(collections, content, k);
    RightJoinNone(collections, content, k);
  }

  lemma {:induction false} RightJoinMatched(collections: seq<CollectionRow>, content: seq<ContentRow>, k: nat)
    requires k < |RightJoin(collections, content)|
    ensures var row := RightJoin(collections, content)[k];
      row.content in content && row.stats.None? &&
      (row.collection.Some? ==> row.collection.value in collections &&
                                row.collection.value.collectionUrl == row.content.collectionUrl)
  {
    var m := Matching(CollectionKey, collections, content[0].collectionUrl);
    var head := Attach(m, content[0]);
    assert RightJoin(collections, content) == head + RightJoin(collections, content[1..]);
    if k < |head| {
      assert RightJoin(collections, content)[k] == head[k];
      if m != [] {
        assert head[k] == JoinedRow(Some(m[k]), content[0], None);
        FilterMembership(HasKey(CollectionKey, content[0].collectionUrl), collections, m[k]);
        assert HasKey(CollectionKey, content[0].collectionUrl)(m[k]);
      }
    } else {
      var tail := content[1..];
      RightJoinMatched(collections, tail, k - |head|);
      var row := RightJoin(collections, tail)[k - |head|];
      assert RightJoin(collections, content)[k] == row;
      assert row.content in tail;
      assert row.content in content by {
        var j :| 0 <= j < |tail| && tail[j] == row.content;
        assert content[j + 1] == row.content;
      }
    }
  }

  lemma AttachNone(matches: seq<CollectionRow>, row: ContentRow, k: nat)
    requires k < |Attach(matches, row)|
    ensures Attach(matches, row)[k].content == row
    ensures Attach(matches, row)[k].collection.None? ==> matches == []
  {
  }

  lemma {:induction false} RightJoinNone(collections: seq<CollectionRow>, content: seq<ContentRow>, k: nat)
    requires k < |RightJoin(collections, content)|
    ensures var row := RightJoin(collections, content)[k];
      row.collection.None? ==> Matching(CollectionKey, collections, row.content.collectionUrl) == []
  {
    var row := RightJoin(collections, content)[k];
    var head := RightJoinAt(collections, content, k);
    if k < |head| {
      var m := Matching(CollectionKey, collections, content[0].collectionUrl);
      AttachNone(m, content[0], k);
      assert row.content.collectionUrl == content[0].collectionUrl;
    } else {
      RightJoinNone(collections, content[1..], k - |head|);
      assert row == RightJoin(collections, content[1..])[k - |head|];
    }
  }

  /** Row `k` of the right join lies in the rows of the first content row,
      `head`, or among those of the rest. */
  lemma RightJoinAt(collections: seq<CollectionRow>, content: seq<ContentRow>, k: nat) returns (head: seq<JoinedRow>)
    requires k < |RightJoin(collections, content)|
    ensures content != []
    ensures head == Attach(Matching(CollectionKey, collections, content[0].collectionUrl), content[0])
    ensures k < |head| ==> RightJoin(collections, content)[k] == head[k]
    ensures k >= |head| ==>
              k - |head| < |RightJoin(collections, content[1..])| &&
              RightJoin(collections, content)[k] == RightJoin(collections, content[1..])[k - |head|]
  {
    head := Attach(Matching(CollectionKey, collections, content[0].collectionUrl), content[0]);
    assert RightJoin(collections, content) == head + RightJoin(collections, content[1..]);
  }

  /** When every content row has exactly one collection row of its url, the
      right join is the content frame with that row attached, row for row. */
  lemma {:induction false} RightJoinUnique(collections: seq<CollectionRow>, content: seq<ContentRow>)
    requires forall i :: 0 <= i < |content| ==> |Matching(CollectionKey, collections, content[i].collectionUrl)| == 1
    ensures |RightJoin(collections, content)| == |content|
    ensures forall i :: 0 <= i < |content| ==>
      RightJoin(collections, content)[i] ==
      JoinedRow(Some(Matching(CollectionKey, collections, content[i].collectionUrl)[0]), content[i], None)
  {
    if content != [] {
      var tail := content[1..];
      assert forall i :: 0 <= i < |tail| ==> tail[i] == content[i + 1];
      RightJoinUnique(collections, tail);
      var m := Matching(CollectionKey, collections, content[0].collectionUrl);
      assert |m| == 1;
      var head := Attach(m, content[0]);
      assert head == [JoinedRow(Some(m[0]), content[0], None)];
      var out := RightJoin(collections, content);
      assert out == head + RightJoin(collections, tail);
      forall i | 0 <= i < |content|
        ensures out[i] == JoinedRow(Some(Matching(CollectionKey, collections, content[i].collectionUrl)[0]), content[i], None)
      {
        if i > 0 {
          assert out[i] == RightJoin(collections, tail)[i - 1];
          assert tail[i - 1] == content[i];
        }
      }
    }
  }

  /** A content row with no collection row of its url still appears, with
      NaN collection columns. */
  lemma {:induction false} RightJoinUnmatched(collections: seq<CollectionRow>, content: seq<ContentRow>, i: nat)
    requires i < |content| && Matching(CollectionKey, collections, content[i].collectionUrl) == []
    ensures JoinedRow(None, content[i], None) in RightJoin(collections, content)
  {
    if i > 0 {
      assert content[1..][i - 1] == content[i];
      RightJoinUnmatched(collections, content[1..], i - 1);
    }
  }

  /** The left join keeps every row: each row of the first join is followed
      through with its stats and nothing else changes. */
  lemma {:induction false} LeftJoinSound(rows: seq<JoinedRow>, stats: seq<StatsRow>, k: nat)
    requires k < |LeftJoin(rows, stats)|
    ensures var out := LeftJoin(rows, stats)[k];
      exists i :: 0 <= i < |rows| && out.collection == rows[i].collection && out.content == rows[i].content &&
        (out.stats == rows[i].stats ||
         (out.stats.Some? && out.stats.value in stats && out.stats.value.contentUrl == out.content.contentUrl))
  {
    var m := Matching(StatsKey, stats, rows[0].content.contentUrl);
    var head := Fill(rows[0], m);
    assert LeftJoin(rows, stats) == head + LeftJoin(rows[1..], stats);
    if k < |head| {
      var out := LeftJoin(rows, stats)[k];
      assert out == head[k];
      if m == [] {
        assert out == rows[0];
      } else {
        assert out == rows[0].(stats := Some(m[k]));
        FilterMembership(HasKey(StatsKey, rows[0].content.contentUrl), stats, m[k]);
        assert HasKey(StatsKey, rows[0].content.contentUrl)(m[k]);
        assert out.stats.value in stats && out.stats.value.contentUrl == out.content.contentUrl;
      }
      assert out.collection == rows[0].collection && out.content == rows[0].content;
    } else {
      LeftJoinSound(rows[1..], stats, k - |head|);
      var out := LeftJoin(rows, stats)[k];
      var i :| 0 <= i < |rows[1..]| && out.collection == rows[1..][i].collection && out.content == rows[1..][i].content &&
        (out.stats == rows[1..][i].stats ||
         (out.stats.Some? && out.stats.value in stats && out.stats.value.contentUrl == out.content.contentUrl));
      assert rows[1..][i] == rows[i + 1];
    }
  }

  /** With at most one stats row per content url, the left join is the
      first join row for row, with the stats filled in or NaN. */
  lemma {:induction false} LeftJoinUnique(rows: seq<JoinedRow>, stats: seq<StatsRow>)
    requires forall i :: 0 <= i < |rows| ==> |Matching(StatsKey, stats, rows[i].content.contentUrl)| <= 1
    ensures |LeftJoin(rows, stats)| == |rows|
    ensures forall i :: 0 <= i < |rows| ==>
      var m := Matching(StatsKey, stats, rows[i].content.contentUrl);
      LeftJoin(rows, stats)[i] == if m == [] then rows[i] else rows[i].(stats := Some(m[0]))
  {
    if rows != [] {
      assert forall i :: 0 <= i < |rows[1..]| ==> rows[1..][i] == rows[i + 1];
      LeftJoinUnique(rows[1..], stats);
      var m := Matching(StatsKey, stats, rows[0].content.contentUrl);
      var head := Fill(rows[0], m);
      assert |m| <= 1;
      assert head == [if m == [] then rows[0] else rows[0].(stats := Some(m[0]))] by {
        if m != [] { assert |head| == 1 && head[0] == rows[0].(stats := Some(m[0])); }
      }
      var out := LeftJoin(rows, stats);
      assert out == head + LeftJoin(rows[1..], stats);
      forall i | 0 <= i < |rows|
        ensures var mi := Matching(StatsKey, stats, rows[i].content.contentUrl);
          out[i] == if mi == [] then rows[i] else rows[i].(stats := Some(mi[0]))
      {
        if i > 0 {
          assert out[i] == LeftJoin(rows[1..], stats)[i - 1];
          assert rows[1..][i - 1] == rows[i];
        }
      }
    }
  }

  /** Every artist url in the joined frame is that of some collection row. */
  lemma JoinArtists(collections: seq<CollectionRow>, content: seq<ContentRow>, stats: seq<StatsRow>, k: nat)
    requires k < |Join(collections, content, stats)|
    ensures var row := Join(collections, content, stats)[k];
      row.ArtistUrl().Some? ==> exists c :: c in collections && c.artistUrl == row.ArtistUrl().value
  {
    var rows := RightJoin(collections, content);
    LeftJoinSound(rows, stats, k);
    var out := Join(collections, content, stats)[k];
    var i :| 0 <= i < |rows| && out.collection == rows[i].collection && out.content == rows[i].content &&
      (out.stats == rows[i].stats ||
       (out.stats.Some? && out.stats.value in stats && out.stats.value.contentUrl == out.content.contentUrl));
    RightJoinSound(collections, content, i);
  }

  // ---------------------------------------------------------------------
  // The data file

  /** A line of the CSV data file. */
  datatype Line = Header | Record(row: JoinedRow)

  function Records(rows: seq<JoinedRow>): (r: seq<Line>)
    ensures |r| == |rows| && forall i :: 0 <= i < |r| ==> r[i] == Record(rows[i])
  {
    seq(|rows|, i requires 0 <= i < |rows| => Record(rows[i]))
  }

  /** `df['artist url'].unique()` of the file as read back. */
  function Completed(lines: seq<Line>): set<string> {
    set k | 0 <= k < |lines| && lines[k].Record? && lines[k].row.ArtistUrl().Some? :: lines[k].row.ArtistUrl().value
  }

  /** The data file: whether it exists and the lines it holds. */
  datatype FileState = FileState(present: bool, lines: seq<Line>)

  /** `to_csv(path, header=header, mode='a')`. */
  function AppendRows(file: FileState, rows: seq<JoinedRow>, header: bool): FileState {
    FileState(true, file.lines + (if header then [Header] else []) + Records(rows))
  }

  class DataFile {
    var present: bool
    var lines: seq<Line>

    constructor (present: bool, lines: seq<Line>)
      ensures this.present == present && this.lines == lines
    {
      this.present := present;
      this.lines := lines;
    }

    function State(): FileState
      reads this
    {
      FileState(present, lines)
    }

    /** `joined_df.to_csv(data_path, header=header, mode='a')`: the file
        exists afterwards and holds its old lines, then the header line when
        asked for, then one record per row. */
    method Append(rows: seq<JoinedRow>, header: bool)
      modifies this
      ensures State() == AppendRows(old(State()), rows, header)
    {
      var added := (if header then [Header] else []) + Records(rows);
      lines := lines + added;
      present := true;
    }
  }

  // ---------------------------------------------------------------------
  // Resuming and batching

  function NotIn(done: set<string>): string -> bool {
    a => a !in done
  }

  /** The artists still to crawl: the listed ones not yet in an existing data
      file, in their listed order. */
  function Pending(artists: seq<string>, file: FileState): seq<string> {
    if file.present then Filter(NotIn(Completed(file.lines)), artists) else artists
  }

  lemma PendingMembership(artists: seq<string>, file: FileState, a: string)
    ensures a in Pending(artists, file) <==>
      a in artists && !(file.present && a in Completed(file.lines))
  {
    if file.present {
      FilterMembership(NotIn(Completed(file.lines)), artists, a);
    }
  }

  /** Filtering the pending list works piece by piece, so pending artists
      keep their listed order. */
  lemma PendingAppend(a: seq<string>, b: seq<string>, file: FileState)
    ensures Pending(a + b, file) == Pending(a, file) + Pending(b, file)
  {
    if file.present {
      FilterAppend(NotIn(Completed(file.lines)), a, b);
    }
  }

  /** `math.ceil(L / 5)`. */
  function BatchCount(l: nat): (n: nat)
    ensures l == 0 ==> n == 0
    ensures l > 0 ==> 5 * (n - 1) < l <= 5 * n
  {
    (l + 4) / 5
  }

  /** `np.array_split(pending, ceil(L / 5))`. */
  function Batches(pending: seq<string>): Result<seq<seq<string>>> {
    ArraySplit(pending, BatchCount(|pending|))
  }

  /** No pending artist makes array_split raise; otherwise the batches are
      consecutive pieces of the pending list, each of one to five artists,
      any two differing in size by at most one. */
  lemma BatchesShape(pending: seq<string>)
    ensures pending == [] ==> Batches(pending) == Err(ValueError)
    ensures pending != [] ==> Batches(pending).Ok? && Flatten(Batches(pending).value) == pending
    ensures pending != [] ==> forall i :: 0 <= i < |Batches(pending).value| ==>
      1 <= |Batches(pending).value[i]| <= 5
    ensures pending != [] ==> forall i, j :: 0 <= i < |Batches(pending).value| && 0 <= j < |Batches(pending).value| ==>
      |Batches(pending).value[i]| <= |Batches(pending).value[j]| + 1
  {
    if pending != [] {
      var l, n := |pending|, BatchCount(|pending|);
      BatchSizes(l, n);
      var q, r := l / n, l % n;
      var parts := Batches(pending).value;
      assert forall i :: 0 <= i < |parts| ==> |parts[i]| == q + (if i < r then 1 else 0);
    }
  }

  lemma BatchSizes(l: nat, n: nat)
    requires l > 0 && 5 * (n - 1) < l <= 5 * n
    ensures n > 0 && 1 <= l / n && l / n + (if l % n > 0 then 1 else 0) <= 5
  {
    var q, r := l / n, l % n;
    assert l == q * n + r && r < n;
    assert n <= l;
    assert q >= 1 by { DivAtLeastOne(l, n, q, r); }
    assert q < 5 || (q == 5 && r == 0) by { DivAtMostFive(l, n, q, r); }
  }

  lemma DivAtLeastOne(l: nat, n: nat, q: nat, r: nat)
    requires 0 < n <= l && l == q * n + r && r < n
    ensures q >= 1
  {
  }

  lemma DivAtMostFive(l: nat, n: nat, q: nat, r: nat)
    requires 0 < n && l <= 5 * n && l == q * n + r
    ensures q < 5 || (q == 5 && r == 0)
  {
  }

  // ---------------------------------------------------------------------
  // The batch loop

  /** What one batch led to: skipped because it had no collections, or the
      joined rows to append. */
  datatype BatchOutcome = Skipped | Joined(rows: seq<JoinedRow>)

  /** The batch loop of main: each batch in order, appending its rows with a
      header only when the file does not exist yet; the first exception ends
      the crawl, leaving the file as the earlier batches wrote it. */
  function RunBatches(batches: seq<seq<string>>, batch: seq<string> -> Result<BatchOutcome>, file: FileState): (Result<()>, FileState) {
    if batches == [] then (Ok(()), file)
    else match batch(batches[0])
      case Err(e) => (Err(e), file)
      case Ok(Skipped) => RunBatches(batches[1..], batch, file)
      case Ok(Joined(rows)) => RunBatches(batches[1..], batch, AppendRows(file, rows, !file.present))
  }

  /** The whole crawl after reading the artist list: resume, batch, run. */
  function Crawl(artists: seq<string>, batch: seq<string> -> Result<BatchOutcome>, file: FileState): (Result<()>, FileState) {
    match Batches(Pending(artists, file))
    case Err(e) => (Err(e), file)
    case Ok(batches) => RunBatches(batches, batch, file)
  }

  /** The batch loop only appends; a header line appears among the appended
      lines only first, and only when the file did not exist before. */
  lemma {:induction false} RunBatchesHeader(batches: seq<seq<string>>, batch: seq<string> -> Result<BatchOutcome>, file: FileState)
    ensures var after := RunBatches(batches, batch, file).1;
      |file.lines| <= |after.lines| && after.lines[..|file.lines|] == file.lines &&
      (file.present ==> after.present) &&
      forall k :: |file.lines| <= k < |after.lines| && after.lines[k] == Header ==>
        k == |file.lines| && !file.present
  {
    if batches != [] {
      match batch(batches[0])
      case Err(_) =>
      case Ok(Skipped) => RunBatchesHeader(batches[1..], batch, file);
      case Ok(Joined(rows)) =>
        var next := AppendRows(file, rows, !file.present);
        RunBatchesHeader(batches[1..], batch, next);
        var after := RunBatches(batches, batch, file).1;
        assert after.lines[..|next.lines|] == next.lines;
        forall k | |file.lines| <= k < |after.lines| && after.lines[k] == Header
          ensures k == |file.lines| && !file.present
        {
          if k < |next.lines| {
            assert after.lines[k] == next.lines[k];
            var added := (if !file.present then [Header] else []) + Records(rows);
            assert next.lines == file.lines + added;
            assert next.lines[k] == added[k - |file.lines|];
          }
        }
    }
  }

  /** Each batch's rows carry only artist urls of that batch. */
  ghost predicate RowsFromBatch(batch: seq<string> -> Result<BatchOutcome>) {
    forall s: seq<string>, k: nat :: batch(s).Ok? && batch(s).value.Joined? && k < |batch(s).value.rows| ==>
      batch(s).value.rows[k].ArtistUrl().Some? ==> batch(s).value.rows[k].ArtistUrl().value in s
  }

  /** Every record the batch loop appends belongs to an artist of one of the
      batches. */
  lemma {:induction false} RunBatchesArtists(batches: seq<seq<string>>, batch: seq<string> -> Result<BatchOutcome>, file: FileState, k: nat)
    requires RowsFromBatch(batch)
    requires |file.lines| <= k < |RunBatches(batches, batch, file).1.lines|
    requires RunBatches(batches, batch, file).1.lines[k].Record?
    ensures var row := RunBatches(batches, batch, file).1.lines[k].row;
      row.ArtistUrl().Some? ==> row.ArtistUrl().value in Flatten(batches)
  {
    RunBatchesHeader(batches, batch, file);
    assert batches != [];
    var row := RunBatches(batches, batch, file).1.lines[k].row;
    assert Flatten(batches) == batches[0] + Flatten(batches[1..]);
    match batch(batches[0])
    case Err(_) =>
    case Ok(Skipped) =>
      RunBatchesArtists(batches[1..], batch, file, k);
    case Ok(Joined(rows)) =>
      var next := AppendRows(file, rows, !file.present);
      RunBatchesHeader(batches[1..], batch, next);
      var after := RunBatches(batches, batch, file).1;
      if k < |next.lines| {
        assert after.lines[k] == next.lines[k];
        var added := (if !file.present then [Header] else []) + Records(rows);
        assert next.lines == file.lines + added;
        var j := k - |file.lines|;
        assert next.lines[k] == added[j];
        var h := if !file.present then 1 else 0;
        assert added[j] == Record(rows[j - h]);
        assert row == rows[j - h];
      } else {
        RunBatchesArtists(batches[1..], batch, next, k);
      }
  }

  /** Resuming never crawls an artist again: every record a crawl appends to
      an existing data file belongs to a listed artist the file did not hold,
      and a header is added only to a file that did not exist. */
  lemma CrawlResumes(artists: seq<string>, batch: seq<string> -> Result<BatchOutcome>, file: FileState, k: nat)
    requires RowsFromBatch(batch)
    requires |file.lines| <= k < |Crawl(artists, batch, file).1.lines|
    ensures Crawl(artists, batch, file).1.lines[k] == Header ==> k == |file.lines| && !file.present
    ensures var line := Crawl(artists, batch, file).1.lines[k];
      line.Record? && line.row.ArtistUrl().Some? ==>
        line.row.ArtistUrl().value in artists &&
        !(file.present && line.row.ArtistUrl().value in Completed(file.lines))
  {
    var pending := Pending(artists, file);
    BatchesShape(pending);
    var batches := Batches(pending).value;
    RunBatchesHeader(batches, batch, file);
    var line := Crawl(artists, batch, file).1.lines[k];
    if line.Record? {
      RunBatchesArtists(batches, batch, file, k);
      if line.row.ArtistUrl().Some? {
        PendingMembership(artists, file, line.row.ArtistUrl().value);
      }
    }
  }
}
