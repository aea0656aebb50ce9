/** `TrialCrawl`, the province crawler of `crawl/trial.py` and
    `China_Trial/crawl/trial.py`: when the cookie still shows a logged-in
    user, the courts of the province are listed, and for every court the
    listing pages 1 to 100 are fetched; each page's cases go through the
    dedup store, and only the cases it returns reach the download engine. */
module Crawler {
  import opened Courts
  import opened Listing
  import opened Store
  import opened Segments
  import opened Manifest
  import opened Reassembly
  import opened FileNames
  import opened Seqs

  /** What `_check_cookie_availability` returns: `False` when the user page
      has no user name, and `None` (it falls off the end) when it has one. */
  datatype CookieCheck = ReturnedFalse | ReturnedNone

  function CheckCookieAvailability(usernameNodes: seq<string>): (r: CookieCheck)
    ensures r == ReturnedFalse <==> usernameNodes == []
  {
    if usernameNodes == [] then ReturnedFalse else ReturnedNone
  }

  /** The scheduler's test `is not False`. */
  predicate Proceeds(r: CookieCheck)
  {
    r != ReturnedFalse
  }

  /** The crawl goes ahead exactly when a user name is shown. The check
      never returns a true value, so it is the `is not False` test, not a
      truth test, that lets a valid cookie through. */
  lemma CookieGate(usernameNodes: seq<string>)
    ensures Proceeds(CheckCookieAvailability(usernameNodes)) <==> usernameNodes != []
  {
  }

  /** How a run ends. `CourtListEmpty` is the `IndexError` of the log line in
      `parse_province_court`, `BadTimestamp` the `ValueError` of `float("")`
      on a listing page; both end the run. */
  datatype RunEnd = CookieExpired | CourtListEmpty | BadTimestamp(court: CourtInfo, page: int) | Finished

  /** The cases of several batches, one batch after another. */
  function Flat(batches: seq<seq<CaseRecord>>): seq<CaseRecord>
  {
    if batches == [] then [] else Flat(batches[..|batches| - 1]) + batches[|batches| - 1]
  }

  lemma FlatAppend(batches: seq<seq<CaseRecord>>, b: seq<CaseRecord>)
    ensures Flat(batches + [b]) == Flat(batches) + b
  {
    assert (batches + [b])[..|batches|] == batches;
  }

  lemma {:induction false} FlatConcat(a: seq<seq<CaseRecord>>, b: seq<seq<CaseRecord>>)
    ensures Flat(a + b) == Flat(a) + Flat(b)
    decreases |b|
  {
    if b == [] {
      assert a + b == a;
    } else {
      var init := b[..|b| - 1];
      assert (a + b)[..|a + b| - 1] == a + init;
      FlatConcat(a, init);
      AppendAssoc(Flat(a), Flat(init), b[|b| - 1]);
    }
  }

  /** The batches the scheduler hands on for a run of pages when the ids in
      `seen` are stored: each page goes through the dedup against what is
      stored by then, that is `seen` and the ids of every earlier page. */
  function DedupBatches(seen: set<string>, pages: seq<seq<CaseRecord>>): (batches: seq<seq<CaseRecord>>)
    ensures |batches| == |pages|
    decreases |pages|
  {
    if pages == [] then []
    else
      var init := pages[..|pages| - 1];
      DedupBatches(seen, init) + [Dedup(seen + Ids(Flat(init)), pages[|pages| - 1])]
  }

  lemma DedupBatchesStep(seen: set<string>, pages: seq<seq<CaseRecord>>, page: seq<CaseRecord>)
    ensures DedupBatches(seen, pages + [page]) ==
            DedupBatches(seen, pages) + [Dedup(seen + Ids(Flat(pages)), page)]
  {
    assert (pages + [page])[..|pages|] == pages;
  }

  /** Deduplicating two runs of pages one after the other: the second run
      sees the ids of the first as stored. */
  lemma {:induction false} DedupBatchesAppend(seen: set<string>, a: seq<seq<CaseRecord>>, b: seq<seq<CaseRecord>>)
    ensures DedupBatches(seen, a + b) == DedupBatches(seen, a) + DedupBatches(seen + Ids(Flat(a)), b)
    decreases |b|
  {
    if b == [] {
      assert a + b == a;
    } else {
      var init, last := b[..|b| - 1], b[|b| - 1];
      assert a + b == (a + init) + [last];
      DedupBatchesStep(seen, a + init, last);
      DedupBatchesAppend(seen, a, init);
      DedupBatchesStep(seen + Ids(Flat(a)), init, last);
      FlatConcat(a, init);
      IdsAppend(Flat(a), Flat(init));
      assert seen + Ids(Flat(a + init)) == (seen + Ids(Flat(a))) + Ids(Flat(init));
      AppendAssoc(DedupBatches(seen, a), DedupBatches(seen + Ids(Flat(a)), init),
                  [Dedup(seen + Ids(Flat(a + init)), last)]);
    }
  }

  /** The cases handed on for a run of pages are distinct, none was stored
      before, and together with what was stored they cover every id of the
      pages: each new case is handed on exactly once. */
  lemma {:induction false} DedupBatchesCovers(seen: set<string>, pages: seq<seq<CaseRecord>>)
    ensures DistinctIds(Flat(DedupBatches(seen, pages)))
    ensures Ids(Flat(DedupBatches(seen, pages))) !! seen
    ensures seen + Ids(Flat(pages)) == seen + Ids(Flat(DedupBatches(seen, pages)))
    decreases |pages|
  {
    if pages != [] {
      var init, last := pages[..|pages| - 1], pages[|pages| - 1];
      var h := DedupBatches(seen, init);
      var seenNow := seen + Ids(Flat(init));
      var d := Dedup(seenNow, last);
      DedupBatchesCovers(seen, init);
      assert pages == init + [last];
      FlatAppend(h, d);
      FlatAppend(init, last);
      DedupDistinct(seenNow, last);
      DedupCovers(seenNow, last);
      assert Ids(Flat(h)) <= seenNow;
      DistinctIdsAppend(Flat(h), d);
      IdsAppend(Flat(h), d);
      IdsAppend(Flat(init), last);
    }
  }

  /** After a run of pages the store holds every id it held and every id
      fetched. */
  lemma DedupBatchesKeys(table: map<string, TrialRow>, pages: seq<seq<CaseRecord>>)
    ensures InsertAll(table, Flat(DedupBatches(table.Keys, pages))).Keys == table.Keys + Ids(Flat(pages))
  {
    DedupBatchesCovers(table.Keys, pages);
    InsertAllKeys(table, Flat(DedupBatches(table.Keys, pages)));
  }

  /** What a run of pages does to the store: every case handed on is stored
      under its id, every fetched id is stored, and no stored row changes. */
  lemma HandedOnOnce(table: map<string, TrialRow>, pages: seq<seq<CaseRecord>>)
    ensures var handed := DedupBatches(table.Keys, pages);
            var after := InsertAll(table, Flat(handed));
            DistinctIds(Flat(handed)) && Ids(Flat(handed)) !! table.Keys &&
            after.Keys == table.Keys + Ids(Flat(handed)) &&
            after.Keys == table.Keys + Ids(Flat(pages)) &&
            forall id :: id in table ==> id in after && after[id] == table[id]
  {
    var handed := DedupBatches(table.Keys, pages);
    DedupBatchesCovers(table.Keys, pages);
    InsertAllKeys(table, Flat(handed));
    forall id | id in table
      ensures id in InsertAll(table, Flat(handed)) && InsertAll(table, Flat(handed))[id] == table[id]
    {
      InsertAllKeeps(table, Flat(handed), id);
    }
  }

  /** The pages `_scheduler` gets for the courts in order: every court's
      pages, until the first court whose paging raised. */
  function CrawlPages(infos: seq<CourtInfo>, fetch: PageQuery -> seq<ListingResult>): (r: Paging)
    ensures r.completed ==> |r.batches| == LastPage * |infos|
    decreases |infos|
  {
    if infos == [] then Paging([], true)
    else
      var before := CrawlPages(infos[..|infos| - 1], fetch);
      if !before.completed then before
      else
        var last := CourtPages(infos[|infos| - 1], fetch);
        Paging(before.batches + last.batches, last.completed)
  }

  lemma CrawlPagesStep(infos: seq<CourtInfo>, fetch: PageQuery -> seq<ListingResult>, c: int)
    requires 0 <= c < |infos|
    ensures var before, court := CrawlPages(infos[..c], fetch), CourtPages(infos[c], fetch);
            CrawlPages(infos[..c + 1], fetch) ==
              if !before.completed then before
              else Paging(before.batches + court.batches, court.completed)
  {
    assert infos[..c + 1][..c] == infos[..c];
  }

  /** Once a court's paging has raised, later courts add nothing. */
  lemma {:induction false} CrawlPagesStopped(infos: seq<CourtInfo>, fetch: PageQuery -> seq<ListingResult>, m: int)
    requires 0 <= m <= |infos| && !CrawlPages(infos[..m], fetch).completed
    ensures CrawlPages(infos, fetch) == CrawlPages(infos[..m], fetch)
    decreases |infos|
  {
    if m < |infos| {
      var init := infos[..|infos| - 1];
      assert init[..m] == infos[..m];
      CrawlPagesStopped(init, fetch, m);
    } else {
      assert infos[..m] == infos;
    }
  }

  /** One page of the body of `_scheduler` for a court: the dedup against the
      table so far extends the batches by one, and inserting it extends the
      table accordingly. */
  lemma DedupPagesStep(start: map<string, TrialRow>, pages: seq<seq<CaseRecord>>, p: int)
    requires 0 <= p < |pages|
    ensures var batches := DedupBatches(start.Keys, pages[..p]);
            var table := InsertAll(start, Flat(batches));
            var d := Dedup(table.Keys, pages[p]);
            DedupBatches(start.Keys, pages[..p + 1]) == batches + [d] &&
            InsertAll(start, Flat(batches + [d])) == InsertAll(table, d)
  {
    var batches := DedupBatches(start.Keys, pages[..p]);
    var d := Dedup(InsertAll(start, Flat(batches)).Keys, pages[p]);
    DedupBatchesKeys(start, pages[..p]);
    TakeStep(pages, p);
    DedupBatchesStep(start.Keys, pages[..p], pages[p]);
    FlatAppend(batches, d);
    InsertAllConcat(start, Flat(batches), d);
  }

  /** One court of the outer loop of `_scheduler`: its pages extend the run,
      and their dedup against the table so far extends the batches handed
      on and the table accordingly. */
  lemma SchedulerStep(start: map<string, TrialRow>, infos: seq<CourtInfo>,
                      fetch: PageQuery -> seq<ListingResult>, c: int, fetched: seq<seq<CaseRecord>>)
    requires 0 <= c < |infos|
    requires CrawlPages(infos[..c], fetch) == Paging(fetched, true)
    ensures var court := CourtPages(infos[c], fetch);
            var handed := DedupBatches(start.Keys, fetched);
            var table := InsertAll(start, Flat(handed));
            var batches := DedupBatches(table.Keys, court.batches);
            CrawlPages(infos[..c + 1], fetch) == Paging(fetched + court.batches, court.completed) &&
            handed + batches == DedupBatches(start.Keys, fetched + court.batches) &&
            InsertAll(table, Flat(batches)) == InsertAll(start, Flat(handed + batches))
  {
    var court := CourtPages(infos[c], fetch);
    var handed := DedupBatches(start.Keys, fetched);
    var table := InsertAll(start, Flat(handed));
    var batches := DedupBatches(table.Keys, court.batches);
    CrawlPagesStep(infos, fetch, c);
    DedupBatchesKeys(start, fetched);
    DedupBatchesAppend(start.Keys, fetched, court.batches);
    FlatConcat(handed, batches);
    InsertAllConcat(start, Flat(handed), Flat(batches));
  }

  class TrialCrawl {
    const sqlite: SqliteDB

    constructor (db: SqliteDB)
      ensures sqlite == db
    {
      sqlite := db;
    }

    /** The inner loop of `_scheduler` for one court: each page's batch goes
        through the store's dedup in turn, and what it returns is handed on. */
    method DedupPages(pages: seq<seq<CaseRecord>>) returns (batches: seq<seq<CaseRecord>>)
      requires sqlite.Valid()
      modifies sqlite
      ensures sqlite.Valid()
      ensures batches == DedupBatches(old(sqlite.table).Keys, pages)
      ensures sqlite.table == InsertAll(old(sqlite.table), Flat(batches))
      ensures sqlite.table.Keys == old(sqlite.table).Keys + Ids(Flat(pages))
    {
      ghost var start := sqlite.table;
      batches := [];
      for p := 0 to |pages|
        invariant sqlite.Valid()
        invariant batches == DedupBatches(start.Keys, pages[..p])
        invariant sqlite.table == InsertAll(start, Flat(batches))
      {
        DedupPagesStep(start, pages, p);
        var afterDedup, _ := sqlite.SqliteDedup(pages[p]);
        batches := batches + [afterDedup];
      }
      assert pages[..|pages|] == pages;
      DedupBatchesKeys(start, pages);
    }

    /** The body of `_scheduler` for one court: the pages `parse_case_id`
        yields, deduplicated one after another. */
    method CrawlCourt(court: CourtInfo, fetch: PageQuery -> seq<ListingResult>)
      returns (batches: seq<seq<CaseRecord>>, completed: bool)
      requires sqlite.Valid()
      modifies sqlite
      ensures sqlite.Valid()
      ensures completed == CourtPages(court, fetch).completed
      ensures batches == DedupBatches(old(sqlite.table).Keys, CourtPages(court, fetch).batches)
      ensures sqlite.table == InsertAll(old(sqlite.table), Flat(batches))
    {
      var pages;
      pages, completed := ParseCaseId(court, fetch);
      batches := DedupPages(pages);
    }

    /** The loop of `_scheduler` over the courts: each court is crawled in
        turn, and the first page that raises ends the run. */
    method CrawlCourts(infos: seq<CourtInfo>, fetch: PageQuery -> seq<ListingResult>)
      returns (handed: seq<seq<CaseRecord>>, end: RunEnd)
      requires sqlite.Valid()
      modifies sqlite
      ensures sqlite.Valid()
      ensures handed == DedupBatches(old(sqlite.table).Keys, CrawlPages(infos, fetch).batches)
      ensures end == Finished <==> CrawlPages(infos, fetch).completed
      ensures end == Finished || end.BadTimestamp?
      ensures sqlite.table == InsertAll(old(sqlite.table), Flat(handed))
    {
      handed := [];
      ghost var start := sqlite.table;
      ghost var fetched: seq<seq<CaseRecord>> := [];
      for c := 0 to |infos|
        invariant sqlite.Valid()
        invariant CrawlPages(infos[..c], fetch) == Paging(fetched, true)
        invariant handed == DedupBatches(start.Keys, fetched)
        invariant sqlite.table == InsertAll(start, Flat(handed))
      {
        SchedulerStep(start, infos, fetch, c, fetched);
        var batches, completed := CrawlCourt(infos[c], fetch);
        handed := handed + batches;
        fetched := fetched + CourtPages(infos[c], fetch).batches;
        if !completed {
          CrawlPagesStopped(infos, fetch, c + 1);
          return handed, BadTimestamp(infos[c], |batches| + 1);
        }
      }
      assert infos[..|infos|] == infos;
      end := Finished;
    }

    /** `_scheduler` with the user page's user-name nodes, the court listing
        and the listing pages as inputs. Returns the batches handed to the
        download engine and how the run ended: the dedup of the pages of
        every court in turn, up to the first page that raised. No case is
        handed on twice or when it was stored before the run, every case
        handed on is stored, and a finished run handed on 100 batches per
        court. */
    method Scheduler(usernameNodes: seq<string>, courts: seq<CourtEntry>,
                     fetch: PageQuery -> seq<ListingResult>)
      returns (handed: seq<seq<CaseRecord>>, end: RunEnd)
      requires sqlite.Valid()
      modifies sqlite
      ensures sqlite.Valid()
      ensures end == CookieExpired <==> usernameNodes == []
      ensures end == CourtListEmpty <==> usernameNodes != [] && courts == []
      ensures (end == CookieExpired || end == CourtListEmpty) ==> handed == [] && sqlite.table == old(sqlite.table)
      ensures usernameNodes != [] && courts != [] ==>
        var run := CrawlPages(Flatten(courts), fetch);
        handed == DedupBatches(old(sqlite.table).Keys, run.batches) && (end == Finished <==> run.completed)
      ensures end == Finished ==> |handed| == LastPage * |Flatten(courts)|
      ensures sqlite.table == InsertAll(old(sqlite.table), Flat(handed))
      ensures sqlite.table.Keys == old(sqlite.table).Keys + Ids(Flat(handed))
      ensures DistinctIds(Flat(handed))
      ensures Ids(Flat(handed)) !! old(sqlite.table).Keys
      ensures forall id :: id in old(sqlite.table) ==> id in sqlite.table && sqlite.table[id] == old(sqlite.table)[id]
    {
      handed := [];
      var check := CheckCookieAvailability(usernameNodes);
      if check == ReturnedFalse {
        return handed, CookieExpired;
      }
      var courtInformationList := ParseProvinceCourt(courts);
      if courtInformationList.Failure? {
        return handed, CourtListEmpty;
      }
      ghost var start := sqlite.table;
      handed, end := CrawlCourts(courtInformationList.value, fetch);
      HandedOnOnce(start, CrawlPages(courtInformationList.value, fetch).batches);
    }
  }

  /** The download of one case in `_download_engine` of
      `China_Trial/crawl/trial.py`, from the manifest text on: `arrival` is
      the shared buffer after the workers have joined, a rearrangement of
      the downloads of the manifest's segments. The file is named after the
      sanitised title and holds the segment payloads in manifest order. */
  method DownloadCase(c: CaseRecord, manifest: string, fetch: string -> seq<Bytes>,
                      arrival: seq<SegmentResult>)
    returns (fileName: string, contents: Bytes)
    requires multiset(arrival) == multiset(DownloadResults(ManifestTasks(manifest), fetch))
    ensures |fileName| >= 4 && fileName[..|fileName| - 4] == Sanitize(c.caseTitle) && fileName[|fileName| - 4..] == ".mp4"
    ensures forall k :: 0 <= k < |fileName| - 4 ==> !IsUnsafe(fileName[k])
    ensures contents == ManifestPayloads(ManifestTasks(manifest), fetch)
  {
    var tsContentBuffer := SortByCount(arrival);
    VideoFollowsManifestOrder(manifest, fetch, arrival);
    fileName := Sanitize(c.caseTitle) + ".mp4";
    VideoFileNameSafe(c.caseTitle);
    contents := SaveVideo(tsContentBuffer);
  }
}
