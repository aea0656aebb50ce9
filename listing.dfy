/** The case listing, `parse_case_id` (identical in `China_Trial/crawl/trial.py`
    and `crawl/trial.py`): for every court, pages 1 to 100 are requested, each
    page's `resultList` is mapped to case records in order and handed on as
    one batch, also when it is empty. The listing's `beginTime` is in epoch
    milliseconds; `str(beginTime)[:-3]` drops the last three digits before
    `float` turns it into the seconds given to `fromtimestamp`. */
module Listing {
  import opened Wrappers
  import opened Courts

  /** Python's `str(n)` for a non-negative integer. */
  function Decimal(n: nat): (s: string)
    ensures |s| >= 1
    ensures n < 10 <==> |s| == 1
  {
    if n < 10 then [DigitChar(n)] else Decimal(n / 10) + [DigitChar(n % 10)]
  }

  function DigitChar(d: nat): char
    requires d < 10
  {
    "0123456789"[d]
  }

  /** Python's `s[:-3]`: everything but the last three characters, and the
      empty string when there are at most three. */
  function DropLastThree(s: string): string
  {
    if |s| <= 3 then "" else s[..|s| - 3]
  }

  /** The decimal text of `n` ends in the digit `n % 10`. */
  lemma DecimalLastDigit(n: nat)
    requires n >= 10
    ensures Decimal(n) == Decimal(n / 10) + [DigitChar(n % 10)]
  {
  }

  /** From one second on, the text of the milliseconds is the text of the
      whole seconds followed by three digits. */
  lemma {:induction false} DecimalOfMillis(millis: nat)
    requires millis >= 1000
    ensures exists tail: string :: |tail| == 3 && Decimal(millis) == Decimal(millis / 1000) + tail
  {
    var n1, n2, n3 := millis / 10, millis / 100, millis / 1000;
    assert n1 / 10 == n2 && n2 / 10 == n3;
    DecimalLastDigit(millis);
    DecimalLastDigit(n1);
    DecimalLastDigit(n2);
    var tail := [DigitChar(n2 % 10), DigitChar(n1 % 10), DigitChar(millis % 10)];
    assert Decimal(millis) == Decimal(n3) + tail;
  }

  /** Below one second the text has at most three digits. */
  lemma {:induction false} DecimalBelowThousand(millis: nat)
    requires millis < 1000
    ensures |Decimal(millis)| <= 3
  {
    if millis >= 100 {
      DecimalLastDigit(millis);
      DecimalLastDigit(millis / 10);
      assert millis / 10 / 10 == millis / 100;
    } else if millis >= 10 {
      DecimalLastDigit(millis);
    }
  }

  /** Dropping the last three digits of a millisecond count gives the whole
      seconds, and nothing at all below one second. */
  lemma DropLastThreeIsSeconds(millis: nat)
    ensures millis >= 1000 ==> DropLastThree(Decimal(millis)) == Decimal(millis / 1000)
    ensures millis < 1000 ==> DropLastThree(Decimal(millis)) == ""
  {
    if millis >= 1000 {
      DecimalOfMillis(millis);
      var tail: string :| |tail| == 3 && Decimal(millis) == Decimal(millis / 1000) + tail;
      assert Decimal(millis)[..|Decimal(millis)| - 3] == Decimal(millis / 1000);
    } else {
      DecimalBelowThousand(millis);
    }
  }

  /** An element of a listing page's `resultList`. */
  datatype ListingResult = ListingResult(courtName: string, caseId: string, caseNo: string,
                                         title: string, beginTime: nat)

  /** The case dictionary built per result. `time` is the seconds text that
      `float` and `fromtimestamp` receive; its local-time formatting is not
      part of this model. */
  datatype CaseRecord = CaseRecord(caseName: string, caseId: string, caseNo: string,
                                   caseTitle: string, time: string)

  /** The record for one result, or `None` where `float("")` raises, that is
      for a `beginTime` of at most three digits. */
  function ToCaseRecord(r: ListingResult): (rec: Option<CaseRecord>)
    ensures rec.None? <==> r.beginTime < 1000
  {
    DropLastThreeIsSeconds(r.beginTime);
    var seconds := DropLastThree(Decimal(r.beginTime));
    if seconds == "" then None
    else Some(CaseRecord(r.courtName, r.caseId, r.caseNo, r.title, seconds))
  }

  /** The record maps `courtName` to `caseName` and `title` to `caseTitle`,
      copies `caseId` and `caseNo`, and carries the whole seconds of
      `beginTime`. */
  lemma ToCaseRecordFields(r: ListingResult)
    requires r.beginTime >= 1000
    ensures ToCaseRecord(r) == Some(CaseRecord(r.courtName, r.caseId, r.caseNo, r.title, Decimal(r.beginTime / 1000)))
  {
    DropLastThreeIsSeconds(r.beginTime);
  }

  /** The records of one page, in `resultList` order, or `None` when one of
      them raises. */
  function PageRecords(results: seq<ListingResult>): Option<seq<CaseRecord>>
  {
    if results == [] then Some([])
    else
      match (ToCaseRecord(results[0]), PageRecords(results[1..]))
      case (Some(rec), Some(rest)) => Some([rec] + rest)
      case _ => None
  }

  /** A page converts exactly when every result on it does, and then record
      `i` comes from result `i`. */
  lemma {:induction false} PageRecordsPositional(results: seq<ListingResult>)
    ensures PageRecords(results).Some? <==> forall i :: 0 <= i < |results| ==> results[i].beginTime >= 1000
    ensures PageRecords(results).Some? ==>
      |PageRecords(results).value| == |results| &&
      forall i :: 0 <= i < |results| ==> Some(PageRecords(results).value[i]) == ToCaseRecord(results[i])
  {
    if results != [] {
      PageRecordsPositional(results[1..]);
      if PageRecords(results).Some? {
        var rest := PageRecords(results[1..]).value;
        forall i | 0 < i < |results|
          ensures Some(PageRecords(results).value[i]) == ToCaseRecord(results[i])
        {
          assert results[1..][i - 1] == results[i];
        }
      } else if ToCaseRecord(results[0]).Some? {
        var i :| 0 <= i < |results[1..]| && results[1..][i].beginTime < 1000;
        assert results[i + 1].beginTime < 1000;
      }
    }
  }

  /** The query of one listing page: the court's code and level and the page number. */
  datatype PageQuery = PageQuery(courtCode: string, courtLevel: int, pageNumber: int)

  const LastPage: int := 100

  /** The inner loop of `parse_case_id`: one record per result, appended in
      order; `None` where the timestamp conversion raises. */
  method BuildCases(response: seq<ListingResult>) returns (cases: Option<seq<CaseRecord>>)
    ensures cases == PageRecords(response)
  {
    var built: seq<CaseRecord> := [];
    for k := 0 to |response|
      invariant |built| == k
      invariant forall i :: 0 <= i < k ==> ToCaseRecord(response[i]) == Some(built[i])
    {
      var rec := ToCaseRecord(response[k]);
      if rec.None? {
        assert PageRecords(response).None? by {
          PageRecordsPositional(response);
          assert response[k].beginTime < 1000;
        }
        return None;
      }
      built := built + [rec.value];
    }
    assert PageRecords(response) == Some(built) by {
      PageRecordsPositional(response);
      assert forall i :: 0 <= i < |response| ==> response[i].beginTime >= 1000;
      var recs := PageRecords(response).value;
      assert |recs| == |built|;
      assert forall i :: 0 <= i < |built| ==> recs[i] == built[i];
      assert recs == built;
    }
    cases := Some(built);
  }

  /** What `parse_case_id` yields for one court: the batches of the pages it
      got through, and whether it got through all of them without raising. */
  datatype Paging = Paging(batches: seq<seq<CaseRecord>>, completed: bool)

  /** The generator's output over pages 1 to `n`: each page's batch in
      turn, until a page whose conversion raises. */
  function PagesUpTo(court: CourtInfo, fetch: PageQuery -> seq<ListingResult>, n: nat): (r: Paging)
    ensures |r.batches| <= n
    ensures r.completed ==> |r.batches| == n
  {
    if n == 0 then Paging([], true)
    else
      var before := PagesUpTo(court, fetch, n - 1);
      if !before.completed then before
      else match PageRecords(fetch(PageQuery(court.courtCode, court.courtLevel, n)))
        case None => Paging(before.batches, false)
        case Some(batch) => Paging(before.batches + [batch], true)
  }

  /** The generator's whole output for a court, pages 1 to 100. */
  function CourtPages(court: CourtInfo, fetch: PageQuery -> seq<ListingResult>): Paging
  {
    PagesUpTo(court, fetch, LastPage)
  }

  /** Once a page has raised, later pages add nothing. */
  lemma {:induction false} PagesUpToStopped(court: CourtInfo, fetch: PageQuery -> seq<ListingResult>, m: nat, n: nat)
    requires m <= n && !PagesUpTo(court, fetch, m).completed
    ensures PagesUpTo(court, fetch, n) == PagesUpTo(court, fetch, m)
    decreases n
  {
    if m < n {
      PagesUpToStopped(court, fetch, m, n - 1);
    }
  }

  /** `parse_case_id` with the listing responses as a function of the query.
      Every page from 1 to 100 yields its batch, empty or not; a page whose
      conversion raises ends the generator with `completed` false. */
  method ParseCaseId(court: CourtInfo, fetch: PageQuery -> seq<ListingResult>)
    returns (pages: seq<seq<CaseRecord>>, completed: bool)
    ensures Paging(pages, completed) == CourtPages(court, fetch)
    ensures completed ==> |pages| == LastPage
    ensures !completed ==> (|pages| < LastPage &&
      PageRecords(fetch(PageQuery(court.courtCode, court.courtLevel, |pages| + 1))).None?)
    ensures forall p :: 0 <= p < |pages| ==>
      PageRecords(fetch(PageQuery(court.courtCode, court.courtLevel, p + 1))) == Some(pages[p])
  {
    pages := [];
    for page := 1 to LastPage + 1
      invariant |pages| == page - 1
      invariant PagesUpTo(court, fetch, page - 1) == Paging(pages, true)
      invariant forall p :: 0 <= p < |pages| ==>
        PageRecords(fetch(PageQuery(court.courtCode, court.courtLevel, p + 1))) == Some(pages[p])
    {
      var response := fetch(PageQuery(court.courtCode, court.courtLevel, page));
      var cases := BuildCases(response);
      if cases.None? {
        PagesUpToStopped(court, fetch, page, LastPage);
        return pages, false;
      }
      pages := pages + [cases.value];
    }
    completed := true;
  }
}
