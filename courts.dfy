/** Court-list flattening, `parse_province_court` (identical in
    `China_Trial/crawl/trial.py` and `crawl/trial.py`): entries of type 2 are
    skipped, an entry with sub-courts contributes one record per sub-court in
    order, an entry without sub-courts contributes itself, and every record
    gets `courtLevel = type - 1`. */
module Courts {
  import opened Seqs
  import opened Wrappers

  /** An element of an entry's `courts` list. */
  datatype SubCourt = SubCourt(courtName: string, courtCode: string, courtType: int)

  /** An element of `data.courts` in the court listing. */
  datatype CourtEntry = CourtEntry(courtName: string, courtCode: string, courtType: int,
                                   areaName: string, courts: seq<SubCourt>)

  /** `{"courtName": ..., "courtCode": ..., "courtLevel": ...}` */
  datatype CourtInfo = CourtInfo(courtName: string, courtCode: string, courtLevel: int)

  /** `parse_province_court` reads `courts[0]['areaName']` for its log line,
      which raises on an empty listing. */
  datatype CourtsError = EmptyCourtList

  function InfoOfSub(c: SubCourt): CourtInfo
  {
    CourtInfo(c.courtName, c.courtCode, c.courtType - 1)
  }

  function InfoOfEntry(c: CourtEntry): CourtInfo
  {
    CourtInfo(c.courtName, c.courtCode, c.courtType - 1)
  }

  function SubInfos(subs: seq<SubCourt>): seq<CourtInfo>
  {
    seq(|subs|, i requires 0 <= i < |subs| => InfoOfSub(subs[i]))
  }

  lemma SubInfosStep(subs: seq<SubCourt>, j: int)
    requires 0 <= j < |subs|
    ensures SubInfos(subs[..j + 1]) == SubInfos(subs[..j]) + [InfoOfSub(subs[j])]
  {
  }

  /** What one entry adds to the list. */
  function Contribution(c: CourtEntry): seq<CourtInfo>
  {
    if c.courtType == 2 then []
    else if c.courts != [] then SubInfos(c.courts)
    else [InfoOfEntry(c)]
  }

  /** The list `parse_province_court` returns. */
  function Flatten(courts: seq<CourtEntry>): seq<CourtInfo>
  {
    if courts == [] then [] else Contribution(courts[0]) + Flatten(courts[1..])
  }

  lemma {:induction false} FlattenAppend(a: seq<CourtEntry>, b: seq<CourtEntry>)
    ensures Flatten(a + b) == Flatten(a) + Flatten(b)
  {
    if a == [] {
      assert a + b == b;
    } else {
      calc {
        Flatten(a + b);
        { AppendHeadTail(a, b); }
        Contribution(a[0]) + Flatten(a[1..] + b);
        { FlattenAppend(a[1..], b); }
        Contribution(a[0]) + (Flatten(a[1..]) + Flatten(b));
        { AppendAssoc(Contribution(a[0]), Flatten(a[1..]), Flatten(b)); }
        (Contribution(a[0]) + Flatten(a[1..])) + Flatten(b);
      }
    }
  }

  lemma FlattenSingle(e: CourtEntry)
    ensures Flatten([e]) == Contribution(e)
  {
    assert [e][0] == e && [e][1..] == [];
  }

  /** `info` is the record of entry `e` itself (no sub-courts) or of one of
      its sub-courts, and `e` is not of type 2. */
  predicate ComesFrom(info: CourtInfo, e: CourtEntry)
  {
    e.courtType != 2 &&
    if e.courts == [] then info == InfoOfEntry(e)
    else exists s :: s in e.courts && info == InfoOfSub(s)
  }

  /** Every record comes from an entry of the listing that is not of type 2,
      and is that entry's own record only when it has no sub-courts; its
      level is therefore always its origin's type minus one. */
  lemma {:induction false} FlattenSound(courts: seq<CourtEntry>)
    ensures forall info :: info in Flatten(courts) ==> exists e :: e in courts && ComesFrom(info, e)
  {
    if courts != [] {
      FlattenSound(courts[1..]);
      var e := courts[0];
      forall info | info in Contribution(e)
        ensures ComesFrom(info, e)
      {
        if e.courts != [] {
          var i :| 0 <= i < |e.courts| && SubInfos(e.courts)[i] == info;
          assert e.courts[i] in e.courts;
        }
      }
    }
  }

  /** The records of each entry appear in the flattened list. */
  lemma ContributionInFlatten(courts: seq<CourtEntry>, k: int)
    requires 0 <= k < |courts|
    ensures forall info :: info in Contribution(courts[k]) ==> info in Flatten(courts)
  {
    calc {
      Flatten(courts);
      { assert courts == courts[..k] + courts[k..]; }
      Flatten(courts[..k] + courts[k..]);
      { FlattenAppend(courts[..k], courts[k..]); }
      Flatten(courts[..k]) + Flatten(courts[k..]);
      { assert courts[k..] == [courts[k]] + courts[k + 1..];
        FlattenAppend([courts[k]], courts[k + 1..]);
        FlattenSingle(courts[k]); }
      Flatten(courts[..k]) + (Contribution(courts[k]) + Flatten(courts[k + 1..]));
    }
  }

  /** Nothing is lost: an entry not of type 2 contributes every one of its
      sub-courts, or itself when it has none. */
  lemma FlattenComplete(courts: seq<CourtEntry>, k: int)
    requires 0 <= k < |courts| && courts[k].courtType != 2
    ensures courts[k].courts == [] ==> InfoOfEntry(courts[k]) in Flatten(courts)
    ensures forall s :: s in courts[k].courts ==> InfoOfSub(s) in Flatten(courts)
  {
    var e := courts[k];
    ContributionInFlatten(courts, k);
    if e.courts == [] {
      assert InfoOfEntry(e) in Contribution(e);
    }
    forall s | s in e.courts
      ensures InfoOfSub(s) in Flatten(courts)
    {
      var i :| 0 <= i < |e.courts| && e.courts[i] == s;
      assert SubInfos(e.courts)[i] == InfoOfSub(s);
      assert InfoOfSub(s) in Contribution(e);
    }
  }

  /** The list after entry `i` is the list before it and entry `i`'s records. */
  lemma FlattenStep(courts: seq<CourtEntry>, i: int)
    requires 0 <= i < |courts|
    ensures Flatten(courts[..i + 1]) == Flatten(courts[..i]) + Contribution(courts[i])
  {
    assert courts[..i + 1] == courts[..i] + [courts[i]];
    FlattenAppend(courts[..i], [courts[i]]);
    FlattenSingle(courts[i]);
  }

  /** An entry of type 2 contributes nothing wherever it stands. */
  lemma FlattenSkipsTypeTwo(a: seq<CourtEntry>, e: CourtEntry, b: seq<CourtEntry>)
    requires e.courtType == 2
    ensures Flatten(a + [e] + b) == Flatten(a + b)
  {
    calc {
      Flatten(a + [e] + b);
      { FlattenAppend(a + [e], b); }
      Flatten(a + [e]) + Flatten(b);
      { FlattenAppend(a, [e]); FlattenSingle(e); }
      Flatten(a) + Flatten(b);
      { FlattenAppend(a, b); }
      Flatten(a + b);
    }
  }

  /** `parse_province_court` with the `data.courts` list as input. */
  method ParseProvinceCourt(courts: seq<CourtEntry>) returns (r: Result<seq<CourtInfo>, CourtsError>)
    ensures r.Failure? <==> courts == []
    ensures r.Success? ==> r.value == Flatten(courts)
  {
    var courtInformationList: seq<CourtInfo> := [];
    for i := 0 to |courts|
      invariant courtInformationList == Flatten(courts[..i])
    {
      var court := courts[i];
      FlattenStep(courts, i);
      if court.courtType == 2 {
        continue;
      }
      if court.courts != [] {
        for j := 0 to |court.courts|
          invariant courtInformationList == Flatten(courts[..i]) + SubInfos(court.courts[..j])
        {
          SubInfosStep(court.courts, j);
          courtInformationList := courtInformationList + [InfoOfSub(court.courts[j])];
        }
        assert court.courts[..|court.courts|] == court.courts;
      } else {
        courtInformationList := courtInformationList + [InfoOfEntry(court)];
      }
    }
    assert courts[..|courts|] == courts;
    if |courts| == 0 {
      return Failure(EmptyCourtList);
    }
    r := Success(courtInformationList);
  }
}
