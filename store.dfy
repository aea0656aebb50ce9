/** The dedup store: the `trial_information` table, keyed by `caseId`.
    `database/sqlite.py` and `China_Trial/db/sqlite.py` declare the same table
    and the same `query_quantity` and `insert_value`; they differ in
    `sqlite_dedup`. The batch variant of `database/sqlite.py` tests each case
    and inserts it at once when it is new; the variant of
    `China_Trial/db/sqlite.py` only tests one case and inserts nothing. */
module Store {
  import opened Listing
  import opened Seqs

  /** A row of `trial_information`. */
  datatype TrialRow = TrialRow(caseId: string, caseName: string, caseNo: string,
                               caseTitle: string, publishTime: string)

  /** The row `insert_value` builds: `publish_time` is the case's `time`. */
  function RowOf(c: CaseRecord): TrialRow
  {
    TrialRow(c.caseId, c.caseName, c.caseNo, c.caseTitle, c.time)
  }

  /** `caseId` is the primary key: every row is stored under its own id. */
  predicate KeyedById(table: map<string, TrialRow>)
  {
    forall id :: id in table ==> table[id].caseId == id
  }

  function Ids(cases: seq<CaseRecord>): set<string>
  {
    set i | 0 <= i < |cases| :: cases[i].caseId
  }

  /** The cases `sqlite_dedup` returns when the ids in `seen` are stored:
      each case is examined in order and kept when its id is absent, and
      from then on its id counts as stored. */
  function Dedup(seen: set<string>, cases: seq<CaseRecord>): (kept: seq<CaseRecord>)
    ensures |kept| <= |cases|
    ensures forall k :: 0 <= k < |kept| ==> kept[k] in cases && kept[k].caseId !in seen
    decreases |cases|
  {
    if cases == [] then []
    else if cases[0].caseId in seen then Dedup(seen, cases[1..])
    else [cases[0]] + Dedup(seen + {cases[0].caseId}, cases[1..])
  }

  /** Inserting the rows of `cases` one after another. */
  function InsertAll(table: map<string, TrialRow>, cases: seq<CaseRecord>): map<string, TrialRow>
    decreases |cases|
  {
    if cases == [] then table
    else InsertAll(table[cases[0].caseId := RowOf(cases[0])], cases[1..])
  }

  lemma IdsAppend(a: seq<CaseRecord>, b: seq<CaseRecord>)
    ensures Ids(a + b) == Ids(a) + Ids(b)
  {
    forall id | id in Ids(a)
      ensures id in Ids(a + b)
    {
      var i :| 0 <= i < |a| && a[i].caseId == id;
      assert (a + b)[i].caseId == id;
    }
    forall id | id in Ids(a + b)
      ensures id in Ids(a) + Ids(b)
    {
      var i :| 0 <= i < |a + b| && (a + b)[i].caseId == id;
      if i >= |a| {
        assert b[i - |a|].caseId == id;
      }
    }
    forall id | id in Ids(b)
      ensures id in Ids(a + b)
    {
      var i :| 0 <= i < |b| && b[i].caseId == id;
      assert (a + b)[|a| + i].caseId == id;
    }
  }

  lemma IdsCons(a: seq<CaseRecord>)
    requires a != []
    ensures Ids(a) == {a[0].caseId} + Ids(a[1..])
  {
    assert a == [a[0]] + a[1..];
    IdsAppend([a[0]], a[1..]);
    assert Ids([a[0]]) == {a[0].caseId};
  }

  /** Dedup of a batch is dedup of its first part followed by dedup of the
      rest against everything seen so far, including the first part's ids. */
  lemma {:induction false} DedupAppend(seen: set<string>, a: seq<CaseRecord>, b: seq<CaseRecord>)
    ensures Dedup(seen, a + b) == Dedup(seen, a) + Dedup(seen + Ids(a), b)
    decreases |a|
  {
    if a == [] {
      assert a + b == b;
      assert Ids(a) == {};
      assert seen + Ids(a) == seen;
    } else {
      var c := a[0];
      AppendHeadTail(a, b);
      IdsCons(a);
      if c.caseId in seen {
        calc {
          Dedup(seen, a + b);
          Dedup(seen, a[1..] + b);
          { DedupAppend(seen, a[1..], b); }
          Dedup(seen, a[1..]) + Dedup(seen + Ids(a[1..]), b);
          { assert seen + Ids(a[1..]) == seen + Ids(a); }
          Dedup(seen, a) + Dedup(seen + Ids(a), b);
        }
      } else {
        var seenNow := seen + {c.caseId};
        calc {
          Dedup(seen, a + b);
          [c] + Dedup(seenNow, a[1..] + b);
          { DedupAppend(seenNow, a[1..], b); }
          [c] + (Dedup(seenNow, a[1..]) + Dedup(seenNow + Ids(a[1..]), b));
          { AppendAssoc([c], Dedup(seenNow, a[1..]), Dedup(seenNow + Ids(a[1..]), b)); }
          ([c] + Dedup(seenNow, a[1..])) + Dedup(seenNow + Ids(a[1..]), b);
          { assert seenNow + Ids(a[1..]) == seen + Ids(a); }
          Dedup(seen, a) + Dedup(seen + Ids(a), b);
        }
      }
    }
  }

  /** The case at position `k` is returned exactly when its id is neither
      stored beforehand nor carried by an earlier case of the batch: a
      repeated id is returned only at its first occurrence. */
  lemma DedupExamined(seen: set<string>, cases: seq<CaseRecord>, k: int)
    requires 0 <= k < |cases|
    ensures Dedup(seen, cases[..k + 1]) ==
      Dedup(seen, cases[..k]) + if cases[k].caseId in seen + Ids(cases[..k]) then [] else [cases[k]]
  {
    assert cases[..k + 1] == cases[..k] + [cases[k]];
    DedupAppend(seen, cases[..k], [cases[k]]);
    assert [cases[k]][1..] == [];
  }

  lemma IdsStep(cases: seq<CaseRecord>, i: int)
    requires 0 <= i < |cases|
    ensures Ids(cases[..i + 1]) == Ids(cases[..i]) + {cases[i].caseId}
  {
    assert cases[..i + 1] == cases[..i] + [cases[i]];
    IdsAppend(cases[..i], [cases[i]]);
    assert Ids([cases[i]]) == {cases[i].caseId};
  }

  /** No two cases share an id. */
  predicate DistinctIds(cases: seq<CaseRecord>)
  {
    forall i, j :: 0 <= i < j < |cases| ==> cases[i].caseId != cases[j].caseId
  }

  /** Two batches without duplicates and without common ids have none together. */
  lemma DistinctIdsAppend(a: seq<CaseRecord>, b: seq<CaseRecord>)
    requires DistinctIds(a) && DistinctIds(b) && Ids(a) !! Ids(b)
    ensures DistinctIds(a + b)
  {
    forall i, j | 0 <= i < j < |a + b|
      ensures (a + b)[i].caseId != (a + b)[j].caseId
    {
      if i < |a| && j >= |a| {
        assert (a + b)[i].caseId in Ids(a);
        assert b[j - |a|].caseId in Ids(b);
      }
    }
  }

  /** Returned ids are pairwise distinct. */
  lemma {:induction false} DedupDistinct(seen: set<string>, cases: seq<CaseRecord>)
    ensures DistinctIds(Dedup(seen, cases))
    decreases |cases|
  {
    if cases != [] && cases[0].caseId in seen {
      DedupDistinct(seen, cases[1..]);
    } else if cases != [] {
      DedupDistinct(seen + {cases[0].caseId}, cases[1..]);
    }
  }

  /** After a batch every input id is stored, and the ids added are exactly
      those of the returned cases. */
  lemma {:induction false} DedupCovers(seen: set<string>, cases: seq<CaseRecord>)
    ensures seen + Ids(cases) == seen + Ids(Dedup(seen, cases))
    ensures Ids(Dedup(seen, cases)) !! seen
    decreases |cases|
  {
    if cases != [] {
      var c := cases[0];
      assert cases == [c] + cases[1..];
      IdsAppend([c], cases[1..]);
      assert Ids([c]) == {c.caseId};
      if c.caseId in seen {
        DedupCovers(seen, cases[1..]);
      } else {
        var rest := Dedup(seen + {c.caseId}, cases[1..]);
        DedupCovers(seen + {c.caseId}, cases[1..]);
        IdsAppend([c], rest);
      }
    }
  }

  /** A batch whose ids are all stored already returns nothing. */
  lemma {:induction false} DedupAllStored(seen: set<string>, cases: seq<CaseRecord>)
    requires Ids(cases) <= seen
    ensures Dedup(seen, cases) == []
    decreases |cases|
  {
    if cases != [] {
      assert cases[0].caseId in Ids(cases);
      assert Ids(cases[1..]) <= Ids(cases) by {
        forall id | id in Ids(cases[1..]) ensures id in Ids(cases) {
          var i :| 0 <= i < |cases[1..]| && cases[1..][i].caseId == id;
          assert cases[i + 1].caseId == id;
        }
      }
      DedupAllStored(seen, cases[1..]);
    }
  }

  /** The table of both `SqliteDB` classes. */
  class SqliteDB {
    var table: map<string, TrialRow>

    ghost predicate Valid()
      reads this
    {
      KeyedById(table)
    }

    /** Opening the database file with the rows it already holds. */
    constructor (stored: map<string, TrialRow>)
      requires KeyedById(stored)
      ensures Valid() && table == stored
    {
      table := stored;
    }

    /** `query_quantity`: true exactly when a row with this id exists. */
    method QueryQuantity(caseId: string) returns (found: bool)
      ensures found <==> caseId in table
    {
      var count := if caseId in table then 1 else 0;
      found := count > 0;
    }

    /** `insert_value`: adds the case's row. An id that is already stored
        violates the primary key; the commit fails and nothing is added. */
    method InsertValue(c: CaseRecord) returns (ok: bool)
      requires Valid()
      modifies this
      ensures Valid()
      ensures ok <==> c.caseId !in old(table)
      ensures c.caseId in table
      ensures ok ==> table == old(table)[c.caseId := RowOf(c)]
      ensures !ok ==> table == old(table)
    {
      ok := c.caseId !in table;
      if ok {
        table := table[c.caseId := RowOf(c)];
      }
    }

    /** `sqlite_dedup` of `database/sqlite.py`: returns the new cases in input
        order, inserting each one when it is examined, and the number of
        cases it dropped. */
    method SqliteDedup(cases: seq<CaseRecord>) returns (afterDedup: seq<CaseRecord>, removed: int)
      requires Valid()
      modifies this
      ensures Valid()
      ensures afterDedup == Dedup(old(table).Keys, cases)
      ensures table == InsertAll(old(table), afterDedup)
      ensures table.Keys == old(table).Keys + Ids(cases)
      ensures forall id :: id in old(table) ==> table[id] == old(table)[id]
      ensures removed == |cases| - |afterDedup|
    {
      afterDedup := [];
      for i := 0 to |cases|
        invariant Valid()
        invariant afterDedup == Dedup(old(table).Keys, cases[..i])
        invariant table == InsertAll(old(table), afterDedup)
      {
        var c := cases[i];
        DedupStep(old(table), cases, i);
        var found := QueryQuantity(c.caseId);
        if found {
          continue;
        }
        var _ := InsertValue(c);
        afterDedup := afterDedup + [c];
      }
      assert cases[..|cases|] == cases;
      removed := |cases| - |afterDedup|;
      InsertAllKeys(old(table), afterDedup);
      DedupCovers(old(table).Keys, cases);
      forall id | id in old(table)
        ensures table[id] == old(table)[id]
      {
        InsertAllKeeps(old(table), afterDedup, id);
      }
    }

    /** `sqlite_dedup` of `China_Trial/db/sqlite.py`: true exactly when the
        case's id is already stored; the table is only read. */
    method IsDuplicate(c: CaseRecord) returns (present: bool)
      ensures present <==> c.caseId in table
    {
      present := QueryQuantity(c.caseId);
    }
  }

  /** Inserting a batch stores exactly the ids of the batch in addition. */
  lemma {:induction false} InsertAllKeys(table: map<string, TrialRow>, cases: seq<CaseRecord>)
    ensures InsertAll(table, cases).Keys == table.Keys + Ids(cases)
    decreases |cases|
  {
    if cases != [] {
      var c := cases[0];
      InsertAllKeys(table[c.caseId := RowOf(c)], cases[1..]);
      assert cases == [c] + cases[1..];
      IdsAppend([c], cases[1..]);
      assert Ids([c]) == {c.caseId};
    }
  }

  /** Inserting a batch leaves every row whose id is not in the batch alone. */
  lemma {:induction false} InsertAllKeeps(table: map<string, TrialRow>, cases: seq<CaseRecord>, id: string)
    requires id in table && id !in Ids(cases)
    ensures id in InsertAll(table, cases) && InsertAll(table, cases)[id] == table[id]
    decreases |cases|
  {
    if cases != [] {
      var c := cases[0];
      assert cases == [c] + cases[1..];
      IdsAppend([c], cases[1..]);
      assert c.caseId in Ids([c]);
      InsertAllKeeps(table[c.caseId := RowOf(c)], cases[1..], id);
    }
  }

  /** Inserting rows built by `RowOf` keeps every row under its own id. */
  lemma {:induction false} InsertAllKeyed(table: map<string, TrialRow>, cases: seq<CaseRecord>)
    requires KeyedById(table)
    ensures KeyedById(InsertAll(table, cases))
    decreases |cases|
  {
    if cases != [] {
      InsertAllKeyed(table[cases[0].caseId := RowOf(cases[0])], cases[1..]);
    }
  }

  /** One iteration of the batch dedup: when the stored ids are those the
      batch so far has added, a stored id adds nothing, and a new one is
      returned and inserted. */
  lemma DedupStep(start: map<string, TrialRow>, cases: seq<CaseRecord>, i: int)
    requires 0 <= i < |cases|
    ensures var c, kept := cases[i], Dedup(start.Keys, cases[..i]);
      var table := InsertAll(start, kept);
      (c.caseId in table ==> Dedup(start.Keys, cases[..i + 1]) == kept) &&
      (c.caseId !in table ==> Dedup(start.Keys, cases[..i + 1]) == kept + [c] &&
                              InsertAll(start, kept + [c]) == table[c.caseId := RowOf(c)])
  {
    var c, kept := cases[i], Dedup(start.Keys, cases[..i]);
    InsertAllKeys(start, kept);
    DedupCovers(start.Keys, cases[..i]);
    DedupExamined(start.Keys, cases, i);
    InsertAllAppend(start, kept, c);
  }

  lemma {:induction false} InsertAllAppend(table: map<string, TrialRow>, cases: seq<CaseRecord>, c: CaseRecord)
    ensures InsertAll(table, cases + [c]) == InsertAll(table, cases)[c.caseId := RowOf(c)]
    decreases |cases|
  {
    if cases == [] {
      assert [c][1..] == [];
    } else {
      assert (cases + [c])[1..] == cases[1..] + [c];
      InsertAllAppend(table[cases[0].caseId := RowOf(cases[0])], cases[1..], c);
    }
  }

  /** Inserting two batches one after the other is inserting them together. */
  lemma {:induction false} InsertAllConcat(table: map<string, TrialRow>, a: seq<CaseRecord>, b: seq<CaseRecord>)
    ensures InsertAll(table, a + b) == InsertAll(InsertAll(table, a), b)
    decreases |a|
  {
    if a == [] {
      assert a + b == b;
    } else {
      AppendHeadTail(a, b);
      InsertAllConcat(table[a[0].caseId := RowOf(a[0])], a[1..], b);
    }
  }
}
