/** `SpecifyTrialSpider` of `crawl/specify_trial.py`: the first column of the
    task workbook is read into a queue of task ids, and for every task the
    manifest is parsed, its segments downloaded and the video written as
    `云南话_<task>.mp4`. */
module Spider {
  import opened Seqs
  import opened Wrappers
  import opened Text
  import opened Manifest
  import opened Segments
  import opened Reassembly
  import opened FileNames

  /** A cell of the workbook's first column: text, or an empty cell, which
      pandas reads as NaN. */
  datatype Cell = TextCell(s: string) | Missing

  /** `not task or str(task) == 'nan'`: empty and missing cells are skipped,
      and so is a cell whose text is `nan`. */
  predicate Skipped(cell: Cell)
  {
    cell.Missing? || cell.s == "" || cell.s == "nan"
  }

  /** `task.split('/')[-1]` in `load_task_file`: the text after the last `/`. */
  function TaskId(taskUrl: string): string
  {
    LastPiece(taskUrl, '/')
  }

  /** The id holds no `/` and is the suffix after the last `/` of the URL. */
  lemma {:induction false} TaskIdIsSuffix(taskUrl: string)
    ensures var id := TaskId(taskUrl);
      '/' !in id && |id| <= |taskUrl| && taskUrl[|taskUrl| - |id|..] == id &&
      (|id| < |taskUrl| ==> taskUrl[|taskUrl| - |id| - 1] == '/')
  {
    assert TaskId(taskUrl) == LastPiece(taskUrl, '/');
  }

  /** The id is `split('/')[-1]`. */
  lemma {:induction false} TaskIdIsLastPiece(taskUrl: string)
    ensures TaskId(taskUrl) == Split(taskUrl, '/')[|Split(taskUrl, '/')| - 1]
  {
    LastPieceIsLastOfSplit(taskUrl, '/');
  }

  /** A URL without `/` is its own id. */
  lemma {:induction false} TaskIdWithoutSlash(taskUrl: string)
    requires '/' !in taskUrl
    ensures TaskId(taskUrl) == taskUrl
  {
    TaskIdIsLastPiece(taskUrl);
    SplitWithoutSeparator(taskUrl, '/');
    assert Split(taskUrl, '/') == [taskUrl];
  }

  /** What one cell adds to the queue. */
  function CellIds(cell: Cell): (ids: seq<string>)
    ensures |ids| <= 1
  {
    if Skipped(cell) then [] else [TaskId(cell.s)]
  }

  /** The task ids `load_task_file` queues, in column order. */
  function TaskIds(cells: seq<Cell>): (ids: seq<string>)
    ensures |ids| <= |cells|
  {
    if cells == [] then [] else CellIds(cells[0]) + TaskIds(cells[1..])
  }

  /** Every queued id is a last piece: none contains `/`. */
  lemma {:induction false} TaskIdsHaveNoSlash(cells: seq<Cell>)
    ensures forall k :: 0 <= k < |TaskIds(cells)| ==> '/' !in TaskIds(cells)[k]
  {
    if cells != [] {
      TaskIdsHaveNoSlash(cells[1..]);
      var head := CellIds(cells[0]);
      if !Skipped(cells[0]) {
        TaskIdIsSuffix(cells[0].s);
      }
      assert forall k :: 0 <= k < |head| ==> '/' !in head[k];
      assert TaskIds(cells) == head + TaskIds(cells[1..]);
    }
  }

  lemma {:induction false} TaskIdsAppend(a: seq<Cell>, b: seq<Cell>)
    ensures TaskIds(a + b) == TaskIds(a) + TaskIds(b)
  {
    if a == [] {
      assert a + b == b;
    } else {
      calc {
        TaskIds(a + b);
        { AppendHeadTail(a, b); }
        CellIds(a[0]) + TaskIds(a[1..] + b);
        { TaskIdsAppend(a[1..], b); }
        CellIds(a[0]) + (TaskIds(a[1..]) + TaskIds(b));
        { AppendAssoc(CellIds(a[0]), TaskIds(a[1..]), TaskIds(b)); }
        (CellIds(a[0]) + TaskIds(a[1..])) + TaskIds(b);
      }
    }
  }

  lemma TaskIdsSingle(cell: Cell)
    ensures TaskIds([cell]) == CellIds(cell)
  {
    assert [cell][1..] == [];
  }

  lemma TaskIdsStep(cells: seq<Cell>, i: int)
    requires 0 <= i < |cells|
    ensures TaskIds(cells[..i + 1]) == TaskIds(cells[..i]) + CellIds(cells[i])
  {
    assert cells[..i + 1] == cells[..i] + [cells[i]];
    TaskIdsAppend(cells[..i], [cells[i]]);
    TaskIdsSingle(cells[i]);
  }

  /** A column without skipped cells queues one id per cell, in order. */
  lemma {:induction false} TaskIdsOfFilledColumn(cells: seq<Cell>)
    requires forall k :: 0 <= k < |cells| ==> !Skipped(cells[k])
    ensures |TaskIds(cells)| == |cells|
    ensures forall k :: 0 <= k < |cells| ==> cells[k].TextCell? && TaskIds(cells)[k] == TaskId(cells[k].s)
  {
    if cells != [] {
      var rest := TaskIds(cells[1..]);
      var head := CellIds(cells[0]);
      TaskIdsOfFilledColumn(cells[1..]);
      assert |head| == 1 && head[0] == TaskId(cells[0].s);
      assert TaskIds(cells) == head + rest;
      forall k | 0 <= k < |cells|
        ensures TaskIds(cells)[k] == TaskId(cells[k].s)
      {
        if k > 0 {
          assert cells[1..][k - 1] == cells[k];
        }
      }
    }
  }

  /** Skipped cells contribute nothing wherever they stand. */
  lemma TaskIdsIgnoreSkipped(a: seq<Cell>, cell: Cell, b: seq<Cell>)
    requires Skipped(cell)
    ensures TaskIds(a + [cell] + b) == TaskIds(a + b)
  {
    TaskIdsAppend(a + [cell], b);
    TaskIdsAppend(a, [cell]);
    TaskIdsAppend(a, b);
    TaskIdsSingle(cell);
  }

  class SpecifyTrialSpider {
    var taskQueue: seq<string>

    constructor ()
      ensures taskQueue == []
    {
      taskQueue := [];
    }

    /** `load_task_file` with the first column of the workbook as input. */
    method LoadTaskFile(cells: seq<Cell>)
      modifies this
      ensures taskQueue == old(taskQueue) + TaskIds(cells)
    {
      for i := 0 to |cells|
        invariant taskQueue == old(taskQueue) + TaskIds(cells[..i])
      {
        var task := cells[i];
        TaskIdsStep(cells, i);
        assert old(taskQueue) + TaskIds(cells[..i + 1]) == taskQueue + CellIds(task);
        if Skipped(task) {
          assert taskQueue + CellIds(task) == taskQueue;
          continue;
        }
        var taskId := TaskId(task.s);
        taskQueue := taskQueue + [taskId];
      }
      assert cells[..|cells|] == cells;
    }

    /** The download of one task, from the manifest text on: `arrival` is the
        shared buffer after the workers have joined, a rearrangement of the
        downloads of the manifest's segments. The file is named after the
        task and holds the segment payloads in manifest order. */
    method DownloadTask(task: string, manifest: string, fetch: string -> seq<Bytes>,
                        arrival: seq<SegmentResult>)
      returns (fileName: string, contents: Bytes)
      requires multiset(arrival) == multiset(DownloadResults(ManifestTasks(manifest), fetch))
      ensures fileName == SpecifyFileName(task)
      ensures TaskOfFileName(fileName) == Some(task)
      ensures contents == ManifestPayloads(ManifestTasks(manifest), fetch)
    {
      var buffers := SortByCount(arrival);
      VideoFollowsManifestOrder(manifest, fetch, arrival);
      fileName := SpecifyPrefix + task + ".mp4";
      SpecifyFileNameRoundTrip(task);
      contents := SaveVideo(buffers);
    }
  }
}
