/** The segment-manifest parser `parse_ts_file`: the playlist text is split
    into lines, every empty line and every line holding `#` is dropped, the
    remaining lines get the `http:` prefix when `http` is missing and are
    numbered 1..N in document order. */
module Manifest {
  import opened Seqs
  import opened Text
  import opened Urls

  /** One entry of the task queue, `{'count': n, 'ts_url': url}`. */
  datatype SegmentTask = SegmentTask(count: int, tsUrl: string)

  /** A line that becomes a segment task: not empty and without `#` anywhere. */
  predicate IsSegmentLine(line: string)
  {
    line != "" && '#' !in line
  }

  /** The lines that survive the filter, in document order. */
  function SegmentLines(lines: seq<string>): (kept: seq<string>)
    ensures |kept| <= |lines|
    ensures forall k :: 0 <= k < |kept| ==> IsSegmentLine(kept[k]) && kept[k] in lines
  {
    if lines == [] then []
    else (if IsSegmentLine(lines[0]) then [lines[0]] else []) + SegmentLines(lines[1..])
  }

  /** The filter works line by line: filtering a concatenation filters each
      part, so surviving lines keep their relative order. */
  lemma {:induction false} SegmentLinesAppend(a: seq<string>, b: seq<string>)
    ensures SegmentLines(a + b) == SegmentLines(a) + SegmentLines(b)
  {
    if a == [] {
      assert a + b == b;
    } else {
      calc {
        SegmentLines(a + b);
        { AppendHeadTail(a, b); }
        (if IsSegmentLine(a[0]) then [a[0]] else []) + SegmentLines(a[1..] + b);
        { SegmentLinesAppend(a[1..], b); }
        (if IsSegmentLine(a[0]) then [a[0]] else []) + (SegmentLines(a[1..]) + SegmentLines(b));
        { AppendAssoc((if IsSegmentLine(a[0]) then [a[0]] else []), SegmentLines(a[1..]), SegmentLines(b)); }
        ((if IsSegmentLine(a[0]) then [a[0]] else []) + SegmentLines(a[1..])) + SegmentLines(b);
      }
    }
  }

  /** No segment line is lost: every line that is not empty and has no `#`
      survives the filter. */
  lemma {:induction false} SegmentLinesComplete(lines: seq<string>, k: int)
    requires 0 <= k < |lines| && IsSegmentLine(lines[k])
    ensures lines[k] in SegmentLines(lines)
  {
    if k > 0 {
      SegmentLinesComplete(lines[1..], k - 1);
    }
  }

  lemma SegmentLinesStep(lines: seq<string>, i: int)
    requires 0 <= i < |lines|
    ensures SegmentLines(lines[..i + 1]) ==
      SegmentLines(lines[..i]) + if IsSegmentLine(lines[i]) then [lines[i]] else []
  {
    assert lines[..i + 1] == lines[..i] + [lines[i]];
    SegmentLinesAppend(lines[..i], [lines[i]]);
    assert [lines[i]][1..] == [];
  }

  /** Tasks for the surviving lines: count `i + 1` for the line at position `i`. */
  function NumberedTasks(kept: seq<string>): seq<SegmentTask>
  {
    seq(|kept|, i requires 0 <= i < |kept| => SegmentTask(i + 1, NormalizeLocator(kept[i])))
  }

  /** A further surviving line is queued with the next count. */
  lemma NumberedTasksStep(kept: seq<string>, line: string)
    ensures NumberedTasks(kept + [line]) ==
      NumberedTasks(kept) + [SegmentTask(|kept| + 1, NormalizeLocator(line))]
  {
  }

  /** The task queue `parse_ts_file` builds from the manifest text. */
  function ManifestTasks(text: string): seq<SegmentTask>
  {
    NumberedTasks(SegmentLines(Split(text, '\n')))
  }

  /** The counts run 1..N without gaps or repeats, N is the number of
      surviving lines, and every locator carries a scheme. */
  lemma ManifestTasksNumbered(text: string)
    ensures |ManifestTasks(text)| == |SegmentLines(Split(text, '\n'))|
    ensures forall i :: 0 <= i < |ManifestTasks(text)| ==>
      ManifestTasks(text)[i].count == i + 1 && Occurs("http", ManifestTasks(text)[i].tsUrl)
  {
  }

  /** `parse_ts_file` with the fetched manifest text as input. The returned
      sequence is the queue in `put` order; its length is the progress total. */
  method ParseTsFile(text: string) returns (queue: seq<SegmentTask>)
    ensures queue == ManifestTasks(text)
    ensures |queue| == |SegmentLines(Split(text, '\n'))|
    ensures forall i :: 0 <= i < |queue| ==>
      queue[i].count == i + 1 && queue[i].tsUrl == NormalizeLocator(SegmentLines(Split(text, '\n'))[i])
  {
    var lines := Split(text, '\n');
    var tsCount := 1;
    queue := [];
    for i := 0 to |lines|
      invariant queue == NumberedTasks(SegmentLines(lines[..i]))
      invariant tsCount == |queue| + 1
    {
      var tsFile := lines[i];
      SegmentLinesStep(lines, i);
      if '#' in tsFile || tsFile == "" {
        continue;
      }
      NumberedTasksStep(SegmentLines(lines[..i]), tsFile);
      if !Occurs("http", tsFile) {
        tsFile := Scheme + tsFile;
      }
      queue := queue + [SegmentTask(tsCount, tsFile)];
      tsCount := tsCount + 1;
    }
    assert lines[..|lines|] == lines;
  }
}
