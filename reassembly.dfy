/** The reassembler: after the worker join the buffer of `(count, payload)`
    pairs holds the results in completion order; it is sorted by count and
    the payloads are written one after another into the video file. */
module Reassembly {
  import opened Seqs
  import opened Manifest
  import opened Segments

  /** Ascending by count, the order `sorted(..., key=lambda x: x[0])` produces. */
  predicate SortedByCount(buffer: seq<SegmentResult>)
  {
    forall i, j :: 0 <= i < j < |buffer| ==> buffer[i].count <= buffer[j].count
  }

  /** Strictly ascending by count: the order of distinct counts. */
  predicate StrictlyByCount(buffer: seq<SegmentResult>)
  {
    forall i, j :: 0 <= i < j < |buffer| ==> buffer[i].count < buffer[j].count
  }

  /** Places `x` in front of the first entry whose count is not smaller. */
  function InsertByCount(x: SegmentResult, sorted: seq<SegmentResult>): (r: seq<SegmentResult>)
    requires SortedByCount(sorted)
    ensures SortedByCount(r)
    ensures multiset(r) == multiset(sorted) + multiset{x}
    ensures |r| == |sorted| + 1
    ensures r[0] == x || (sorted != [] && r[0] == sorted[0])
  {
    if sorted == [] || x.count <= sorted[0].count then
      SortedCons(x, sorted);
      [x] + sorted
    else
      var rest := InsertByCount(x, sorted[1..]);
      assert sorted[0].count <= rest[0].count by {
        if rest[0] != x {
          assert sorted[0].count <= sorted[1].count;
        }
      }
      SortedCons(sorted[0], rest);
      ConsMultiset(sorted, rest, x);
      [sorted[0]] + rest
  }

  /** Putting the head back in front of the tail with `x` inserted gives
      the whole buffer with `x` inserted. */
  lemma ConsMultiset(sorted: seq<SegmentResult>, rest: seq<SegmentResult>, x: SegmentResult)
    requires sorted != [] && multiset(rest) == multiset(sorted[1..]) + multiset{x}
    ensures multiset([sorted[0]] + rest) == multiset(sorted) + multiset{x}
  {
    assert sorted == [sorted[0]] + sorted[1..];
  }

  /** An entry whose count is at most the first count of a sorted buffer
      can go in front of it. */
  lemma SortedCons(h: SegmentResult, rest: seq<SegmentResult>)
    requires SortedByCount(rest) && (rest == [] || h.count <= rest[0].count)
    ensures SortedByCount([h] + rest)
  {
    var r := [h] + rest;
    forall i, j | 0 <= i < j < |r|
      ensures r[i].count <= r[j].count
    {
      assert r[j] == rest[j - 1];
      if i > 0 {
        assert r[i] == rest[i - 1];
      } else if j > 1 {
        assert rest[0].count <= rest[j - 1].count;
      }
    }
  }

  /** `sorted(buffer, key=lambda x: x[0])`: a stable sort by count. */
  function SortByCount(buffer: seq<SegmentResult>): (r: seq<SegmentResult>)
    ensures SortedByCount(r)
    ensures multiset(r) == multiset(buffer)
  {
    if buffer == [] then []
    else
      assert buffer == [buffer[0]] + buffer[1..];
      InsertByCount(buffer[0], SortByCount(buffer[1..]))
  }

  /** The file contents: the payloads written one after another. */
  function AllPayloads(buffer: seq<SegmentResult>): Bytes
  {
    if buffer == [] then [] else buffer[0].payload + AllPayloads(buffer[1..])
  }

  lemma {:induction false} AllPayloadsAppend(a: seq<SegmentResult>, b: seq<SegmentResult>)
    ensures AllPayloads(a + b) == AllPayloads(a) + AllPayloads(b)
  {
    if a == [] {
      assert a + b == b;
    } else {
      calc {
        AllPayloads(a + b);
        { AppendHeadTail(a, b); }
        a[0].payload + AllPayloads(a[1..] + b);
        { AllPayloadsAppend(a[1..], b); }
        a[0].payload + (AllPayloads(a[1..]) + AllPayloads(b));
        { AppendAssoc(a[0].payload, AllPayloads(a[1..]), AllPayloads(b)); }
        (a[0].payload + AllPayloads(a[1..])) + AllPayloads(b);
      }
    }
  }

  /** The write loop of `save_video`: every `buffer[1]` is written in turn. */
  method SaveVideo(buffers: seq<SegmentResult>) returns (contents: Bytes)
    ensures contents == AllPayloads(buffers)
  {
    contents := [];
    for i := 0 to |buffers|
      invariant contents == AllPayloads(buffers[..i])
    {
      AllPayloadsAppend(buffers[..i], [buffers[i]]);
      assert buffers[..i + 1] == buffers[..i] + [buffers[i]];
      contents := contents + buffers[i].payload;
    }
    assert buffers[..|buffers|] == buffers;
  }

  /** A sorted buffer with the same entries as a buffer of distinct,
      ascending counts is that buffer: there is only one way to sort it. */
  lemma {:induction false} SortedPermutationUnique(a: seq<SegmentResult>, b: seq<SegmentResult>)
    requires SortedByCount(a) && StrictlyByCount(b)
    requires multiset(a) == multiset(b)
    ensures a == b
    decreases |a|
  {
    assert |a| == |multiset(a)| == |multiset(b)| == |b|;
    if a != [] {
      SortedHeadsAgree(a, b);
      MultisetOfTails(a, b);
      assert SortedByCount(a[1..]) && StrictlyByCount(b[1..]);
      SortedPermutationUnique(a[1..], b[1..]);
      assert a == [a[0]] + a[1..] && b == [b[0]] + b[1..];
    }
  }

  lemma SortedHeadsAgree(a: seq<SegmentResult>, b: seq<SegmentResult>)
    requires SortedByCount(a) && StrictlyByCount(b)
    requires multiset(a) == multiset(b) && a != [] && b != []
    ensures a[0] == b[0]
  {
    assert a[0] in multiset(b);
    var j :| 0 <= j < |b| && b[j] == a[0];
    assert b[0] in multiset(a);
    var i :| 0 <= i < |a| && a[i] == b[0];
    assert a[0].count <= a[i].count;
    assert b[0].count <= b[j].count;
  }

  lemma MultisetOfTails<T>(a: seq<T>, b: seq<T>)
    requires a != [] && b != [] && a[0] == b[0]
    requires multiset(a) == multiset(b)
    ensures multiset(a[1..]) == multiset(b[1..])
  {
    assert a == [a[0]] + a[1..];
    assert b == [b[0]] + b[1..];
    assert multiset(a) == multiset{a[0]} + multiset(a[1..]);
    assert multiset(b) == multiset{a[0]} + multiset(b[1..]);
    forall x
      ensures multiset(a[1..])[x] == multiset(b[1..])[x]
    {
      assert multiset(a)[x] == multiset{a[0]}[x] + multiset(a[1..])[x];
      assert multiset(b)[x] == multiset{a[0]}[x] + multiset(b[1..])[x];
    }
  }

  /** Whatever order the workers finished in, sorting the buffer and writing
      it gives the payloads in ascending count order. */
  lemma {:induction false} ReassemblyIgnoresArrivalOrder(inOrder: seq<SegmentResult>, arrival: seq<SegmentResult>)
    requires StrictlyByCount(inOrder)
    requires multiset(arrival) == multiset(inOrder)
    ensures SortByCount(arrival) == inOrder
    ensures AllPayloads(SortByCount(arrival)) == AllPayloads(inOrder)
  {
    SortedPermutationUnique(SortByCount(arrival), inOrder);
  }

  /** The results of downloading every task: count and payload of the chunks
      streamed for its locator. */
  function DownloadResults(tasks: seq<SegmentTask>, fetch: string -> seq<Bytes>): seq<SegmentResult>
  {
    seq(|tasks|, i requires 0 <= i < |tasks| => SegmentResult(tasks[i].count, Payload(fetch(tasks[i].tsUrl))))
  }

  /** The payloads of the manifest's segments, in manifest order. */
  function ManifestPayloads(tasks: seq<SegmentTask>, fetch: string -> seq<Bytes>): Bytes
  {
    if tasks == [] then [] else Payload(fetch(tasks[0].tsUrl)) + ManifestPayloads(tasks[1..], fetch)
  }

  lemma {:induction false} AllPayloadsOfResults(tasks: seq<SegmentTask>, fetch: string -> seq<Bytes>)
    ensures AllPayloads(DownloadResults(tasks, fetch)) == ManifestPayloads(tasks, fetch)
  {
    if tasks != [] {
      AllPayloadsOfResults(tasks[1..], fetch);
      assert DownloadResults(tasks, fetch)[1..] == DownloadResults(tasks[1..], fetch);
    }
  }

  /** End to end for one case: parse the manifest, download every segment,
      let the results arrive in any order, sort and write. The video bytes
      are the segment payloads in the order the manifest lists them. */
  lemma {:induction false} VideoFollowsManifestOrder(text: string, fetch: string -> seq<Bytes>, arrival: seq<SegmentResult>)
    requires multiset(arrival) == multiset(DownloadResults(ManifestTasks(text), fetch))
    ensures AllPayloads(SortByCount(arrival)) == ManifestPayloads(ManifestTasks(text), fetch)
  {
    var tasks := ManifestTasks(text);
    ManifestTasksNumbered(text);
    var inOrder := DownloadResults(tasks, fetch);
    assert StrictlyByCount(inOrder);
    ReassemblyIgnoresArrivalOrder(inOrder, arrival);
    AllPayloadsOfResults(tasks, fetch);
  }

  /** The payloads of three entries, in their order. */
  lemma PayloadsOfThree(x: SegmentResult, y: SegmentResult, z: SegmentResult)
    ensures AllPayloads([x, y, z]) == x.payload + y.payload + z.payload
  {
    calc {
      AllPayloads([x, y, z]);
      { assert [x, y, z][1..] == [y, z]; }
      x.payload + AllPayloads([y, z]);
      { assert [y, z][1..] == [z]; }
      x.payload + (y.payload + AllPayloads([z]));
      { assert [z][1..] == []; }
      x.payload + (y.payload + (z.payload + AllPayloads([])));
      { assert z.payload + [] == z.payload; }
      x.payload + y.payload + z.payload;
    }
  }

  /** Moving the last of three entries to the front keeps the multiset. */
  lemma RotateThree<T>(x: T, y: T, z: T)
    ensures multiset([z, x, y]) == multiset([x, y, z])
  {
    forall o
      ensures multiset([z, x, y])[o] == multiset([x, y, z])[o]
    {
    }
  }

  /** Segments finishing in the order 3, 1, 2 are sorted back to 1, 2, 3. */
  lemma ArrivalOfThree(a: Bytes, b: Bytes, c: Bytes)
    ensures SortByCount([SegmentResult(3, c), SegmentResult(1, a), SegmentResult(2, b)]) ==
      [SegmentResult(1, a), SegmentResult(2, b), SegmentResult(3, c)]
  {
    var r1, r2, r3 := SegmentResult(1, a), SegmentResult(2, b), SegmentResult(3, c);
    var inOrder := [r1, r2, r3];
    assert StrictlyByCount(inOrder) by {
      assert forall i :: 0 <= i < 3 ==> inOrder[i].count == i + 1;
    }
    RotateThree(r1, r2, r3);
    ReassemblyIgnoresArrivalOrder(inOrder, [r3, r1, r2]);
  }

  /** Segments 1, 2, 3 with payloads `a`, `b`, `c` finishing in the order
      3, 1, 2 are written as `a + b + c`. */
  lemma ThreeSegmentsOutOfOrder(a: Bytes, b: Bytes, c: Bytes)
    ensures AllPayloads(SortByCount([SegmentResult(3, c), SegmentResult(1, a), SegmentResult(2, b)])) == a + b + c
  {
    ArrivalOfThree(a, b, c);
    PayloadsOfThree(SegmentResult(1, a), SegmentResult(2, b), SegmentResult(3, c));
  }
}
