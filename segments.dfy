/** The segment fetcher `download_ts_file`: the streamed response arrives as
    chunks, which are collected up to (and excluding) the first empty chunk
    and joined into the payload that is paired with the task's count. */
module Segments {
  import opened Seqs
  import opened Manifest

  newtype byte = x: int | 0 <= x < 256

  type Bytes = seq<byte>

  /** One entry `(count, payload)` of the shared download buffer. */
  datatype SegmentResult = SegmentResult(count: int, payload: Bytes)

  /** Python's `b''.join(chunks)`. */
  function Concat(chunks: seq<Bytes>): Bytes
  {
    if chunks == [] then [] else chunks[0] + Concat(chunks[1..])
  }

  lemma {:induction false} ConcatAppend(a: seq<Bytes>, b: seq<Bytes>)
    ensures Concat(a + b) == Concat(a) + Concat(b)
  {
    if a == [] {
      assert a + b == b;
    } else {
      calc {
        Concat(a + b);
        { AppendHeadTail(a, b); }
        a[0] + Concat(a[1..] + b);
        { ConcatAppend(a[1..], b); }
        a[0] + (Concat(a[1..]) + Concat(b));
        { AppendAssoc(a[0], Concat(a[1..]), Concat(b)); }
        (a[0] + Concat(a[1..])) + Concat(b);
      }
    }
  }

  /** The position of the first empty chunk, or the number of chunks when
      none is empty. */
  function FirstEmpty(chunks: seq<Bytes>): (k: nat)
    ensures k <= |chunks|
    ensures forall j :: 0 <= j < k ==> chunks[j] != []
    ensures k < |chunks| ==> chunks[k] == []
  {
    if chunks == [] || chunks[0] == [] then 0 else 1 + FirstEmpty(chunks[1..])
  }

  /** The payload of one segment: the chunks before the first empty one, joined. */
  function Payload(chunks: seq<Bytes>): Bytes
  {
    Concat(chunks[..FirstEmpty(chunks)])
  }

  /** An empty chunk ends the segment: whatever streams after it is ignored,
      and when no chunk is empty the payload is all of them joined. */
  lemma {:induction false} PayloadStopsAtEmptyChunk(before: seq<Bytes>, after: seq<Bytes>)
    requires forall j :: 0 <= j < |before| ==> before[j] != []
    ensures Payload(before) == Concat(before)
    ensures Payload(before + [[]] + after) == Concat(before)
  {
    FirstEmptyOfNonEmptyPrefix(before, []);
    FirstEmptyOfNonEmptyPrefix(before, [[]] + after);
    assert before + [[]] + after == before + ([[]] + after);
    assert (before + ([[]] + after))[..|before|] == before;
    assert before[..|before|] == before;
  }

  lemma {:induction false} FirstEmptyOfNonEmptyPrefix(before: seq<Bytes>, rest: seq<Bytes>)
    requires forall j :: 0 <= j < |before| ==> before[j] != []
    requires rest == [] || rest[0] == []
    ensures FirstEmpty(before + rest) == |before|
  {
    if before != [] {
      FirstEmptyOfNonEmptyPrefix(before[1..], rest);
      assert (before + rest)[1..] == before[1..] + rest;
    } else {
      assert before + rest == rest;
    }
  }

  /** `download_ts_file` with the streamed chunks as input: the loop collects
      chunks until an empty one and the result is what is appended to the
      shared buffer. */
  method DownloadTsFile(ts: SegmentTask, response: seq<Bytes>) returns (result: SegmentResult)
    ensures result.count == ts.count
    ensures result.payload == Payload(response)
  {
    var chunks: seq<Bytes> := [];
    var i := 0;
    while i < |response|
      invariant 0 <= i <= FirstEmpty(response)
      invariant chunks == response[..i]
    {
      var chunk := response[i];
      if chunk == [] {
        break;
      }
      chunks := chunks + [chunk];
      i := i + 1;
    }
    result := SegmentResult(ts.count, Concat(chunks));
  }
}
