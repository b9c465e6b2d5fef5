/**
 * Batching (`batchUrls` in src/commands/run.ts): the selected URLs are cut
 * into consecutive groups of at most GOOGLE_BATCH_LIMIT, the most the Google
 * Indexing batch endpoint takes in one request.
 */
module Batching {

  const BatchLimit: nat := 100

  /** The batches laid end to end. */
  function Flatten(batches: seq<seq<string>>): seq<string> {
    if |batches| == 0 then [] else batches[0] + Flatten(batches[1..])
  }

  /** Reference definition: full groups of BatchLimit from the front, the remainder last. */
  function Batches(urls: seq<string>): seq<seq<string>>
    decreases |urls|
  {
    if |urls| == 0 then []
    else if |urls| <= BatchLimit then [urls]
    else [urls[..BatchLimit]] + Batches(urls[BatchLimit..])
  }

  /** Every batch holds 1 to BatchLimit URLs and every batch but the last is full. */
  predicate WellSized(batches: seq<seq<string>>) {
    && (forall i :: 0 <= i < |batches| ==> 0 < |batches[i]| <= BatchLimit)
    && (forall i :: 0 <= i < |batches| - 1 ==> |batches[i]| == BatchLimit)
  }

  /** Laying the batches end to end gives the input back exactly. */
  lemma {:induction false} BatchesFlatten(urls: seq<string>)
    ensures Flatten(Batches(urls)) == urls
    decreases |urls|
  {
    if |urls| > BatchLimit {
      BatchesFlatten(urls[BatchLimit..]);
      assert urls == urls[..BatchLimit] + urls[BatchLimit..];
    } else if |urls| > 0 {
      assert Flatten([urls]) == urls + Flatten([]);
    }
  }

  /** Batch sizes, and the number of batches is the ceiling of |urls| / BatchLimit. */
  lemma {:induction false} BatchesShape(urls: seq<string>)
    ensures WellSized(Batches(urls))
    ensures |Batches(urls)| == (|urls| + BatchLimit - 1) / BatchLimit
    decreases |urls|
  {
    if |urls| > BatchLimit {
      var rest := urls[BatchLimit..];
      BatchesShape(rest);
      var b := Batches(urls);
      assert b[1..] == Batches(rest);
      assert forall i :: 1 <= i < |b| ==> b[i] == Batches(rest)[i - 1];
    }
  }

  /** Every URL in a batch comes from the input. */
  lemma {:induction false} BatchesMembers(urls: seq<string>)
    ensures forall i, j :: 0 <= i < |Batches(urls)| && 0 <= j < |Batches(urls)[i]| ==> Batches(urls)[i][j] in urls
    decreases |urls|
  {
    if |urls| > BatchLimit {
      var rest := urls[BatchLimit..];
      BatchesMembers(rest);
      var b := Batches(urls);
      forall i, j | 0 <= i < |b| && 0 <= j < |b[i]| ensures b[i][j] in urls {
        if i == 0 {
          assert b[0][j] == urls[j];
        } else {
          assert b[i] == Batches(rest)[i - 1];
          assert b[i][j] in rest;
          var k :| 0 <= k < |rest| && rest[k] == b[i][j];
          assert urls[BatchLimit + k] == rest[k];
        }
      }
    }
  }

  /**
   * The loop of `batchUrls`: URLs are shifted off the front of the (copied)
   * input into the current batch, which is pushed onto the result whenever it
   * reaches BatchLimit; a final partial batch is pushed only when non-empty.
   */
  method BatchUrls(urls: seq<string>) returns (batches: seq<seq<string>>)
    ensures batches == Batches(urls)
    ensures Flatten(batches) == urls
    ensures WellSized(batches)
    ensures |batches| == (|urls| + BatchLimit - 1) / BatchLimit
  {
    var rest := urls;
    var batch: seq<string> := [];
    batches := [];
    assert batch + rest == urls;
    while |rest| > 0
      invariant |batch| < BatchLimit
      invariant batches + Batches(batch + rest) == Batches(urls)
      decreases |rest|
    {
      ghost var pending := batch + rest;
      var url := rest[0];
      rest := rest[1..];
      batch := batch + [url];
      assert batch + rest == pending;
      if |batch| == BatchLimit {
        assert Batches(batch + rest) == [batch] + Batches(rest) by {
          if |rest| == 0 {
            assert batch + rest == batch;
          } else {
            assert (batch + rest)[..BatchLimit] == batch;
            assert (batch + rest)[BatchLimit..] == rest;
          }
        }
        batches := batches + [batch];
        batch := [];
        assert batch + rest == rest;
      }
    }
    if |batch| > 0 {
      batches := batches + [batch];
    }
    assert batch + rest == batch;
    BatchesFlatten(urls);
    BatchesShape(urls);
  }
}
