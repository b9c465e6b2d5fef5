/**
 * Work selection (`pickActualUrls` in src/commands/run.ts): the URLs of a
 * project that are not yet in its processed ledger, in their original order,
 * cut to the daily API limit.
 */
module Selection {

  /** `a` can be obtained from `b` by deleting elements, keeping the order of the rest. */
  predicate IsSubsequence(a: seq<string>, b: seq<string>)
    decreases |b|
  {
    |a| == 0 || (|b| > 0 && ((a[0] == b[0] && IsSubsequence(a[1..], b[1..])) || IsSubsequence(a, b[1..])))
  }

  /** `urls.filter(url => !processed.includes(url))`. */
  function Unprocessed(urls: seq<string>, processed: seq<string>): (r: seq<string>)
    ensures forall u :: multiset(r)[u] == if u in processed then 0 else multiset(urls)[u]
    ensures IsSubsequence(r, urls)
    ensures |r| <= |urls|
  {
    if |urls| == 0 then []
    else
      var rest := Unprocessed(urls[1..], processed);
      assert urls == [urls[0]] + urls[1..];
      assert multiset(urls) == multiset([urls[0]]) + multiset(urls[1..]);
      if urls[0] in processed then rest
      else
        var r := [urls[0]] + rest;
        assert r[1..] == rest;
        assert multiset(r) == multiset([urls[0]]) + multiset(rest);
        r
  }

  function Min(a: nat, b: nat): nat {
    if a <= b then a else b
  }

  /**
   * The next chunk of work: the unprocessed URLs, cut to `limit` entries as
   * `slice(0, limit)` does (which clamps a limit beyond the end).
   */
  function PickActualUrls(urls: seq<string>, processed: seq<string>, limit: nat): (r: seq<string>)
    ensures |r| == Min(limit, |Unprocessed(urls, processed)|)
    ensures r <= Unprocessed(urls, processed)
    ensures IsSubsequence(r, urls)
    ensures forall u :: u in r ==> u in urls && u !in processed
  {
    var filtered := Unprocessed(urls, processed);
    var r := filtered[..Min(limit, |filtered|)];
    SubsequencePrefix(filtered, urls, |r|);
    forall u | u in r ensures u in urls && u !in processed {
      assert multiset(r)[u] > 0;
      assert r + filtered[|r|..] == filtered;
      assert multiset(filtered)[u] > 0;
    }
    r
  }

  /** Any prefix of a subsequence is a subsequence. */
  lemma {:induction false} SubsequencePrefix(a: seq<string>, b: seq<string>, k: nat)
    requires IsSubsequence(a, b) && k <= |a|
    ensures IsSubsequence(a[..k], b)
    decreases |b|
  {
    if k > 0 {
      if a[0] == b[0] && IsSubsequence(a[1..], b[1..]) {
        SubsequencePrefix(a[1..], b[1..], k - 1);
        assert a[..k][1..] == a[1..][..k - 1];
      } else {
        SubsequencePrefix(a, b[1..], k);
      }
    }
  }

  /** A URL outside the ledger is kept by the filter, whatever its position. */
  lemma UnprocessedKeeps(urls: seq<string>, processed: seq<string>, u: string)
    requires u in urls && u !in processed
    ensures u in Unprocessed(urls, processed)
  {
    assert multiset(urls)[u] > 0;
  }

  /** With nothing processed the filter keeps every URL. */
  lemma {:induction false} UnprocessedOfEmptyLedger(urls: seq<string>)
    ensures Unprocessed(urls, []) == urls
  {
    if |urls| > 0 {
      UnprocessedOfEmptyLedger(urls[1..]);
      assert urls == [urls[0]] + urls[1..];
    }
  }

  /** When every URL is already in the ledger there is no work left. */
  lemma NothingLeft(urls: seq<string>, processed: seq<string>, limit: nat)
    requires forall u :: u in urls ==> u in processed
    ensures PickActualUrls(urls, processed, limit) == []
  {
    var r := Unprocessed(urls, processed);
    forall u ensures multiset(r)[u] == 0 {
      assert u !in urls ==> multiset(urls)[u] == 0;
    }
    assert multiset(r) == multiset{};
    assert |r| == |multiset(r)| == 0;
  }

  /** A limit that covers the whole list selects every unprocessed URL (no truncation). */
  lemma UnlimitedSelection(urls: seq<string>, processed: seq<string>, limit: nat)
    requires |urls| <= limit
    ensures PickActualUrls(urls, processed, limit) == Unprocessed(urls, processed)
  {
  }
}
