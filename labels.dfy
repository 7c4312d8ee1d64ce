/**
 * Turning classifier outputs into the stored labels, the same in both the
 * forecast endpoint and the ingestion pipeline: `int(p > 0.5)` for occurrence
 * and `np.argmax` (first index of the maximum) for severity.
 */
module Labels {
  import opened Wrappers

  /** The decision threshold of the occurrence classifier. */
  const Threshold: real := 0.5

  /** `int(p > 0.5)`: 1 exactly when the probability is strictly above the threshold. */
  function OccurrenceLabel(p: real): (r: int)
    ensures r == 0 || r == 1
    ensures r == 1 <==> p > Threshold
  {
    if p > Threshold then 1 else 0
  }

  /** A larger probability never gives a smaller label. */
  lemma OccurrenceMonotone(p: real, q: real)
    requires p <= q
    ensures OccurrenceLabel(p) <= OccurrenceLabel(q)
  {
  }

  /** k holds the largest score and no earlier index holds one as large. */
  ghost predicate IsFirstMax(s: seq<real>, k: int) {
    0 <= k < |s|
    && (forall j :: 0 <= j < |s| ==> s[j] <= s[k])
    && (forall j :: 0 <= j < k ==> s[j] < s[k])
  }

  /** There is only one first-maximum index. */
  lemma FirstMaxUnique(s: seq<real>, k1: int, k2: int)
    requires IsFirstMax(s, k1) && IsFirstMax(s, k2)
    ensures k1 == k2
  {
    var top1, top2 := s[k1], s[k2];
    assert top1 <= top2 && top2 <= top1;
  }

  /**
   * Scan of s[i..] that keeps the index `best` of the first maximum seen so far,
   * replacing it only on a strictly larger score, as numpy's argmax loop does.
   */
  function ArgMaxFrom(s: seq<real>, i: nat, best: nat): (r: nat)
    requires best < i <= |s|
    requires forall j :: 0 <= j < i ==> s[j] <= s[best]
    requires forall j :: 0 <= j < best ==> s[j] < s[best]
    ensures IsFirstMax(s, r)
    decreases |s| - i
  {
    if i == |s| then best
    else if s[i] > s[best] then ArgMaxFrom(s, i + 1, i)
    else ArgMaxFrom(s, i + 1, best)
  }

  /**
   * `np.argmax(scores)`: the lowest index of a maximal score. numpy raises
   * ValueError on an empty sequence, which is None here.
   */
  function ArgMax(s: seq<real>): (r: Option<nat>)
    ensures r.None? <==> |s| == 0
    ensures r.Some? ==> IsFirstMax(s, r.value)
  {
    if |s| == 0 then None else Some(ArgMaxFrom(s, 1, 0))
  }

  /** Any index that holds the first maximum is the one ArgMax returns. */
  lemma ArgMaxIsFirstMax(s: seq<real>, k: int)
    requires IsFirstMax(s, k)
    ensures ArgMax(s) == Some(k)
  {
    FirstMaxUnique(s, k, ArgMax(s).value);
  }
}
