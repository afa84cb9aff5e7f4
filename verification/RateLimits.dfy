/** Events kept a minimum distance apart, and how many of them fit into a window. */
module RateLimits {

  /** Numbers at least `gap` apart. */
  predicate Spaced(times: seq<int>, gap: nat) {
    forall k :: 0 < k < |times| ==> times[k] - times[k - 1] >= gap
  }

  lemma {:induction false} SpacedSpan(times: seq<int>, gap: nat)
    requires Spaced(times, gap) && times != []
    ensures times[|times| - 1] - times[0] >= (|times| - 1) * gap
    decreases |times|
  {
    if |times| > 1 {
      SpacedSpan(times[..|times| - 1], gap);
      assert (|times| - 1) * gap == (|times| - 2) * gap + gap;
    }
  }

  lemma QuotientBounds(n: nat, gap: nat, span: nat)
    requires gap > 0 && n * gap <= span
    ensures n <= span / gap
  {
    assert span < (span / gap + 1) * gap;
    TimesGrows(span / gap + 1, n, gap);
  }

  lemma TimesGrows(a: int, b: int, gap: nat)
    ensures a <= b ==> a * gap <= b * gap
  {
    assert b * gap - a * gap == (b - a) * gap;
  }

  /** At most span / gap + 1 of them fall into a window of that span. */
  lemma SpacedFit(times: seq<int>, gap: nat, start: int, span: nat)
    requires gap > 0 && Spaced(times, gap)
    requires forall k :: 0 <= k < |times| ==> start <= times[k] <= start + span
    ensures |times| <= span / gap + 1
  {
    if times != [] {
      SpacedSpan(times, gap);
      QuotientBounds(|times| - 1, gap, span);
    }
  }
}
