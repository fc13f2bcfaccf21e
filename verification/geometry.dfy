/**
 Section geometry of the scroll-snap page: section heights are whole pixels
 (an element's offsetHeight), so every offset here is plain integer arithmetic.
 */
module SectionGeometry {
  import opened Wrappers

  /** Sum of the first k section heights, folded from the left starting at 0:
      the offset at which section k begins, and the snap target for index k. */
  function Prefix(heights: seq<nat>, k: nat): (r: nat)
    requires k <= |heights|
    ensures forall j :: 0 <= j < k ==> heights[j] <= r
    ensures r == 0 <==> forall j :: 0 <= j < k ==> heights[j] == 0
  {
    if k == 0 then 0 else Prefix(heights, k - 1) + heights[k - 1]
  }

  /** The height of the whole scrollable content. */
  function Total(heights: seq<nat>): (r: nat)
    ensures forall k :: 0 <= k <= |heights| ==> Prefix(heights, k) <= r
  {
    assert forall k :: 0 <= k <= |heights| ==> Prefix(heights, k) <= Prefix(heights, |heights|) by {
      forall k | 0 <= k <= |heights| ensures Prefix(heights, k) <= Prefix(heights, |heights|) {
        PrefixMonotone(heights, k, |heights|);
      }
    }
    Prefix(heights, |heights|)
  }

  /** Snap targets never decrease as the index grows. */
  lemma {:induction false} PrefixMonotone(heights: seq<nat>, j: nat, k: nat)
    requires j <= k <= |heights|
    ensures Prefix(heights, j) <= Prefix(heights, k)
  {
    if j < k {
      PrefixMonotone(heights, j, k - 1);
    }
  }

  /** A snap target never lies beyond the end of the content. */
  lemma PrefixWithinTotal(heights: seq<nat>, k: nat)
    requires k <= |heights|
    ensures 0 <= Prefix(heights, k) <= Total(heights)
  {
  }

  /** The largest offset the content may be translated by: the content height
      less one viewport, but never negative. */
  function MaxScroll(heights: seq<nat>, viewport: nat): (r: int)
    ensures 0 <= r <= Total(heights)
    ensures r == 0 || r + viewport == Total(heights)
    ensures r + viewport >= Total(heights)
  {
    if Total(heights) - viewport > 0 then Total(heights) - viewport else 0
  }

  /** Math.max(0, Math.min(y, maxScroll)). */
  function Clamp(y: int, maxScroll: int): (r: int)
    ensures 0 <= r
    ensures maxScroll >= 0 ==> r <= maxScroll
    ensures 0 <= y <= maxScroll ==> r == y
    ensures y > maxScroll >= 0 ==> r == maxScroll
    ensures y < 0 ==> r == 0
  {
    var lower := if y < maxScroll then y else maxScroll;
    if 0 > lower then 0 else lower
  }

  /** Section i is marked active when the offset lies in its half-open
      interval [Prefix(i), Prefix(i + 1)); a section of zero height never is. */
  predicate IsActive(heights: seq<nat>, position: int, i: nat)
    requires i < |heights|
    ensures IsActive(heights, position, i) ==> heights[i] > 0 && 0 <= position < Total(heights)
  {
    Prefix(heights, i) <= position < Prefix(heights, i + 1)
  }

  /** No offset lies in the intervals of two different sections. */
  lemma ActiveAtMostOne(heights: seq<nat>, position: int, i: nat, j: nat)
    requires i < |heights| && j < |heights|
    requires IsActive(heights, position, i) && IsActive(heights, position, j)
    ensures i == j
  {
    if i < j {
      PrefixMonotone(heights, i + 1, j);
    } else if j < i {
      PrefixMonotone(heights, j + 1, i);
    }
  }

  /** Every offset inside [0, Prefix(k)) lies in one of the first k sections. */
  lemma {:induction false} ActiveBelow(heights: seq<nat>, position: int, k: nat)
    requires k <= |heights|
    requires 0 <= position < Prefix(heights, k)
    ensures exists i :: 0 <= i < k && IsActive(heights, position, i)
  {
    if position >= Prefix(heights, k - 1) {
      assert IsActive(heights, position, k - 1);
    } else {
      ActiveBelow(heights, position, k - 1);
    }
  }

  /** Search for the active section among sections i, i + 1, ... */
  function ActiveFrom(heights: seq<nat>, position: int, i: nat): (r: Option<nat>)
    requires i <= |heights|
    ensures r.Some? ==> i <= r.value < |heights| && IsActive(heights, position, r.value)
    ensures r.None? ==> forall j :: i <= j < |heights| ==> !IsActive(heights, position, j)
    decreases |heights| - i
  {
    if i == |heights| then None
    else if IsActive(heights, position, i) then Some(i)
    else ActiveFrom(heights, position, i + 1)
  }

  /** The one section whose interval holds the offset, if any: there is one
      exactly when the offset is inside [0, Total). */
  function ActiveIndex(heights: seq<nat>, position: int): (r: Option<nat>)
    ensures forall i :: 0 <= i < |heights| ==> (IsActive(heights, position, i) <==> r == Some(i))
    ensures r.Some? <==> 0 <= position < Total(heights)
  {
    var r := ActiveFrom(heights, position, 0);
    assert r.Some? ==> forall i :: 0 <= i < |heights| && IsActive(heights, position, i) ==> r == Some(i) by {
      if r.Some? {
        forall i | 0 <= i < |heights| && IsActive(heights, position, i) ensures r == Some(i) {
          ActiveAtMostOne(heights, position, i, r.value);
        }
      }
    }
    assert r.Some? ==> 0 <= position < Total(heights) by {
      if r.Some? {
        PrefixWithinTotal(heights, r.value + 1);
      }
    }
    assert 0 <= position < Total(heights) ==> r.Some? by {
      if 0 <= position < Total(heights) {
        ActiveBelow(heights, position, |heights|);
      }
    }
    r
  }

  /** After clamping, some section is marked active whenever there is content
      and the viewport has a height; with a zero-height viewport the offset may
      sit at the very end of the content, where no section is marked. */
  lemma ClampedOffsetHasActive(heights: seq<nat>, viewport: nat, y: int)
    ensures viewport > 0 && Total(heights) > 0 ==> ActiveIndex(heights, Clamp(y, MaxScroll(heights, viewport))).Some?
    ensures viewport == 0 && y >= Total(heights) ==> ActiveIndex(heights, Clamp(y, MaxScroll(heights, viewport))).None?
  {
  }

  /** The section snapped to is the one marked active once the animation has
      landed, provided its target fits under the maximum offset and it has a
      height; otherwise the landing offset is the maximum offset. */
  lemma LandingMarksTarget(heights: seq<nat>, viewport: nat, k: nat)
    requires k < |heights|
    ensures Prefix(heights, k) <= MaxScroll(heights, viewport) && heights[k] > 0 ==>
      ActiveIndex(heights, Clamp(Prefix(heights, k), MaxScroll(heights, viewport))) == Some(k)
    ensures Prefix(heights, k) > MaxScroll(heights, viewport) ==>
      Clamp(Prefix(heights, k), MaxScroll(heights, viewport)) == MaxScroll(heights, viewport)
  {
  }

  /**
   The per-section loop of updateScroll: walk the sections with a running
   section start and mark each one whose half-open interval holds the offset.
   */
  method MarkActive(heights: seq<nat>, position: int) returns (marks: seq<bool>)
    ensures |marks| == |heights|
    ensures forall i :: 0 <= i < |heights| ==> (marks[i] <==> IsActive(heights, position, i))
  {
    marks := [];
    var sectionStart := 0;
    var i := 0;
    while i < |heights|
      invariant 0 <= i <= |heights|
      invariant sectionStart == Prefix(heights, i)
      invariant |marks| == i
      invariant forall j :: 0 <= j < i ==> (marks[j] <==> IsActive(heights, position, j))
    {
      var sectionEnd := sectionStart + heights[i];
      marks := marks + [position >= sectionStart && position < sectionEnd];
      sectionStart := sectionEnd;
      i := i + 1;
    }
  }
}
