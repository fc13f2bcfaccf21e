/**
 The scroll-snap controller: one object holding the page's navigation state
 (the virtual offset, the current section, the animation guard, the viewport
 height) and one method per event that changes it.

 The eased tween is reduced to its two ends. Starting an animation sets the
 guard and records the target; completing it puts the offset at the target,
 clamps it and clears the guard. Because the back-to-top click starts an
 animation without looking at the guard, two animations can be in flight at
 once. All last the same time, so they complete in the order they started;
 `inFlight` holds their targets oldest first.
 */
module ScrollSnap {
  import opened Wrappers
  import opened SectionGeometry
  import opened InputMapping

  /** The index a one-step snap moves to, or None at the boundary. */
  function NextIndex(index: nat, count: nat, dir: Direction): (r: Option<nat>)
    ensures r.Some? && dir == Down ==> r.value == index + 1 && r.value < count
    ensures r.Some? && dir == Up ==> r.value + 1 == index
    ensures r.None? <==> (if dir == Down then index + 1 >= count else index == 0)
  {
    match dir
    case Down => if index < count - 1 then Some(index + 1) else None
    case Up => if index > 0 then Some(index - 1) else None
  }

  /** findIndex: the position of the first id equal to `id`, or -1. */
  function FirstIndexOf(ids: seq<string>, id: string): (r: int)
    ensures -1 <= r < |ids|
    ensures r == -1 <==> id !in ids
    ensures r >= 0 ==> ids[r] == id
    ensures forall j :: 0 <= j < r ==> ids[j] != id
  {
    if ids == [] then -1
    else if ids[0] == id then 0
    else
      var rest := FirstIndexOf(ids[1..], id);
      if rest == -1 then -1 else rest + 1
  }

  class Controller {
    /** The ids of the sections, in page order (the section list is fixed at load). */
    const ids: seq<string>
    /** The sections' pixel heights, as last laid out. */
    var heights: seq<nat>
    var viewport: nat
    var scrollY: int
    var index: nat
    var snapping: bool
    /** Targets of the animations started and not yet completed, oldest first. */
    var inFlight: seq<nat>
    /** Which sections carry the active marker. */
    var active: seq<bool>
    /** Where the current touch drag is anchored. */
    var touchStartY: real

    /** The shape of the state: one height per section, the index within the
        sections (0 when there are none), and a set guard only while some
        animation is in flight. */
    ghost predicate Wf()
      reads this
    {
      && |heights| == |ids|
      && (index < |ids| || index == 0)
      && (snapping ==> inFlight != [])
    }

    /** Wf, plus what every updateScroll leaves behind: the offset clamped and
        exactly the sections whose interval holds it marked active. */
    ghost predicate Valid()
      reads this
    {
      && Wf()
      && 0 <= scrollY <= MaxScroll(heights, viewport)
      && |active| == |ids|
      && forall i :: 0 <= i < |active| ==> (active[i] <==> IsActive(heights, scrollY, i))
    }

    /** The back-to-top button is shown exactly when past the first section,
        which on a well-formed state needs at least two sections. */
    predicate BackToTopShown()
      reads this
      ensures Wf() && BackToTopShown() ==> 0 < index < |ids| && |ids| >= 2
    {
      index > 0
    }

    /** The state after a snap in direction `dir` from index0, given the guard
        and the in-flight animations before it: nothing changes when the
        guard is set or the index is at the boundary; otherwise the index
        moves by one and an animation to its section's start begins. */
    ghost predicate SnapOutcome(index0: nat, snapping0: bool, inFlight0: seq<nat>, dir: Direction)
      reads this
    {
      && |heights| == |ids|
      && (index0 < |ids| || index0 == 0)
      && var next := NextIndex(index0, |ids|, dir);
         if snapping0 || next.None? then
           index == index0 && snapping == snapping0 && inFlight == inFlight0
         else
           index == next.value && snapping && inFlight == inFlight0 + [Prefix(heights, next.value)]
    }

    /** The state after the page loads: offset 0 at the first section, no
        animation, and the markers set by one updateScroll. */
    constructor (sectionIds: seq<string>, sectionHeights: seq<nat>, viewportHeight: nat)
      requires |sectionIds| == |sectionHeights|
      ensures Valid()
      ensures ids == sectionIds && heights == sectionHeights && viewport == viewportHeight
      ensures scrollY == 0 && index == 0 && !snapping && inFlight == [] && touchStartY == 0.0
    {
      ids := sectionIds;
      heights := sectionHeights;
      viewport := viewportHeight;
      scrollY := 0;
      index := 0;
      snapping := false;
      inFlight := [];
      active := [];
      touchStartY := 0.0;
      new;
      UpdateScroll();
    }

    /** Clamp the offset into [0, MaxScroll] and re-mark the active section.
        A second call changes nothing. */
    method UpdateScroll()
      requires Wf()
      modifies this
      ensures Valid()
      ensures scrollY == Clamp(old(scrollY), MaxScroll(heights, viewport))
      ensures old(Valid()) ==> scrollY == old(scrollY) && active == old(active)
      ensures heights == old(heights) && viewport == old(viewport) && index == old(index)
      ensures snapping == old(snapping) && inFlight == old(inFlight) && touchStartY == old(touchStartY)
    {
      var maxScroll := MaxScroll(heights, viewport);
      scrollY := Clamp(scrollY, maxScroll);
      active := MarkActive(heights, scrollY);
    }

    /** Start an animation to `target`: set the guard, record the target and
        draw the first frame, which is still at the current offset. */
    method StartAnimation(target: nat)
      requires Valid()
      modifies this
      ensures Valid()
      ensures snapping && inFlight == old(inFlight) + [target]
      ensures scrollY == old(scrollY) && active == old(active) && index == old(index)
      ensures heights == old(heights) && viewport == old(viewport) && touchStartY == old(touchStartY)
    {
      snapping := true;
      inFlight := inFlight + [target];
      UpdateScroll();
    }

    /** The last frame of the oldest animation: the offset becomes its target,
        clamped, and the guard is cleared (even if a later animation is still
        running). */
    method CompleteAnimation()
      requires Valid()
      requires inFlight != []
      modifies this
      ensures Valid()
      ensures scrollY == if old(inFlight[0]) <= MaxScroll(heights, viewport) then old(inFlight[0]) else MaxScroll(heights, viewport)
      ensures !snapping && inFlight == old(inFlight[1..])
      ensures index == old(index) && heights == old(heights) && viewport == old(viewport)
      ensures touchStartY == old(touchStartY)
    {
      scrollY := inFlight[0];
      UpdateScroll();
      snapping := false;
      inFlight := inFlight[1..];
    }

    /** snapToSection: move one section down or up, unless an animation is
        running or the index is already at that end. */
    method SnapToSection(dir: Direction)
      requires Valid()
      modifies this
      ensures Valid()
      ensures SnapOutcome(old(index), old(snapping), old(inFlight), dir)
      ensures old(snapping) ==> unchanged(this)
      ensures scrollY == old(scrollY) && active == old(active)
      ensures heights == old(heights) && viewport == old(viewport) && touchStartY == old(touchStartY)
    {
      if snapping {
        return;
      }
      var next := NextIndex(index, |ids|, dir);
      if next.None? {
        return;
      }
      index := next.value;
      var target := Prefix(heights, index);
      StartAnimation(target);
    }

    /** navigateToSectionById: jump to the first section with the given id.
        An empty id names no element, so it does nothing, as does an id no
        section carries. */
    method NavigateTo(id: string)
      requires Valid()
      modifies this
      ensures Valid()
      ensures var k := FirstIndexOf(ids, id);
        if old(snapping) || id == "" || k == -1 then
          index == old(index) && snapping == old(snapping) && inFlight == old(inFlight)
        else
          index == k && ids[k] == id && snapping && inFlight == old(inFlight) + [Prefix(heights, k)]
      ensures old(snapping) ==> unchanged(this)
      ensures scrollY == old(scrollY) && active == old(active)
      ensures heights == old(heights) && viewport == old(viewport) && touchStartY == old(touchStartY)
    {
      if snapping {
        return;
      }
      if id == "" {
        return;
      }
      var targetIndex := FirstIndexOf(ids, id);
      if targetIndex == -1 {
        return;
      }
      index := targetIndex;
      var target := Prefix(heights, targetIndex);
      StartAnimation(target);
    }

    /** The back-to-top click: back to the first section, without looking at
        the guard. */
    method BackToTop()
      requires Valid()
      modifies this
      ensures Valid()
      ensures index == 0 && !BackToTopShown()
      ensures snapping && inFlight == old(inFlight) + [0]
      ensures scrollY == old(scrollY) && active == old(active)
      ensures heights == old(heights) && viewport == old(viewport) && touchStartY == old(touchStartY)
    {
      index := 0;
      StartAnimation(0);
    }

    /** A resize (or any relayout) followed by updateScroll: new viewport and
        section heights, the offset re-clamped to them. */
    method Resize(viewportHeight: nat, sectionHeights: seq<nat>)
      requires Valid()
      requires |sectionHeights| == |ids|
      modifies this
      ensures Valid()
      ensures heights == sectionHeights && viewport == viewportHeight
      ensures scrollY == Clamp(old(scrollY), MaxScroll(sectionHeights, viewportHeight))
      ensures index == old(index) && snapping == old(snapping) && inFlight == old(inFlight)
      ensures touchStartY == old(touchStartY)
    {
      viewport := viewportHeight;
      heights := sectionHeights;
      UpdateScroll();
    }

    /** The wheel handler: swallowed while animating, else a snap in the
        direction of the delta's sign. */
    method OnWheel(deltaY: real)
      requires Valid()
      modifies this
      ensures Valid()
      ensures old(snapping) ==> unchanged(this)
      ensures SnapOutcome(old(index), old(snapping), old(inFlight), WheelDirection(deltaY))
      ensures scrollY == old(scrollY) && active == old(active)
      ensures heights == old(heights) && viewport == old(viewport) && touchStartY == old(touchStartY)
    {
      if snapping {
        return;
      }
      SnapToSection(WheelDirection(deltaY));
    }

    /** The touchstart handler: anchor the drag. */
    method OnTouchStart(y: real)
      requires Valid()
      modifies this
      ensures Valid()
      ensures touchStartY == y
      ensures index == old(index) && snapping == old(snapping) && inFlight == old(inFlight)
      ensures scrollY == old(scrollY) && active == old(active)
      ensures heights == old(heights) && viewport == old(viewport)
    {
      touchStartY := y;
    }

    /** The touchmove handler: swallowed while animating; a drag beyond the
        threshold snaps and re-anchors at y (even when the snap is refused at
        the boundary); a shorter drag does nothing. */
    method OnTouchMove(y: real)
      requires Valid()
      modifies this
      ensures Valid()
      ensures old(snapping) ==> unchanged(this)
      ensures !old(snapping) && TouchDirection(old(touchStartY), y).None? ==> unchanged(this)
      ensures !old(snapping) && TouchDirection(old(touchStartY), y).Some? ==>
        touchStartY == y && SnapOutcome(old(index), old(snapping), old(inFlight), TouchDirection(old(touchStartY), y).value)
      ensures scrollY == old(scrollY) && active == old(active)
      ensures heights == old(heights) && viewport == old(viewport)
    {
      if snapping {
        return;
      }
      var dir := TouchDirection(touchStartY, y);
      if dir.Some? {
        SnapToSection(dir.value);
        touchStartY := y;
      }
    }

    /** The keydown handler: ArrowDown and ArrowUp snap unless animating;
        every other key is ignored. */
    method OnKeyDown(key: string)
      requires Valid()
      modifies this
      ensures Valid()
      ensures old(snapping) || KeyDirection(key).None? ==> unchanged(this)
      ensures KeyDirection(key).Some? ==> SnapOutcome(old(index), old(snapping), old(inFlight), KeyDirection(key).value)
      ensures scrollY == old(scrollY) && active == old(active)
      ensures heights == old(heights) && viewport == old(viewport) && touchStartY == old(touchStartY)
    {
      if snapping {
        return;
      }
      var dir := KeyDirection(key);
      if dir.Some? {
        SnapToSection(dir.value);
      }
    }
  }

  /** Sections of heights 300, 500 and 200 in a 400-pixel viewport: two downs
      reach the last section, but its target 800 is past the maximum offset
      600, so the page stops at 600, where the middle section is the one
      marked active. */
  method ClampedSnapExample() returns (index: nat, offset: int, marked: Option<nat>)
    ensures index == 2 && offset == 600 && marked == Some(1)
  {
    var c := new Controller(["intro", "work", "contact"], [300, 500, 200], 400);
    assert Prefix(c.heights, 1) == 300 && Prefix(c.heights, 2) == 800 && Total(c.heights) == 1000;
    c.SnapToSection(Down);
    c.CompleteAnimation();
    c.SnapToSection(Down);
    c.CompleteAnimation();
    index, offset := c.index, c.scrollY;
    marked := ActiveIndex(c.heights, c.scrollY);
    assert IsActive(c.heights, 600, 1);
  }

  /** A back-to-top click during a snap starts a second animation; when the
      first one completes the guard is cleared although the second is still
      running, so a further snap is accepted at once. */
  method BackToTopDuringSnapExample() returns (guardAfterFirst: bool, stillRunning: nat, indexAfterNextSnap: nat)
    ensures !guardAfterFirst && stillRunning == 1 && indexAfterNextSnap == 1
  {
    var c := new Controller(["intro", "work", "contact"], [300, 500, 200], 400);
    c.SnapToSection(Down);
    c.BackToTop();
    c.CompleteAnimation();
    guardAfterFirst, stillRunning := c.snapping, |c.inFlight|;
    c.SnapToSection(Down);
    indexAfterNextSnap := c.index;
  }
}
