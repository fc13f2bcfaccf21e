# Scroll-snap controller, modelled in Dafny

This project models the scroll-snap controller of a portfolio page (`scrollSnapmk2.js`).
The page never scrolls natively. It keeps a virtual offset, `scrollY`, and translates its
content by it. The offset moves one section at a time, driven by wheel, touch and arrow-key input.
The controller's state is:
- the offset;
- the current section index;
- the `isSnapping` guard, which blocks navigation while an animation runs;
- the viewport height.

Section heights are whole pixels (`offsetHeight`). So every snap target is an integer
prefix sum of the heights before the target section.

Modules:
- `Wrappers` (`wrappers.dfy`): the `Option` type.
- `SectionGeometry` (`geometry.dfy`): the pure part.
  - Prefix sums (`Prefix`, `Total`), the largest offset (`MaxScroll`) and the clamp (`Clamp`).
  - The half-open "active section" test (`IsActive`) and the section it selects (`ActiveIndex`).
  - The per-section loop of `updateScroll` (`MarkActive`), a method with a running section start.
- `InputMapping` (`input.dfy`): how the wheel delta, the touch drag and the arrow keys choose a direction.
- `ScrollSnap` (`controller.dfy`): the class `Controller`.
  - Its fields are the module-level state of the script: `heights`, `viewport`, `scrollY`,
    `index`, `snapping`, the markers `active` and the touch anchor `touchStartY`.
  - It has one method per event.
  - `Valid()` is the invariant every event keeps:
    - the index stays within the sections;
    - the offset stays within `[0, MaxScroll]`;
    - exactly the sections whose interval holds the offset are marked.

The eased tween is reduced to its two ends:
- `StartAnimation` sets the guard and records the target.
- `CompleteAnimation` puts the offset at the target, clamps it and clears the guard.

The back-to-top click does not check the guard, so a second animation can start while one
is running. All animations last 600 ms, so they complete in the order they started. The
model therefore keeps the in-flight targets as a queue (`inFlight`), oldest first.
`BackToTopDuringSnapExample` shows the consequence: the first completion clears the guard
while the back-to-top animation is still running.

The button's visibility is the derived predicate `Controller.BackToTopShown()` (`index > 0`).
The script re-evaluates it on every `updateScroll`, and every transition draws a first frame
at once, so the predicate matches the page after every event.

The code clamps every offset to `total − viewport`. Take sections of heights 300, 500 and
200 in a 400-pixel viewport. Two downs give index 2 at offset 600, not at the last section's
start 800, and the middle section is marked active (`ClampedSnapExample`).

## Model

| member | source | states |
|---|---|---|
| `SectionGeometry.Prefix` | scrollSnapmk2.js:44-46 | the snap target for index k is at least each of the first k heights, and it is 0 exactly when all of them are 0 |
| `SectionGeometry.Total` | scrollSnapmk2.js:21-24 | the total content height is at least every snap target |
| `SectionGeometry.IsActive` | scrollSnapmk2.js:122-124 | a section is active only if it has a height and the offset lies in [0, total) |
| `SectionGeometry.PrefixMonotone` | scrollSnapmk2.js:44-46 | the snap target (sum of the heights before index k) never decreases as k grows |
| `SectionGeometry.PrefixWithinTotal` | scrollSnapmk2.js:21-24 | a snap target is non-negative and never exceeds the total content height |
| `SectionGeometry.MaxScroll` | scrollSnapmk2.js:109-110 | the largest offset lies in [0, total]; it is 0 or total − viewport, and one viewport past it reaches the end of the content |
| `SectionGeometry.Clamp` | scrollSnapmk2.js:111 | the clamped offset lies in [0, maxScroll]; an offset already in range is kept, one above goes to maxScroll, one below goes to 0 |
| `SectionGeometry.ActiveAtMostOne` | scrollSnapmk2.js:121-131 | no offset lies in the half-open intervals of two different sections |
| `SectionGeometry.ActiveBelow` | scrollSnapmk2.js:121-131 | every offset in [0, Prefix(k)) lies in the interval of one of the first k sections |
| `SectionGeometry.ActiveIndex` | scrollSnapmk2.js:116-131 | section i is active iff the lookup yields i, so at most one section is active; one is active iff 0 ≤ offset < total |
| `SectionGeometry.ClampedOffsetHasActive` | scrollSnapmk2.js:109-131 | after clamping, a section is marked whenever there is content and the viewport has a height; with a zero viewport an offset at the end marks none |
| `SectionGeometry.LandingMarksTarget` | scrollSnapmk2.js:96-99 | a completed snap to a non-empty section whose target fits under maxScroll marks that section; a target past maxScroll lands at maxScroll |
| `SectionGeometry.MarkActive` | scrollSnapmk2.js:116-131 | the loop with the running section start marks section i exactly when Prefix(i) ≤ offset < Prefix(i+1) |
| `InputMapping.WheelDirection` | scrollSnapmk2.js:143-147 | a positive wheel delta snaps down; zero and negative deltas snap up |
| `InputMapping.TouchDirection` | scrollSnapmk2.js:163-171 | moving the finger up by more than 30 px snaps down, down by more than 30 px snaps up, and within 30 px (inclusive) does nothing |
| `InputMapping.KeyDirection` | scrollSnapmk2.js:180-184 | ArrowDown snaps down, ArrowUp snaps up, and no other key yields a direction |
| `ScrollSnap.NextIndex` | scrollSnapmk2.js:30-42 | a down step gives index + 1 only while that is below the section count; an up step gives index − 1 only from above 0; otherwise there is no step |
| `ScrollSnap.FirstIndexOf` | scrollSnapmk2.js:60-63 | the result is −1 iff no section has the id; otherwise it is the first position holding the id |
| `ScrollSnap.Controller.BackToTopShown` | scrollSnapmk2.js:205-211 | the button is shown only past the first section, which on a well-formed state needs at least two sections |
| `ScrollSnap.Controller.constructor` | scrollSnapmk2.js:187-192 | after load the offset is 0, the index is 0, no animation runs, and the invariant holds |
| `ScrollSnap.Controller.UpdateScroll` | scrollSnapmk2.js:107-132 | the offset becomes its clamp into [0, max(0, total − viewport)] and exactly the sections holding it are marked; on a valid state a second call changes nothing |
| `ScrollSnap.Controller.StartAnimation` | scrollSnapmk2.js:76-93 | starting an animation sets the guard and queues the target; its first frame leaves the offset where it was |
| `ScrollSnap.Controller.CompleteAnimation` | scrollSnapmk2.js:94-100 | the offset becomes min(target, maxScroll) of the oldest animation, the guard is cleared, and that animation leaves the queue |
| `ScrollSnap.Controller.SnapToSection` | scrollSnapmk2.js:27-50 | while the guard is set nothing changes; at a boundary the index and guard stay as they were; otherwise the index moves by one and an animation to Prefix(index) starts |
| `ScrollSnap.Controller.NavigateTo` | scrollSnapmk2.js:53-73 | while the guard is set, for the empty id, or for an unknown id nothing changes and the guard is left as it was; otherwise the index becomes the first matching section and an animation to its start begins |
| `ScrollSnap.Controller.BackToTop` | scrollSnapmk2.js:214-219 | regardless of the guard: the index becomes 0, the button is hidden, the guard is set and an animation to offset 0 is queued |
| `ScrollSnap.Controller.Resize` | scrollSnapmk2.js:194-197 | the new viewport and heights are taken and the offset is re-clamped to them; index, guard and animations are untouched |
| `ScrollSnap.Controller.OnWheel` | scrollSnapmk2.js:135-148 | while the guard is set nothing changes; otherwise a snap in the wheel delta's direction |
| `ScrollSnap.Controller.OnTouchStart` | scrollSnapmk2.js:151-154 | the drag anchor becomes the touch position and nothing else changes |
| `ScrollSnap.Controller.OnTouchMove` | scrollSnapmk2.js:156-174 | while the guard is set, or within the 30 px threshold, nothing changes; beyond it, a snap in the drag's direction and the anchor moves to the touch position |
| `ScrollSnap.Controller.OnKeyDown` | scrollSnapmk2.js:177-185 | while the guard is set, or for any key other than the vertical arrows, nothing changes; otherwise a snap in the arrow's direction |
| `ScrollSnap.ClampedSnapExample` | scrollSnapmk2.js:97-111 | heights [300, 500, 200] in a 400 px viewport: two completed downs give index 2 but offset 600, with section 1 marked active |
| `ScrollSnap.BackToTopDuringSnapExample` | scrollSnapmk2.js:214-219 | a back-to-top click during a snap leaves one animation running after the first completes, with the guard already clear, so the next snap is accepted |

## Left out

- The eased tween is not modelled. This covers `easeInOutCubic`, the `Date.now` clock and the `requestAnimationFrame` frames between the first and the last (scrollSnapmk2.js:77-95). These are floating-point timing numerics. While a single animation runs, the model keeps the offset at its starting value until completion. When a back-to-top animation overlaps a snap, the first completion leaves the model's offset at the first target until the second completes. In the script, the second animation's next frame overwrites the offset right away (scrollSnapmk2.js:91-92), and that is not captured.
- `InputMapping.TouchDirection` and `InputMapping.WheelDirection` take the wheel delta and the touch positions as exact reals. In the script they are doubles, and the subtraction at scrollSnapmk2.js:164 rounds; that rounding is not modelled at the 30 px boundary.
- The offset is an integer. In the script it is a float during a tween, but every value it takes outside a tween is an integer prefix sum or a clamp of one.
- Section heights are read live from the layout on every call. The model changes them only through `Resize`, which stands for any relayout followed by `updateScroll`. A resize during an animation is modelled by this same step; the script does not define its interaction with the running tween.
- `navigateToSectionById` first looks the id up in the whole document. Whenever a section carries the id, that lookup succeeds, so it matters only for the empty id: the document lookup never matches the empty id, yet a section without an id would match it. The model keeps exactly that case.
- `snapToSection` is only ever called with 'down' or 'up'. The unreachable third branch, which would re-animate to the current section, is not modelled.
- DOM effects are left out: the transform style string, the `active`/`show` class toggling (kept as the `active` field and the `BackToTopShown` predicate), `preventDefault`, and listener registration.
- Missing DOM elements are not modelled: the script silently skips them. The same goes for input arriving before the load handler has run.
- The `window.updateScroll` rebinding (scrollSnapmk2.js:222-226) is not modelled. Only its effect is kept: the visibility rule `BackToTopShown`.
- The hover popup controller (scrollSnapmk2.js:229-498) is not modelled: `createImagePopup`, `positionPopup`, `attachGalleryListeners`, and the debounce and mouse-leave timers. It consists of timers, element creation and floating-point viewport geometry.
