/** Swipe-to-remove: a row slides left under the finger, snaps open past a
    threshold to reveal the remove button, and snaps shut otherwise. Touch
    positions are the `clientX` of the first touch. */
module Swipe {
  /** Width of the remove button: the fully open offset. */
  const OPEN_OFFSET: real := 100.0
  /** Offset from which releasing the finger snaps the row open. */
  const THRESHOLD: real := 80.0

  /** The offset after a move whose leftward distance from the start is
      `diff`: a leftward drag follows the finger up to the full width; a
      rightward drag closes an open row, not below zero; otherwise nothing. */
  function MoveOffset(offset: real, revealed: bool, diff: real): (r: real)
    requires 0.0 <= offset <= OPEN_OFFSET
    ensures 0.0 <= r <= OPEN_OFFSET
    ensures diff > 0.0 ==> r == if diff < OPEN_OFFSET then diff else OPEN_OFFSET
    ensures diff <= 0.0 && revealed ==> r == if OPEN_OFFSET + diff > 0.0 then OPEN_OFFSET + diff else 0.0
    ensures diff <= 0.0 && !revealed ==> r == offset
  {
    if diff > 0.0 then (if diff < OPEN_OFFSET then diff else OPEN_OFFSET)
    else if revealed then (if OPEN_OFFSET + diff > 0.0 then OPEN_OFFSET + diff else 0.0)
    else offset
  }

  /** The state after the finger lifts: open at full width from the
      threshold on, shut below it. */
  function Release(offset: real): (r: (real, bool))
    ensures r.1 <==> offset >= THRESHOLD
    ensures r.0 == if r.1 then OPEN_OFFSET else 0.0
  {
    if offset >= THRESHOLD then (OPEN_OFFSET, true) else (0.0, false)
  }

  /** Releasing settles the row: releasing again changes nothing. */
  lemma ReleaseSettles(offset: real)
    ensures Release(Release(offset).0) == Release(offset)
  {
  }

  /** A drag of at least the threshold and then a release leaves the row
      open; a shorter drag of a shut row leaves it shut. */
  lemma DragThenRelease(diff: real)
    requires diff > 0.0
    ensures Release(MoveOffset(0.0, false, diff)).1 <==> diff >= THRESHOLD
  {
  }

  class SwipeToRemove {
    var startX: real
    var currentX: real
    var offset: real
    var revealed: bool
    /** How many times `onRemove` was called. */
    var removals: nat

    /** The offset never leaves [0, 100]. */
    predicate Valid()
      reads this
    {
      0.0 <= offset <= OPEN_OFFSET
    }

    constructor()
      ensures Valid()
      ensures startX == 0.0 && currentX == 0.0 && offset == 0.0 && !revealed && removals == 0
    {
      startX := 0.0;
      currentX := 0.0;
      offset := 0.0;
      revealed := false;
      removals := 0;
    }

    /** `handleTouchStart`. */
    method TouchStart(x: real)
      requires Valid()
      modifies this
      ensures Valid()
      ensures startX == x && currentX == x
      ensures offset == old(offset) && revealed == old(revealed) && removals == old(removals)
    {
      startX := x;
      currentX := startX;
    }

    /** `handleTouchMove`. */
    method TouchMove(x: real)
      requires Valid()
      modifies this
      ensures Valid()
      ensures currentX == x && startX == old(startX)
      ensures offset == MoveOffset(old(offset), old(revealed), old(startX) - x)
      ensures revealed == old(revealed) && removals == old(removals)
    {
      currentX := x;
      var diff := startX - currentX;
      if diff > 0.0 {
        offset := if diff < OPEN_OFFSET then diff else OPEN_OFFSET;
      } else if revealed {
        offset := if OPEN_OFFSET + diff > 0.0 then OPEN_OFFSET + diff else 0.0;
      }
    }

    /** `handleTouchEnd`. */
    method TouchEnd()
      requires Valid()
      modifies this
      ensures Valid()
      ensures (offset, revealed) == Release(old(offset))
      ensures startX == old(startX) && currentX == old(currentX) && removals == old(removals)
    {
      if offset >= THRESHOLD {
        revealed := true;
        offset := OPEN_OFFSET;
      } else {
        revealed := false;
        offset := 0.0;
      }
    }

    /** `handleRemove`: shut the row and call `onRemove` once. */
    method Remove()
      requires Valid()
      modifies this
      ensures Valid()
      ensures offset == 0.0 && !revealed && removals == old(removals) + 1
      ensures startX == old(startX) && currentX == old(currentX)
    {
      offset := 0.0;
      revealed := false;
      removals := removals + 1;
    }
  }
}
