/**
 * The swipeable card (src/components/SwipeableCard.jsx): at the end of a
 * horizontal drag, the drag's offset and velocity decide whether the card
 * was swiped right, swiped left, or neither; the card then springs back.
 * Offsets are in pixels and velocities in pixels per second, as exact reals.
 */
module SwipeableCard {
  import opened Wrappers

  /** Offset beyond which a drag counts as a swipe. */
  const OffsetThreshold: real := 100.0

  /** Velocity beyond which a drag counts as a swipe, however short. */
  const VelocityThreshold: real := 500.0

  datatype Swipe = SwipeRight | SwipeLeft | NoSwipe

  /** The card's two optional callbacks. */
  datatype Callback = OnSwipeLeft | OnSwipeRight

  /** The rightward test is made first; the leftward one only when it fails. */
  function ClassifyDrag(offset: real, velocity: real): (r: Swipe)
    ensures r == SwipeLeft ==> !(offset > OffsetThreshold || velocity > VelocityThreshold)
    ensures r != NoSwipe ==>
              (offset < -OffsetThreshold || offset > OffsetThreshold
               || velocity < -VelocityThreshold || velocity > VelocityThreshold)
  {
    if offset > OffsetThreshold || velocity > VelocityThreshold then SwipeRight
    else if offset < -OffsetThreshold || velocity < -VelocityThreshold then SwipeLeft
    else NoSwipe
  }

  /** Both tests would pass: far or fast one way, and far or fast the other. */
  predicate Conflicting(offset: real, velocity: real) {
    && (offset > OffsetThreshold || velocity > VelocityThreshold)
    && (offset < -OffsetThreshold || velocity < -VelocityThreshold)
  }

  function Mirror(s: Swipe): Swipe {
    match s
    case SwipeRight => SwipeLeft
    case SwipeLeft => SwipeRight
    case NoSwipe => NoSwipe
  }

  /** The thresholds are strict: a drag is no swipe exactly when offset and velocity both stay within them. */
  lemma DeadZone(offset: real, velocity: real)
    ensures ClassifyDrag(offset, velocity) == NoSwipe <==>
            -OffsetThreshold <= offset <= OffsetThreshold && -VelocityThreshold <= velocity <= VelocityThreshold
  {
  }

  /** Right wins a conflict, because the left test sits in the else branch. */
  lemma RightWinsConflict(offset: real, velocity: real)
    requires Conflicting(offset, velocity)
    ensures ClassifyDrag(offset, velocity) == SwipeRight
  {
  }

  /** The classification is mirror-symmetric exactly for the drags that are not conflicting. */
  lemma MirrorSymmetricIffNoConflict(offset: real, velocity: real)
    ensures ClassifyDrag(-offset, -velocity) == Mirror(ClassifyDrag(offset, velocity)) <==>
            !Conflicting(offset, velocity)
  {
  }

  /** Dragging further or faster to the right never turns a right swipe into something else. */
  lemma RightSwipeMonotone(offset: real, velocity: real, offset': real, velocity': real)
    requires ClassifyDrag(offset, velocity) == SwipeRight
    requires offset <= offset' && velocity <= velocity'
    ensures ClassifyDrag(offset', velocity') == SwipeRight
  {
  }

  /** The card's state: the horizontal motion value `x` and which callbacks its parent passed. */
  class Card {
    var x: real
    const hasOnSwipeLeft: bool
    const hasOnSwipeRight: bool

    /** A card at rest, with the callbacks its parent passed. */
    constructor (hasOnSwipeLeft: bool, hasOnSwipeRight: bool)
      ensures x == 0.0
      ensures this.hasOnSwipeLeft == hasOnSwipeLeft && this.hasOnSwipeRight == hasOnSwipeRight
    {
      x := 0.0;
      this.hasOnSwipeLeft := hasOnSwipeLeft;
      this.hasOnSwipeRight := hasOnSwipeRight;
    }

    /**
     * During a drag the animation library sets `x`; the elastic pull back
     * towards 0 is its business, so the model takes the position as given.
     */
    method Drag(position: real)
      modifies this`x
      ensures x == position
    {
      x := position;
    }

    /**
     * handleDragEnd: calls the callback for the swipe's direction when the
     * parent passed one (at most one callback per drag), and in every case
     * puts the card back at 0.
     */
    method HandleDragEnd(offset: real, velocity: real) returns (invoked: Option<Callback>)
      modifies this`x
      ensures x == 0.0
      ensures invoked == Some(OnSwipeRight) <==> ClassifyDrag(offset, velocity) == SwipeRight && hasOnSwipeRight
      ensures invoked == Some(OnSwipeLeft) <==> ClassifyDrag(offset, velocity) == SwipeLeft && hasOnSwipeLeft
      ensures invoked == None <==> !(ClassifyDrag(offset, velocity) == SwipeRight && hasOnSwipeRight)
                                   && !(ClassifyDrag(offset, velocity) == SwipeLeft && hasOnSwipeLeft)
    {
      invoked := None;
      if offset > OffsetThreshold || velocity > VelocityThreshold {
        if hasOnSwipeRight {
          invoked := Some(OnSwipeRight);
        }
      } else if offset < -OffsetThreshold || velocity < -VelocityThreshold {
        if hasOnSwipeLeft {
          invoked := Some(OnSwipeLeft);
        }
      }
      x := 0.0;
    }
  }
}
