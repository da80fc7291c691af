/** The direction the task graph is laid out in: left to right (the default) or top to
    bottom. */
module LayoutStore {

  datatype LayoutDirection = TB | LR

  /** The other direction. */
  function Flipped(d: LayoutDirection): (r: LayoutDirection)
    ensures r != d
  {
    if d == TB then LR else TB
  }

  /** Flipping twice is the identity, and flipping is onto: every direction is the flip of
      exactly one direction. */
  lemma FlipInvolution(d: LayoutDirection)
    ensures Flipped(Flipped(d)) == d
    ensures forall e :: Flipped(e) == d <==> e == Flipped(d)
  {
  }

  class DirectionStore {
    var direction: LayoutDirection

    constructor()
      ensures direction == LR
    {
      direction := LR;
    }

    /** Stores exactly the given direction. */
    method SetDirection(dir: LayoutDirection)
      modifies this
      ensures direction == dir
    {
      direction := dir;
    }

    /** Swaps TB and LR. */
    method Toggle()
      modifies this
      ensures direction == Flipped(old(direction))
    {
      direction := if direction == TB then LR else TB;
    }
  }
}
