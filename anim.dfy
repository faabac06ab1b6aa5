/** The animation thread: a disk of radius 4 bouncing horizontally on the 240-pixel-wide
    display, moved 2 pixels every 32 ms. */
module Anim {

  /** Width of the display in its vertical orientation. */
  const ScreenWidth: int := 240
  /** Radius of the disk drawn by `tft_fillCircle`. */
  const Radius: int := 4
  /** The velocity is reversed once the centre passes below this... */
  const LeftTurn: int := 5
  /** ...or above this. */
  const RightTurn: int := 235

  /** The position and velocity of the disk (`xc`, `vxc`). */
  class Bounce {
    var xc: int
    var vxc: int

    /** The reachable states: even positions in [4, 236], speed 2 in either direction,
        and never heading into a wall it has already passed. */
    predicate Valid()
      reads this
    {
      xc % 2 == 0 && 4 <= xc <= 236 && (vxc == 2 || vxc == -2)
      && (vxc == 2 ==> xc <= 234) && (vxc == -2 ==> xc >= 6)
    }

    /** `static int xc=10, vxc=2`. */
    constructor ()
      ensures Valid() && xc == 10 && vxc == 2
    {
      xc := 10;
      vxc := 2;
    }

    /** One activation after the 32 ms yield: move, then bounce off a wall. */
    method Step()
      requires Valid()
      modifies this
      ensures Valid()
      ensures xc == old(xc) + old(vxc)
      ensures vxc == (if xc < LeftTurn || xc > RightTurn then -old(vxc) else old(vxc))
      ensures 0 <= xc - Radius && xc + Radius <= ScreenWidth
    {
      xc := xc + vxc;
      if xc < LeftTurn || xc > RightTurn {
        vxc := -vxc;
      }
    }
  }
}
