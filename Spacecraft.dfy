/** One tracked spacecraft as a mutable object: the registry holds references
    to these, and the integration step moves them in place. */
module Crafts {
  import opened Kinematics

  class Spacecraft {
    var id: string
    var x: real
    var y: real
    var z: real
    var vx: real
    var vy: real
    var vz: real

    /** The craft's current state as a value. */
    function State(): CraftState
      reads this
    {
      CraftState(id, Vec3(x, y, z), Vec3(vx, vy, vz))
    }

    /** Stores the identifier, position and velocity verbatim; nothing is
        checked. Position and velocity default to zero. */
    constructor (spacecraftId: string, x: real := 0.0, y: real := 0.0, z: real := 0.0,
                 vx: real := 0.0, vy: real := 0.0, vz: real := 0.0)
      ensures State() == CraftState(spacecraftId, Vec3(x, y, z), Vec3(vx, vy, vz))
    {
      this.id := spacecraftId;
      this.x, this.y, this.z := x, y, z;
      this.vx, this.vy, this.vz := vx, vy, vz;
    }

    /** Moves the craft one forward-Euler step of length `timeStep`; the
        identifier and velocity stay as they were. */
    method UpdatePosition(timeStep: real)
      modifies this
      ensures State() == Advance(old(State()), timeStep)
    {
      x := x + vx * timeStep;
      y := y + vy * timeStep;
      z := z + vz * timeStep;
    }

    /** The square of the distance from this craft to `other`. */
    function SquaredDistanceTo(other: Spacecraft): (d2: real)
      reads this, other
      ensures d2 >= 0.0
      ensures d2 == SquaredDistance(State().pos, other.State().pos)
    {
      SquaredDistance(Vec3(x, y, z), Vec3(other.x, other.y, other.z))
    }
  }
}
