/** Value-level view of one tracked spacecraft: its identifier, position and
    velocity, the forward-Euler step that moves it, and the squared distance
    that the proximity scan compares against the collision threshold. */
module Kinematics {

  /** A point or a vector in 3D space. */
  datatype Vec3 = Vec3(x: real, y: real, z: real)

  /** The state a spacecraft carries: identifier, position, velocity. */
  datatype CraftState = CraftState(id: string, pos: Vec3, vel: Vec3)

  /** One forward-Euler step of length `dt` on every axis. `dt` may be zero or
      negative; nothing but the position moves. */
  function Advance(s: CraftState, dt: real): (r: CraftState)
    ensures r.id == s.id && r.vel == s.vel
    ensures dt == 0.0 ==> r == s
  {
    s.(pos := Vec3(s.pos.x + s.vel.x * dt, s.pos.y + s.vel.y * dt, s.pos.z + s.vel.z * dt))
  }

  /** `n` successive steps of length `dt`: what a craft that occurs `n` times
      in a list receives when every entry of the list is stepped once. */
  function AdvanceTimes(s: CraftState, dt: real, n: nat): (r: CraftState)
    ensures r.id == s.id && r.vel == s.vel
  {
    if n == 0 then s else Advance(AdvanceTimes(s, dt, n - 1), dt)
  }

  /** Square of the Euclidean distance between two positions. */
  function SquaredDistance(a: Vec3, b: Vec3): (d2: real)
    ensures d2 >= 0.0
  {
    var dx, dy, dz := a.x - b.x, a.y - b.y, a.z - b.z;
    SquareNonNegative(dx);
    SquareNonNegative(dy);
    SquareNonNegative(dz);
    dx * dx + dy * dy + dz * dz
  }

  /** Whether a pair whose squared distance is `d2` is closer than `threshold`.
      The distance itself is the non-negative square root of `d2`. */
  predicate WithinThreshold(d2: real, threshold: real)
  {
    threshold > 0.0 && d2 < threshold * threshold
  }

  lemma ProductPositive(a: real, b: real)
    requires a > 0.0 && b > 0.0
    ensures a * b > 0.0
  {
  }

  lemma SquareNonNegative(v: real)
    ensures v * v >= 0.0
  {
    if v > 0.0 {
      ProductPositive(v, v);
    } else if v < 0.0 {
      ProductPositive(-v, -v);
    }
  }

  /** One axis of two successive steps: `p + v * a + v * b == p + v * (a + b)`. */
  lemma AxisCompose(p: real, v: real, a: real, b: real)
    ensures (p + v * a) + v * b == p + v * (a + b)
  {
    var va, vb, vab := v * a, v * b, v * (a + b);
    assert vab == va + vb;
  }

  /** Two successive steps give the same position as one step of the summed length. */
  lemma AdvanceCompose(s: CraftState, a: real, b: real)
    ensures Advance(Advance(s, a), b) == Advance(s, a + b)
  {
    var p, v := s.pos, s.vel;
    var mid := Advance(s, a);
    assert mid.pos == Vec3(p.x + v.x * a, p.y + v.y * a, p.z + v.z * a) && mid.vel == v;
    var twice := Advance(mid, b);
    assert twice.pos == Vec3(mid.pos.x + v.x * b, mid.pos.y + v.y * b, mid.pos.z + v.z * b);
    AxisCompose(p.x, v.x, a, b);
    AxisCompose(p.y, v.y, a, b);
    AxisCompose(p.z, v.z, a, b);
  }

  /** A step of `-dt` rewinds a step of `dt`. */
  lemma AdvanceRewind(s: CraftState, dt: real)
    ensures Advance(Advance(s, dt), -dt) == s
  {
    AdvanceCompose(s, dt, -dt);
  }

  /** One more step of `dt` after a step of `dt * k` is a step of `dt * next`,
      where `next` is `k + 1`. */
  lemma AdvanceOneMore(s: CraftState, dt: real, k: real, next: real)
    requires next == k + 1.0
    ensures Advance(Advance(s, dt * k), dt) == Advance(s, dt * next)
  {
    var scaled, longer := dt * k, dt * next;
    assert scaled + dt == longer;
    AdvanceCompose(s, scaled, dt);
  }

  /** `n` steps of length `dt` reach the same position as one step of length
      `n * dt`. */
  lemma {:induction false} AdvanceTimesScaled(s: CraftState, dt: real, n: nat)
    ensures AdvanceTimes(s, dt, n) == Advance(s, dt * n as real)
  {
    if n > 0 {
      var prev := AdvanceTimes(s, dt, n - 1);
      assert AdvanceTimes(s, dt, n) == Advance(prev, dt);
      AdvanceTimesScaled(s, dt, n - 1);
      AdvanceOneMore(s, dt, (n - 1) as real, n as real);
    }
  }

  /** A zero step changes nothing, however many times it is repeated. */
  lemma AdvanceTimesZero(s: CraftState, n: nat)
    ensures AdvanceTimes(s, 0.0, n) == s
  {
    AdvanceTimesScaled(s, 0.0, n);
  }

  /** The distance is symmetric in its two arguments. */
  lemma SquaredDistanceSymmetric(a: Vec3, b: Vec3)
    ensures SquaredDistance(a, b) == SquaredDistance(b, a)
  {
    assert (a.x - b.x) * (a.x - b.x) == (b.x - a.x) * (b.x - a.x);
    assert (a.y - b.y) * (a.y - b.y) == (b.y - a.y) * (b.y - a.y);
    assert (a.z - b.z) * (a.z - b.z) == (b.z - a.z) * (b.z - a.z);
  }

  /** A craft is at distance zero from itself and from any craft at the same position. */
  lemma SquaredDistanceSame(a: Vec3, b: Vec3)
    requires a == b
    ensures SquaredDistance(a, b) == 0.0
  {
    assert a.x - b.x == 0.0 && a.y - b.y == 0.0 && a.z - b.z == 0.0;
  }

  /** Comparing the true (square-rooted) distance `d` against the threshold is
      the same as `WithinThreshold` on its square: a negative or zero
      threshold is never beaten, and for a positive threshold squaring keeps
      the order. */
  lemma DistanceBelowThreshold(d: real, d2: real, threshold: real)
    requires d >= 0.0 && d * d == d2
    ensures d < threshold <==> WithinThreshold(d2, threshold)
  {
    if threshold > 0.0 {
      var below, mixed, above := d * d, d * threshold, threshold * threshold;
      if d < threshold {
        assert below <= mixed < above;
      } else {
        assert below >= mixed >= above;
      }
    }
  }
}
