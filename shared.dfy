/**
  Helpers shared by client and server (src/shared.rs): the fixed physics
  step, the fixed-step accumulator drain of both main loops, the vector
  conversion between the two math libraries, and `assume_one`.
 */
module Shared {
  import opened PhysicsObjects

  /** Seconds of simulated time per physics step. */
  const PHYSICS_STEP: real := 1.0 / 60.0

  lemma PhysicsStepPositive()
    ensures 0.0 < PHYSICS_STEP < 1.0
  {
  }

  /**
    `while acc >= PHYSICS_STEP { physics step; acc -= PHYSICS_STEP }`:
    returns the remaining time and how many physics steps were run. The
    steps themselves belong to the physics engine and are not modelled.
   */
  method Drain(acc: real) returns (rest: real, steps: nat)
    ensures rest == acc - steps as real * PHYSICS_STEP
    ensures rest < PHYSICS_STEP
    ensures acc < PHYSICS_STEP ==> steps == 0 && rest == acc
    ensures acc >= 0.0 ==> 0.0 <= rest && steps == (acc / PHYSICS_STEP).Floor
  {
    rest, steps := acc, 0;
    while rest >= PHYSICS_STEP
      invariant rest == acc - steps as real * PHYSICS_STEP
      invariant steps > 0 ==> rest >= 0.0
      invariant acc < PHYSICS_STEP ==> steps == 0
      decreases (rest * 60.0).Floor
    {
      rest := rest - PHYSICS_STEP;
      steps := steps + 1;
    }
    if acc >= 0.0 {
      assert acc < PHYSICS_STEP ==> steps == 0 && rest == acc;
      assert 0.0 <= rest;
      DrainCount(acc, rest, steps);
    }
  }

  /** The number of whole steps in `acc` is fixed by a remainder in [0, PHYSICS_STEP). */
  lemma DrainCount(acc: real, rest: real, steps: nat)
    requires rest == acc - steps as real * PHYSICS_STEP
    requires 0.0 <= rest < PHYSICS_STEP
    ensures steps == (acc / PHYSICS_STEP).Floor
  {
    var q := acc / PHYSICS_STEP;
    assert q == acc * 60.0;
    assert steps as real <= q < steps as real + 1.0;
  }

  // ---------------------------------------------------------------------
  // Vector conversion between glam's `Vec3` and nalgebra's `Vector3<f32>`

  /** nalgebra's 3-vector. */
  datatype Vector3 = Vector3(x: real, y: real, z: real)

  function ConvVec1(v: Vec3): (r: Vector3)
    ensures r.x == v.x && r.y == v.y && r.z == v.z
  {
    Vector3(v.x, v.y, v.z)
  }

  function ConvVec2(v: Vector3): (r: Vec3)
    ensures r.x == v.x && r.y == v.y && r.z == v.z
  {
    Vec3(v.x, v.y, v.z)
  }

  /** The two conversions are inverse to each other. */
  lemma ConvRoundTrip(v: Vec3, w: Vector3)
    ensures ConvVec2(ConvVec1(v)) == v
    ensures ConvVec1(ConvVec2(w)) == w
  {
  }

  // ---------------------------------------------------------------------
  // assume_one

  /**
    Takes the first item of an iterator that should hold exactly one.
    An empty iterator makes the program panic, hence the precondition;
    `extra` is whether a second item was found, for which the source only
    prints a warning.
   */
  method AssumeOne<T>(items: seq<T>) returns (first: T, extra: bool)
    requires |items| > 0
    ensures first == items[0]
    ensures extra <==> |items| > 1
  {
    var rest := items;
    first, rest := rest[0], rest[1..];
    extra := rest != [];
  }
}
