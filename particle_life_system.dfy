/** One simulation step (Assets/Scripts/ParticleLifeSystem.cs): the
    parallel-for job that, for one particle, sums a constant-magnitude push
    from every particle within range of the old snapshot, then moves the
    particle, applies friction and enforces the world bounds axis by axis;
    and the choice of the step's time.

    Positions and velocities are reals. The square root is a parameter
    `sqrt`, about which only the lemmas that need it assume anything. The
    parallel job is run as a sequential loop over the indices against one
    immutable snapshot. */
module ParticleLifeSystem {
  import opened Common

  /** The job's `eps`, set just before scheduling. */
  const Eps: real := 0.000001

  /** World corners, extent, wrap flags and bounce of a job. */
  datatype Bounds = Bounds(
    lowerBound: Float3,
    upperBound: Float3,
    dim: Float3,
    wrapX: bool,
    wrapY: bool,
    wrapZ: bool,
    bounce: real)

  function Wraps(b: Bounds, axis: Axis): bool {
    match axis
    case X => b.wrapX
    case Y => b.wrapY
    case Z => b.wrapZ
  }

  /** The fields of the parallel-for job. */
  datatype Job = Job(
    deltaTime: real,
    friction: real,
    bounds: Bounds,
    halfDim: Float3,
    eps: real,
    strength: real,
    radius: real)

  /** What the system reads from its configuration before scheduling. */
  datatype SystemConfig = SystemConfig(
    minSimulationStepRate: real,
    friction: real,
    lowerBound: Float3,
    upperBound: Float3,
    wrapX: bool,
    wrapY: bool,
    wrapZ: bool,
    bounce: real,
    strength: real,
    radius: real)

  /** The relations between a job's fields that the scheduling code sets up. */
  ghost predicate WellFormed(job: Job) {
    && job.bounds.dim == Sub(job.bounds.upperBound, job.bounds.lowerBound)
    && job.halfDim == Scale(job.bounds.dim, 0.5)
    && job.eps > 0.0
  }

  /** Every component of `p` lies between the world corners. */
  ghost predicate InWorld(b: Bounds, p: Float3) {
    forall axis: Axis :: Get(b.lowerBound, axis) <= Get(p, axis) <= Get(b.upperBound, axis)
  }

  // ---------------------------------------------------------------------
  // Time step

  /** The step's time: the frame time, capped by the minimum step rate
      when that rate is not (nearly) zero. */
  function StepDeltaTime(minSimulationStepRate: real, frameDt: real): (dt: real)
    ensures dt <= frameDt
    ensures Abs(minSimulationStepRate) > Eps ==>
              dt <= 1.0 / Abs(minSimulationStepRate)
              && (dt == frameDt || dt == 1.0 / Abs(minSimulationStepRate))
    ensures Abs(minSimulationStepRate) <= Eps ==> dt == frameDt
  {
    if Abs(minSimulationStepRate) > Eps then
      Min(1.0 / Abs(minSimulationStepRate), frameDt)
    else
      frameDt
  }

  /** The job as the update fills it in from the configuration. */
  function ConfigureJob(cfg: SystemConfig, frameDt: real): (job: Job)
    ensures WellFormed(job)
    ensures job.deltaTime == StepDeltaTime(cfg.minSimulationStepRate, frameDt) && job.deltaTime <= frameDt
    ensures job.bounds.lowerBound == cfg.lowerBound && job.bounds.upperBound == cfg.upperBound
    ensures job.friction == cfg.friction && job.bounds.bounce == cfg.bounce
    ensures job.bounds.wrapX == cfg.wrapX && job.bounds.wrapY == cfg.wrapY && job.bounds.wrapZ == cfg.wrapZ
    ensures job.strength == cfg.strength && job.radius == cfg.radius
  {
    var dim := Sub(cfg.upperBound, cfg.lowerBound);
    Job(StepDeltaTime(cfg.minSimulationStepRate, frameDt),
        cfg.friction,
        Bounds(cfg.lowerBound, cfg.upperBound, dim, cfg.wrapX, cfg.wrapY, cfg.wrapZ, cfg.bounce),
        Scale(dim, 0.5),
        Eps,
        cfg.strength,
        cfg.radius)
  }

  // ---------------------------------------------------------------------
  // Folding by repeated addition and subtraction

  lemma StepShrinksBy1(gap: real, dim: real)
    requires dim > 0.0
    ensures (gap - dim) / dim == gap / dim - 1.0
  {
    calc {
      (gap - dim) / dim;
      gap / dim - dim / dim;
    }
  }

  /** `while (v < lo) v += dim;` */
  function RaiseTo(v: real, lo: real, dim: real): real
    requires dim > 0.0
    decreases (lo - v) / dim
  {
    if v < lo then
      StepShrinksBy1(lo - v, dim);
      RaiseTo(v + dim, lo, dim)
    else v
  }

  /** `while (v > hi) v -= dim;` */
  function LowerTo(v: real, hi: real, dim: real): real
    requires dim > 0.0
    decreases (v - hi) / dim
  {
    if v > hi then
      StepShrinksBy1(v - hi, dim);
      LowerTo(v - dim, hi, dim)
    else v
  }

  /** The two loops one after the other, as the job runs them on a
      displacement component and on a position component. */
  function Fold(v: real, lo: real, hi: real, dim: real): real
    requires dim > 0.0
  {
    LowerTo(RaiseTo(v, lo, dim), hi, dim)
  }

  lemma {:induction false} RaiseToShift(v: real, lo: real, dim: real) returns (k: nat)
    requires dim > 0.0
    ensures RaiseTo(v, lo, dim) == v + k as real * dim
    ensures lo <= RaiseTo(v, lo, dim)
    ensures k > 0 ==> RaiseTo(v, lo, dim) - dim < lo
    decreases (lo - v) / dim
  {
    if v < lo {
      StepShrinksBy1(lo - v, dim);
      var j := RaiseToShift(v + dim, lo, dim);
      k := j + 1;
      if j == 0 {
        assert RaiseTo(v, lo, dim) == v + dim;
      }
    } else {
      k := 0;
    }
  }

  lemma {:induction false} LowerToShift(v: real, hi: real, dim: real) returns (k: nat)
    requires dim > 0.0
    ensures LowerTo(v, hi, dim) == v - k as real * dim
    ensures LowerTo(v, hi, dim) <= hi
    ensures k > 0 ==> LowerTo(v, hi, dim) + dim > hi
    decreases (v - hi) / dim
  {
    if v > hi {
      StepShrinksBy1(v - hi, dim);
      var j := LowerToShift(v - dim, hi, dim);
      k := j + 1;
      if j == 0 {
        assert LowerTo(v, hi, dim) == v - dim;
      }
    } else {
      k := 0;
    }
  }

  /** When the interval is at least one period long, folding lands inside
      it, moves the value by a whole number of periods, and leaves a value
      that is already inside untouched. */
  lemma FoldInRange(v: real, lo: real, hi: real, dim: real) returns (k: int)
    requires 0.0 < dim <= hi - lo
    ensures lo <= Fold(v, lo, hi, dim) <= hi
    ensures Fold(v, lo, hi, dim) == v + k as real * dim
    ensures lo <= v <= hi ==> Fold(v, lo, hi, dim) == v
  {
    var up := RaiseToShift(v, lo, dim);
    var down := LowerToShift(RaiseTo(v, lo, dim), hi, dim);
    k := up as int - down as int;
    if lo <= v <= hi {
      assert RaiseTo(v, lo, dim) == v;
      assert LowerTo(v, hi, dim) == v;
    }
  }

  /** The job's loop pair on one value. */
  method FoldLoop(v0: real, lo: real, hi: real, dim: real) returns (v: real)
    requires dim > 0.0
    ensures v == Fold(v0, lo, hi, dim)
  {
    v := v0;
    while v < lo
      invariant RaiseTo(v, lo, dim) == RaiseTo(v0, lo, dim)
      decreases (lo - v) / dim
    {
      StepShrinksBy1(lo - v, dim);
      v := v + dim;
    }
    while v > hi
      invariant LowerTo(v, hi, dim) == Fold(v0, lo, hi, dim)
      decreases (v - hi) / dim
    {
      StepShrinksBy1(v - hi, dim);
      v := v - dim;
    }
  }

  // ---------------------------------------------------------------------
  // World bounds, one axis at a time

  /** The boundary policy on one axis: fold into the world when the axis
      wraps and has positive extent; otherwise clamp to the bound that was
      crossed and reflect that velocity component, scaled by the bounce. */
  function AxisBound(b: Bounds, axis: Axis, pos: Float3, vel: Float3): (r: (Float3, Float3))
    ensures forall other: Axis :: other != axis ==>
              Get(r.0, other) == Get(pos, other) && Get(r.1, other) == Get(vel, other)
  {
    var lo, hi, d := Get(b.lowerBound, axis), Get(b.upperBound, axis), Get(b.dim, axis);
    var x := Get(pos, axis);
    if Wraps(b, axis) && d > 0.0 then
      (With(pos, axis, Fold(x, lo, hi, d)), vel)
    else if x < lo then
      (With(pos, axis, lo), With(vel, axis, Get(vel, axis) * -b.bounce))
    else if x > hi then
      (With(pos, axis, hi), With(vel, axis, Get(vel, axis) * -b.bounce))
    else
      (pos, vel)
  }

  /** On a wrapping axis the position is folded into the world by whole
      extents and the velocity is left alone. */
  lemma AxisBoundWrapped(b: Bounds, axis: Axis, pos: Float3, vel: Float3) returns (k: int)
    requires Wraps(b, axis) && Get(b.dim, axis) > 0.0
    requires Get(b.dim, axis) == Get(b.upperBound, axis) - Get(b.lowerBound, axis)
    ensures Get(b.lowerBound, axis) <= Get(AxisBound(b, axis, pos, vel).0, axis) <= Get(b.upperBound, axis)
    ensures Get(AxisBound(b, axis, pos, vel).0, axis) == Get(pos, axis) + k as real * Get(b.dim, axis)
    ensures AxisBound(b, axis, pos, vel).1 == vel
  {
    k := FoldInRange(Get(pos, axis), Get(b.lowerBound, axis), Get(b.upperBound, axis), Get(b.dim, axis));
  }

  /** On any other axis a position below the world is clamped to the lower
      bound, one above it to the upper bound, each reflecting the velocity
      component by `-bounce`; a position inside is left as it is. */
  lemma AxisBoundClamped(b: Bounds, axis: Axis, pos: Float3, vel: Float3)
    requires !(Wraps(b, axis) && Get(b.dim, axis) > 0.0)
    ensures var (p, v) := AxisBound(b, axis, pos, vel);
      && (Get(pos, axis) < Get(b.lowerBound, axis) ==>
            Get(p, axis) == Get(b.lowerBound, axis) && Get(v, axis) == -b.bounce * Get(vel, axis))
      && (Get(b.lowerBound, axis) <= Get(pos, axis) && Get(pos, axis) > Get(b.upperBound, axis) ==>
            Get(p, axis) == Get(b.upperBound, axis) && Get(v, axis) == -b.bounce * Get(vel, axis))
      && (Get(b.lowerBound, axis) <= Get(pos, axis) <= Get(b.upperBound, axis) ==> p == pos && v == vel)
  {
  }

  /** With the extent equal to the corners' difference and the corners in
      order, the policy leaves that coordinate inside the world, whichever
      branch it takes. */
  lemma AxisBoundInWorld(b: Bounds, axis: Axis, pos: Float3, vel: Float3)
    requires Get(b.dim, axis) == Get(b.upperBound, axis) - Get(b.lowerBound, axis)
    requires Get(b.lowerBound, axis) <= Get(b.upperBound, axis)
    ensures Get(b.lowerBound, axis) <= Get(AxisBound(b, axis, pos, vel).0, axis) <= Get(b.upperBound, axis)
  {
    if Wraps(b, axis) && Get(b.dim, axis) > 0.0 {
      var _ := AxisBoundWrapped(b, axis, pos, vel);
    }
  }

  /** The x, then y, then z regions of the job. */
  function ApplyBounds(b: Bounds, pos: Float3, vel: Float3): (Float3, Float3) {
    var (px, vx) := AxisBound(b, X, pos, vel);
    var (py, vy) := AxisBound(b, Y, px, vx);
    AxisBound(b, Z, py, vy)
  }

  /** One region of the job, on local copies of the position and velocity. */
  method BoundAxis(b: Bounds, axis: Axis, pos: Float3, vel: Float3) returns (p: Float3, v: Float3)
    ensures p == AxisBound(b, axis, pos, vel).0 && v == AxisBound(b, axis, pos, vel).1
  {
    p, v := pos, vel;
    var lo, hi, d := Get(b.lowerBound, axis), Get(b.upperBound, axis), Get(b.dim, axis);
    if Wraps(b, axis) && d > 0.0 {
      var folded := FoldLoop(Get(p, axis), lo, hi, d);
      p := With(p, axis, folded);
    } else {
      if Get(p, axis) < lo {
        p := With(p, axis, lo);
        v := With(v, axis, Get(v, axis) * -b.bounce);
      } else if Get(p, axis) > hi {
        p := With(p, axis, hi);
        v := With(v, axis, Get(v, axis) * -b.bounce);
      }
    }
  }

  // ---------------------------------------------------------------------
  // Movement, friction and bounds

  /** Move by the velocity over the step, scale the velocity by the
      friction factor, then enforce the bounds. */
  function Integrate(dt: real, friction: real, b: Bounds, pos: Float3, vel: Float3): (Float3, Float3) {
    ApplyBounds(b, Add(pos, Scale(vel, dt)), Scale(vel, friction))
  }

  /** The movement, friction and bounds regions of both jobs. */
  method MoveAndBound(dt: real, friction: real, b: Bounds, pos: Float3, vel: Float3)
    returns (pos': Float3, vel': Float3)
    ensures pos' == Integrate(dt, friction, b, pos, vel).0 && vel' == Integrate(dt, friction, b, pos, vel).1
  {
    pos' := Add(pos, Scale(vel, dt));
    vel' := Scale(vel, friction);
    pos', vel' := BoundAxis(b, X, pos', vel');
    pos', vel' := BoundAxis(b, Y, pos', vel');
    pos', vel' := BoundAxis(b, Z, pos', vel');
  }

  /** After a step the particle is inside the world on every axis, whatever
      mix of wrapping and bouncing axes the world has. */
  lemma IntegrateInWorld(dt: real, friction: real, b: Bounds, pos: Float3, vel: Float3)
    requires b.dim == Sub(b.upperBound, b.lowerBound)
    requires forall axis: Axis :: Get(b.lowerBound, axis) <= Get(b.upperBound, axis)
    ensures InWorld(b, Integrate(dt, friction, b, pos, vel).0)
  {
    var moved, slowed := Add(pos, Scale(vel, dt)), Scale(vel, friction);
    var (px, vx) := AxisBound(b, X, moved, slowed);
    var (py, vy) := AxisBound(b, Y, px, vx);
    var (pz, vz) := AxisBound(b, Z, py, vy);
    assert Get(b.dim, X) == Get(b.upperBound, X) - Get(b.lowerBound, X);
    assert Get(b.dim, Y) == Get(b.upperBound, Y) - Get(b.lowerBound, Y);
    assert Get(b.dim, Z) == Get(b.upperBound, Z) - Get(b.lowerBound, Z);
    AxisBoundInWorld(b, X, moved, slowed);
    AxisBoundInWorld(b, Y, px, vx);
    AxisBoundInWorld(b, Z, py, vy);
    assert Get(pz, X) == Get(px, X);
    assert Get(pz, Y) == Get(py, Y);
    forall axis: Axis
      ensures Get(b.lowerBound, axis) <= Get(pz, axis) <= Get(b.upperBound, axis)
    {
    }
  }

  /** A particle whose move keeps it inside the world is neither folded nor
      clamped: it ends at `pos + vel*dt` with velocity `vel*friction`. */
  lemma IntegrateInterior(dt: real, friction: real, b: Bounds, pos: Float3, vel: Float3)
    requires b.dim == Sub(b.upperBound, b.lowerBound)
    requires InWorld(b, Add(pos, Scale(vel, dt)))
    ensures Integrate(dt, friction, b, pos, vel) == (Add(pos, Scale(vel, dt)), Scale(vel, friction))
  {
    var moved, slowed := Add(pos, Scale(vel, dt)), Scale(vel, friction);
    forall axis: Axis
      ensures AxisBound(b, axis, moved, slowed) == (moved, slowed)
    {
      assert Get(b.lowerBound, axis) <= Get(moved, axis) <= Get(b.upperBound, axis);
      if Wraps(b, axis) && Get(b.dim, axis) > 0.0 {
        assert Get(b.dim, axis) == Get(b.upperBound, axis) - Get(b.lowerBound, axis);
        var _ := FoldInRange(Get(moved, axis), Get(b.lowerBound, axis), Get(b.upperBound, axis), Get(b.dim, axis));
        assert With(moved, axis, Get(moved, axis)) == moved;
      }
    }
  }

  // ---------------------------------------------------------------------
  // The pairwise push

  /** One component of the displacement, folded on a wrapping axis. */
  function FoldComponent(job: Job, axis: Axis, d: real): real {
    var b := job.bounds;
    if Wraps(b, axis) && Get(b.dim, axis) > 0.0 then
      Fold(d, -Get(job.halfDim, axis), Get(job.halfDim, axis), Get(b.dim, axis))
    else d
  }

  /** The displacement from `me` to `other`, folded on the wrapping axes. */
  function Displacement(job: Job, me: Float3, other: Float3): Float3 {
    var diff := Sub(other, me);
    Float3(FoldComponent(job, X, diff.x), FoldComponent(job, Y, diff.y), FoldComponent(job, Z, diff.z))
  }

  /** On a wrapping axis the folded displacement is at most half the
      world's extent either way. */
  lemma DisplacementFolded(job: Job, me: Float3, other: Float3, axis: Axis)
    requires WellFormed(job)
    requires Wraps(job.bounds, axis) && Get(job.bounds.dim, axis) > 0.0
    ensures -Get(job.halfDim, axis) <= Get(Displacement(job, me, other), axis) <= Get(job.halfDim, axis)
  {
    var half, d := Get(job.halfDim, axis), Get(job.bounds.dim, axis);
    assert half == d * 0.5 by {
      match axis
      case X =>
      case Y =>
      case Z =>
    }
    var _ := FoldInRange(Get(Sub(other, me), axis), -half, half, d);
    match axis
    case X =>
    case Y =>
    case Z =>
  }

  /** The velocity change that `other` causes on `me`, or `None` when the
      pair is skipped: farther than ten radii, or closer than `eps`. The
      push has magnitude `strength` along the unit vector away from
      `other`, over the step's time. */
  function PairPush(job: Job, me: Float3, other: Float3, sqrt: real -> real): Option<Float3>
    requires job.eps > 0.0
  {
    var diff := Displacement(job, me, other);
    var r2 := Dot(diff, diff);
    var rMax := job.radius * 10.0;
    if r2 > rMax * rMax then None
    else
      var r := sqrt(r2);
      if r < job.eps then None
      else Some(Scale(Scale(Div(diff, r), job.deltaTime), -job.strength))
  }

  /** A pair beyond ten radii, or one whose distance is below `eps`, adds
      nothing; every other pair adds a push. */
  lemma PairPushSkips(job: Job, me: Float3, other: Float3, sqrt: real -> real)
    requires job.eps > 0.0
    ensures var diff := Displacement(job, me, other);
      PairPush(job, me, other, sqrt).None?
      <==> (Dot(diff, diff) > (job.radius * 10.0) * (job.radius * 10.0) || sqrt(Dot(diff, diff)) < job.eps)
  {
  }

  /** A particle never pushes itself: its displacement is zero and the
      square root of zero is below `eps`. */
  lemma SelfPairSkipped(job: Job, me: Float3, sqrt: real -> real)
    requires WellFormed(job)
    requires sqrt(0.0) == 0.0
    ensures PairPush(job, me, me, sqrt) == None
  {
    var zero := Sub(me, me);
    assert zero == Float3(0.0, 0.0, 0.0);
    forall axis: Axis
      ensures FoldComponent(job, axis, 0.0) == 0.0
    {
      var b := job.bounds;
      if Wraps(b, axis) && Get(b.dim, axis) > 0.0 {
        var half, d := Get(job.halfDim, axis), Get(b.dim, axis);
        assert half == d * 0.5 by {
          match axis
          case X =>
          case Y =>
          case Z =>
        }
        var _ := FoldInRange(0.0, -half, half, d);
      }
    }
    assert Displacement(job, me, me) == Float3(0.0, 0.0, 0.0);
  }

  lemma DotScaled(a: Float3, c: real)
    ensures Dot(Scale(a, c), Scale(a, c)) == c * c * Dot(a, a)
    ensures Dot(Scale(a, c), a) == c * Dot(a, a)
  {
    assert (a.x * c) * (a.x * c) == c * c * (a.x * a.x);
    assert (a.y * c) * (a.y * c) == c * c * (a.y * a.y);
    assert (a.z * c) * (a.z * c) == c * c * (a.z * a.z);
  }

  /** With an exact square root, a push that is applied has length
      `|deltaTime * strength|` and points away from the other particle: its
      dot product with the displacement is `-deltaTime * strength * r`. */
  lemma PushMagnitude(job: Job, me: Float3, other: Float3, sqrt: real -> real)
    requires job.eps > 0.0
    requires PairPush(job, me, other, sqrt).Some?
    requires var r2 := Dot(Displacement(job, me, other), Displacement(job, me, other));
      sqrt(r2) * sqrt(r2) == r2
    ensures var push := PairPush(job, me, other, sqrt).value;
      var diff := Displacement(job, me, other);
      && Dot(push, push) == (job.deltaTime * job.strength) * (job.deltaTime * job.strength)
      && Dot(push, diff) == -(job.deltaTime * job.strength) * sqrt(Dot(diff, diff))
  {
    var diff := Displacement(job, me, other);
    var r := sqrt(Dot(diff, diff));
    assert r >= job.eps;
    assert PairPush(job, me, other, sqrt).value == Scale(Scale(Div(diff, r), job.deltaTime), -job.strength);
    PushGeometry(diff, r, job.deltaTime, job.strength);
  }

  /** The geometry of one push: `diff / r * dt * -s` for `r` the length of
      `diff`. */
  lemma PushGeometry(diff: Float3, r: real, dt: real, s: real)
    requires r > 0.0 && r * r == Dot(diff, diff)
    ensures var push := Scale(Scale(Div(diff, r), dt), -s);
      && Dot(push, push) == (dt * s) * (dt * s)
      && Dot(push, diff) == -(dt * s) * r
  {
    var k := dt * -s;
    var c := k / r;
    ScaledDirection(diff, r, dt, -s, c);
    DotScaled(diff, c);
    ScalarSquare(c, r, Dot(diff, diff), k);
    NegatedFactor(dt, s, r);
  }

  lemma NegatedFactor(dt: real, s: real, r: real)
    ensures (dt * -s) * (dt * -s) == (dt * s) * (dt * s)
    ensures (dt * -s) * r == -(dt * s) * r
  {
  }

  lemma ScaledDirection(a: Float3, r: real, dt: real, f: real, c: real)
    requires r != 0.0 && c == dt * f / r
    ensures Scale(Scale(Div(a, r), dt), f) == Scale(a, c)
  {
    ScaledComponent(a.x, r, dt, f, c);
    ScaledComponent(a.y, r, dt, f, c);
    ScaledComponent(a.z, r, dt, f, c);
  }

  lemma ScaledComponent(x: real, r: real, dt: real, f: real, c: real)
    requires r != 0.0 && c == dt * f / r
    ensures x / r * dt * f == x * c
  {
    var q := x / r;
    assert q * r == x;
    assert c * r == dt * f;
    assert (q * dt * f) * r == (q * r) * (dt * f);
    assert (x * c) * r == x * (c * r);
    CancelFactor(q * dt * f, x * c, r);
  }

  lemma CancelFactor(a: real, b: real, r: real)
    requires r != 0.0 && a * r == b * r
    ensures a == b
  {
    assert (a - b) * r == 0.0;
  }

  lemma ScalarSquare(c: real, r: real, r2: real, k: real)
    requires r != 0.0 && r * r == r2 && c == k / r
    ensures c * c * r2 == k * k
    ensures c * r2 == k * r
  {
    assert c * r == k;
    calc {
      c * c * r2;
      (c * r) * (c * r);
    }
  }

  /** The velocity of particle `index` after the pairs `0 .. count-1` of the
      snapshot have been visited, in that order. */
  function Accumulated(job: Job, snapshot: seq<Float3>, index: nat, count: nat, vel: Float3, sqrt: real -> real): Float3
    requires job.eps > 0.0
    requires index < |snapshot| && count <= |snapshot|
  {
    if count == 0 then vel
    else
      var before := Accumulated(job, snapshot, index, count - 1, vel, sqrt);
      match PairPush(job, snapshot[index], snapshot[count - 1], sqrt)
      case None => before
      case Some(push) => Add(before, push)
  }

  /** The new translation and particle of `index`: pushes from every
      particle of the snapshot, then move, friction and bounds. */
  function NextState(job: Job, oldTranslations: seq<Float3>, oldParticles: seq<Particle>, index: nat, sqrt: real -> real): (Float3, Particle)
    requires job.eps > 0.0
    requires |oldTranslations| == |oldParticles| && index < |oldTranslations|
  {
    var vel := Accumulated(job, oldTranslations, index, |oldTranslations|, oldParticles[index].vel, sqrt);
    var (pos', vel') := Integrate(job.deltaTime, job.friction, job.bounds, oldTranslations[index], vel);
    (pos', oldParticles[index].(vel := vel'))
  }

  /** The displacement part of the job's pair loop: on each wrapping axis
      the component is folded into half the world's extent. */
  method FoldedDisplacement(job: Job, translation: Float3, otherTranslation: Float3) returns (diff: Float3)
    ensures diff == Displacement(job, translation, otherTranslation)
  {
    var b := job.bounds;
    diff := Sub(otherTranslation, translation);
    if b.wrapX && b.dim.x > 0.0 {
      var d := FoldLoop(diff.x, -job.halfDim.x, job.halfDim.x, b.dim.x);
      diff := diff.(x := d);
    }
    if b.wrapY && b.dim.y > 0.0 {
      var d := FoldLoop(diff.y, -job.halfDim.y, job.halfDim.y, b.dim.y);
      diff := diff.(y := d);
    }
    if b.wrapZ && b.dim.z > 0.0 {
      var d := FoldLoop(diff.z, -job.halfDim.z, job.halfDim.z, b.dim.z);
      diff := diff.(z := d);
    }
  }

  /** One pass of the job's pair loop: fold the displacement on the
      wrapping axes, skip the pair when it is out of range or degenerate,
      and otherwise compute the push. */
  method PushFrom(job: Job, translation: Float3, otherTranslation: Float3, sqrt: real -> real)
    returns (push: Option<Float3>)
    requires WellFormed(job)
    ensures push == PairPush(job, translation, otherTranslation, sqrt)
  {
    var diff := FoldedDisplacement(job, translation, otherTranslation);
    var r2 := Dot(diff, diff);
    var rMax := job.radius * 10.0;
    if r2 > rMax * rMax {
      return None;
    }
    var r := sqrt(r2);
    if r < job.eps {
      return None;
    }
    var direction := Div(diff, r);
    var f := -job.strength;
    push := Some(Scale(Scale(direction, job.deltaTime), f));
  }

  /** The job's body for one index. It reads only the snapshot and writes
      only slot `index` of the two output arrays. */
  method Execute(job: Job, oldTranslations: seq<Float3>, oldParticles: seq<Particle>,
                 translations: array<Float3>, particles: array<Particle>, index: nat, sqrt: real -> real)
    requires WellFormed(job)
    requires |oldTranslations| == |oldParticles| == translations.Length == particles.Length
    requires index < particles.Length
    modifies translations, particles
    ensures (translations[index], particles[index]) == NextState(job, oldTranslations, oldParticles, index, sqrt)
    ensures forall j :: 0 <= j < translations.Length && j != index ==> translations[j] == old(translations[j])
    ensures forall j :: 0 <= j < particles.Length && j != index ==> particles[j] == old(particles[j])
  {
    var translation := oldTranslations[index];
    var particle := oldParticles[index];
    var b := job.bounds;

    var num := particles.Length;
    for k := 0 to num
      invariant particle == oldParticles[index].(vel := Accumulated(job, oldTranslations, index, k, oldParticles[index].vel, sqrt))
      invariant translations[..] == old(translations[..]) && particles[..] == old(particles[..])
    {
      var push := PushFrom(job, translation, oldTranslations[k], sqrt);
      if push.Some? {
        particle := particle.(vel := Add(particle.vel, push.value));
      }
    }

    var vel;
    translation, vel := MoveAndBound(job.deltaTime, job.friction, b, translation, particle.vel);
    particle := particle.(vel := vel);

    translations[index] := translation;
    particles[index] := particle;
  }

  /** The whole step with the job run for the indices in `order`, which
      names every index at least once, in any order. The output buffers
      start as copies of the snapshot, and each slot of the result depends
      on the snapshot alone, so neither the order nor a repeated index
      changes the outcome. */
  method StepInOrder(job: Job, oldTranslations: seq<Float3>, oldParticles: seq<Particle>, order: seq<nat>, sqrt: real -> real)
    returns (newTranslations: seq<Float3>, newParticles: seq<Particle>)
    requires WellFormed(job)
    requires |oldTranslations| == |oldParticles|
    requires forall k :: 0 <= k < |order| ==> order[k] < |oldTranslations|
    requires forall i :: 0 <= i < |oldTranslations| ==> i in order
    ensures |newTranslations| == |oldTranslations| && |newParticles| == |oldParticles|
    ensures forall i :: 0 <= i < |oldTranslations| ==>
              (newTranslations[i], newParticles[i]) == NextState(job, oldTranslations, oldParticles, i, sqrt)
  {
    var n := |oldTranslations|;
    var translations := new Float3[n](i requires 0 <= i < n => oldTranslations[i]);
    var particles := new Particle[n](i requires 0 <= i < n => oldParticles[i]);
    for k := 0 to |order|
      invariant forall i :: 0 <= i < n && i in order[..k] ==>
                  (translations[i], particles[i]) == NextState(job, oldTranslations, oldParticles, i, sqrt)
      invariant forall i :: 0 <= i < n && i !in order[..k] ==>
                  translations[i] == oldTranslations[i] && particles[i] == oldParticles[i]
    {
      assert order[..k + 1] == order[..k] + [order[k]];
      Execute(job, oldTranslations, oldParticles, translations, particles, order[k], sqrt);
    }
    assert order[..|order|] == order;
    newTranslations, newParticles := translations[..], particles[..];
  }

  /** The step as scheduled: one job per index, in ascending order. */
  method Step(job: Job, oldTranslations: seq<Float3>, oldParticles: seq<Particle>, sqrt: real -> real)
    returns (newTranslations: seq<Float3>, newParticles: seq<Particle>)
    requires WellFormed(job)
    requires |oldTranslations| == |oldParticles|
    ensures |newTranslations| == |oldTranslations| && |newParticles| == |oldParticles|
    ensures forall i :: 0 <= i < |oldTranslations| ==>
              (newTranslations[i], newParticles[i]) == NextState(job, oldTranslations, oldParticles, i, sqrt)
  {
    var n := |oldTranslations|;
    var ascending: seq<nat> := seq(n, i requires 0 <= i < n => i);
    forall i | 0 <= i < n
      ensures i in ascending
    {
      assert ascending[i] == i;
    }
    newTranslations, newParticles := StepInOrder(job, oldTranslations, oldParticles, ascending, sqrt);
  }

  /** With the corners in order, every particle is inside the world after a
      step. */
  lemma NextStateInWorld(job: Job, oldTranslations: seq<Float3>, oldParticles: seq<Particle>, index: nat, sqrt: real -> real)
    requires WellFormed(job)
    requires forall axis: Axis :: Get(job.bounds.lowerBound, axis) <= Get(job.bounds.upperBound, axis)
    requires |oldTranslations| == |oldParticles| && index < |oldTranslations|
    ensures InWorld(job.bounds, NextState(job, oldTranslations, oldParticles, index, sqrt).0)
  {
    var vel := Accumulated(job, oldTranslations, index, |oldTranslations|, oldParticles[index].vel, sqrt);
    IntegrateInWorld(job.deltaTime, job.friction, job.bounds, oldTranslations[index], vel);
  }

  /** The order of the updates: all pushes are summed into the velocity
      first, the position then advances by that velocity, and only then is
      the velocity scaled by friction. Shown for a particle whose move stays
      inside the world, where the bounds change nothing. */
  lemma NextStateOrder(job: Job, oldTranslations: seq<Float3>, oldParticles: seq<Particle>, index: nat, sqrt: real -> real)
    requires WellFormed(job)
    requires |oldTranslations| == |oldParticles| && index < |oldTranslations|
    requires var vel := Accumulated(job, oldTranslations, index, |oldTranslations|, oldParticles[index].vel, sqrt);
      InWorld(job.bounds, Add(oldTranslations[index], Scale(vel, job.deltaTime)))
    ensures var vel := Accumulated(job, oldTranslations, index, |oldTranslations|, oldParticles[index].vel, sqrt);
      var (pos', particle') := NextState(job, oldTranslations, oldParticles, index, sqrt);
      && pos' == Add(oldTranslations[index], Scale(vel, job.deltaTime))
      && particle'.vel == Scale(vel, job.friction)
      && particle'.kind == oldParticles[index].kind
  {
    var vel := Accumulated(job, oldTranslations, index, |oldTranslations|, oldParticles[index].vel, sqrt);
    IntegrateInterior(job.deltaTime, job.friction, job.bounds, oldTranslations[index], vel);
  }

  // ---------------------------------------------------------------------
  // The per-entity job: move, friction and bounds only

  /** The fields of the per-entity job. It computes the extent itself. */
  datatype ForEachJob = ForEachJob(
    deltaTime: real,
    friction: real,
    lowerBound: Float3,
    upperBound: Float3,
    wrapX: bool,
    wrapY: bool,
    wrapZ: bool,
    bounce: real)

  /** The per-entity job's body, on the entity's translation and particle. */
  method ExecuteForEach(job: ForEachJob, translation: Float3, particle: Particle)
    returns (translation': Float3, particle': Particle)
    ensures var b := Bounds(job.lowerBound, job.upperBound, Sub(job.upperBound, job.lowerBound),
                            job.wrapX, job.wrapY, job.wrapZ, job.bounce);
      && (translation', particle'.vel) == Integrate(job.deltaTime, job.friction, b, translation, particle.vel)
      && particle'.kind == particle.kind
    ensures (forall axis: Axis :: Get(job.lowerBound, axis) <= Get(job.upperBound, axis)) ==>
              forall axis: Axis :: Get(job.lowerBound, axis) <= Get(translation', axis) <= Get(job.upperBound, axis)
  {
    var dim := Sub(job.upperBound, job.lowerBound);
    var b := Bounds(job.lowerBound, job.upperBound, dim, job.wrapX, job.wrapY, job.wrapZ, job.bounce);
    var vel;
    translation', vel := MoveAndBound(job.deltaTime, job.friction, b, translation, particle.vel);
    particle' := particle.(vel := vel);
    if forall axis: Axis :: Get(job.lowerBound, axis) <= Get(job.upperBound, axis) {
      IntegrateInWorld(job.deltaTime, job.friction, b, translation, particle.vel);
    }
  }
}
