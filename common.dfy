/** Data shared by the simulation, the type matrix and the save/load code:
    3-vectors over the reals, the particle component, the 32-bit integer
    ranges of C#, the settings record and the outcome of a call that may
    throw. */
module Common {

  /** Unity's float3, with the components as mathematical reals. */
  datatype Float3 = Float3(x: real, y: real, z: real)

  /** Unity's float4 / Quaternion, component by component. */
  datatype Float4 = Float4(x: real, y: real, z: real, w: real)

  datatype Axis = X | Y | Z

  function Add(a: Float3, b: Float3): Float3 {
    Float3(a.x + b.x, a.y + b.y, a.z + b.z)
  }

  function Sub(a: Float3, b: Float3): Float3 {
    Float3(a.x - b.x, a.y - b.y, a.z - b.z)
  }

  /** `v * s` for a float3 and a float. */
  function Scale(v: Float3, s: real): Float3 {
    Float3(v.x * s, v.y * s, v.z * s)
  }

  /** `v / s`, component-wise. */
  function Div(v: Float3, s: real): Float3
    requires s != 0.0
  {
    Float3(v.x / s, v.y / s, v.z / s)
  }

  function Dot(a: Float3, b: Float3): real {
    a.x * b.x + a.y * b.y + a.z * b.z
  }

  function Get(v: Float3, axis: Axis): real {
    match axis
    case X => v.x
    case Y => v.y
    case Z => v.z
  }

  /** `v` with the component on `axis` replaced. */
  function With(v: Float3, axis: Axis, value: real): (r: Float3)
    ensures Get(r, axis) == value
    ensures forall other: Axis :: other != axis ==> Get(r, other) == Get(v, other)
  {
    match axis
    case X => v.(x := value)
    case Y => v.(y := value)
    case Z => v.(z := value)
  }

  function Abs(x: real): real {
    if x < 0.0 then -x else x
  }

  function Max(a: real, b: real): real {
    if a < b then b else a
  }

  function Min(a: real, b: real): real {
    if b < a then b else a
  }

  function MinInt(a: int, b: int): int {
    if b < a then b else a
  }

  const TwoTo31: int := 0x8000_0000
  const TwoTo32: int := 0x1_0000_0000

  /** C# `int`. */
  type Int32 = x: int | -TwoTo31 <= x < TwoTo31

  /** C# `uint`. */
  type UInt32 = x: int | 0 <= x < TwoTo32

  /** C# `int` arithmetic: the mathematical value wrapped to 32 bits. */
  function Wrap32(x: int): (r: Int32)
    ensures (r - x) % TwoTo32 == 0
  {
    (x + TwoTo31) % TwoTo32 - TwoTo31
  }

  /** The particle component: its type and its velocity. The source calls the
      first field `type`, a keyword here. */
  datatype Particle = Particle(kind: Int32, vel: Float3)

  /** The exceptions the modelled code can raise. */
  datatype Exception =
    | FormatException
    | OverflowException
    | ArgumentException
    | ArgumentOutOfRangeException
    | NotImplementedEncoding(code: int)

  /** The result of a call that either returns a value or throws. */
  datatype Outcome<+T> = Returned(value: T) | Threw(error: Exception)

  datatype Option<+T> = None | Some(value: T)

  /** The fields of the settings component, under their source names. */
  datatype Settings = Settings(
    numParticleTypes: Int32,
    attractMean: real,
    attractStd: real,
    rangeMinLower: real,
    rangeMinUpper: real,
    rangeMaxLower: real,
    rangeMaxUpper: real,
    minSimulationStepRate: real,
    simulationSpeedMultiplicator: real,
    simulationSpeedMultiplicator2: real,
    maxSpeed: real,
    friction: real,
    frictionTime: real,
    interactionStrength: real,
    radius: real,
    radiusVariation: real,
    r_smooth: real,
    flatForce: bool,
    cellSize: real,
    gravityTarget: Float3,
    gravityTargetRange: real,
    gravityLinear: bool,
    gravityStrength: real,
    maxGravity: real,
    lowerBound: Float3,
    upperBound: Float3,
    wrapX: bool,
    wrapY: bool,
    wrapZ: bool,
    bounce: real,
    drawWorldBounds: bool,
    spawnCount: Int32,
    creationBoxSize: Float3,
    creationBoxCenter: Float3
  )
}
