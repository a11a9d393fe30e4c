/** The save bundle and its parts: the settings record, the camera record,
    the type table and the particle arrays. Each part carries a version;
    reading a part back into the running simulation does nothing unless
    that version is valid, and the type table and the particles are
    decoded and length-checked in full before anything is changed. The JSON
    text of the parts is written and parsed by a library that is not part
    of this model: its results are parameters. */
module Serialization {
  import opened Common
  import opened SerializationTools
  import PT = ParticleTypes

  /** The version every part is written with. */
  const VERSION: Int32 := 1

  /** The guard of every readOut and of the bundle reader. */
  predicate ValidVersion(version: Int32) {
    0 < version <= VERSION
  }

  /** The platform a save file is written or read on: the host byte order,
      the float codecs and the zipped codec of `int` arrays. */
  datatype Platform = Platform(hostLittleEndian: bool, floats: Codecs<real>, zippedInts: ZippedCodec<Int32>)

  function Ints(env: Platform): Codecs<Int32> {
    IntCodecs(env.zippedInts)
  }

  // ---------------------------------------------------------------------
  // SerializeSettings
  // ---------------------------------------------------------------------

  /** The settings record: a version and the settings fields under their
      own names. */
  datatype SerializeSettings = SerializeSettings(
    version: Int32,
    numParticleTypes: Int32,
    attractMean: real,
    attractStd: real,
    rangeMinLower: real,
    rangeMinUpper: real,
    rangeMaxLower: real,
    rangeMaxUpper: real,
    minSimulationStepRate: real,
    simulationSpeedMultiplicator: real,
    simulationSpeedMultiplicator2: real,
    maxSpeed: real,
    friction: real,
    frictionTime: real,
    interactionStrength: real,
    radius: real,
    radiusVariation: real,
    r_smooth: real,
    flatForce: bool,
    cellSize: real,
    gravityTarget: Float3,
    gravityTargetRange: real,
    gravityLinear: bool,
    gravityStrength: real,
    maxGravity: real,
    lowerBound: Float3,
    upperBound: Float3,
    wrapX: bool,
    wrapY: bool,
    wrapZ: bool,
    bounce: real,
    drawWorldBounds: bool,
    spawnCount: Int32,
    creationBoxSize: Float3,
    creationBoxCenter: Float3
  )

  /** The constructor: the current version and every settings field. */
  function FromSettings(s: Settings): (r: SerializeSettings)
    ensures ValidVersion(r.version)
  {
    SerializeSettings(
      VERSION,
      s.numParticleTypes, s.attractMean, s.attractStd,
      s.rangeMinLower, s.rangeMinUpper, s.rangeMaxLower, s.rangeMaxUpper,
      s.minSimulationStepRate, s.simulationSpeedMultiplicator, s.simulationSpeedMultiplicator2,
      s.maxSpeed, s.friction, s.frictionTime, s.interactionStrength,
      s.radius, s.radiusVariation, s.r_smooth, s.flatForce, s.cellSize,
      s.gravityTarget, s.gravityTargetRange, s.gravityLinear, s.gravityStrength, s.maxGravity,
      s.lowerBound, s.upperBound, s.wrapX, s.wrapY, s.wrapZ, s.bounce, s.drawWorldBounds,
      s.spawnCount, s.creationBoxSize, s.creationBoxCenter)
  }

  /** readOut: with an invalid version the settings stay as they are;
      otherwise every field is copied, so that writing the result again
      gives back the record. */
  function ReadOutSettings(ss: SerializeSettings, settings: Settings): (r: Settings)
    ensures !ValidVersion(ss.version) ==> r == settings
    ensures ValidVersion(ss.version) ==> FromSettings(r) == ss
  {
    if !ValidVersion(ss.version) then settings
    else
      Settings(
        ss.numParticleTypes, ss.attractMean, ss.attractStd,
        ss.rangeMinLower, ss.rangeMinUpper, ss.rangeMaxLower, ss.rangeMaxUpper,
        ss.minSimulationStepRate, ss.simulationSpeedMultiplicator, ss.simulationSpeedMultiplicator2,
        ss.maxSpeed, ss.friction, ss.frictionTime, ss.interactionStrength,
        ss.radius, ss.radiusVariation, ss.r_smooth, ss.flatForce, ss.cellSize,
        ss.gravityTarget, ss.gravityTargetRange, ss.gravityLinear, ss.gravityStrength, ss.maxGravity,
        ss.lowerBound, ss.upperBound, ss.wrapX, ss.wrapY, ss.wrapZ, ss.bounce, ss.drawWorldBounds,
        ss.spawnCount, ss.creationBoxSize, ss.creationBoxCenter)
  }

  /** Settings written and read back into any settings object are the
      settings written. */
  lemma SettingsRoundTrip(s: Settings, target: Settings)
    ensures ReadOutSettings(FromSettings(s), target) == s
  {
  }

  // ---------------------------------------------------------------------
  // SerializeCamera
  // ---------------------------------------------------------------------

  /** The parts of the camera the record reads and writes: far clip plane,
      field of view, drag speed, position and rotation. */
  datatype CameraState = CameraState(farClipPlane: real, fieldOfView: real, dragSpeed: real, position: Float3, rotation: Float4)

  datatype SerializeCamera = SerializeCamera(version: Int32, renderDistance: real, fieldOfView: real, moveSpeed: real, pos: Float3, rotation: Float4)

  function FromCamera(cam: CameraState): (r: SerializeCamera)
    ensures ValidVersion(r.version)
  {
    SerializeCamera(VERSION, cam.farClipPlane, cam.fieldOfView, cam.dragSpeed, cam.position, cam.rotation)
  }

  /** readOut: with an invalid version the camera stays as it is;
      otherwise every recorded value is applied. */
  function ReadOutCamera(sc: SerializeCamera, cam: CameraState): (r: CameraState)
    ensures !ValidVersion(sc.version) ==> r == cam
    ensures ValidVersion(sc.version) ==> FromCamera(r) == sc
  {
    if !ValidVersion(sc.version) then cam
    else CameraState(sc.renderDistance, sc.fieldOfView, sc.moveSpeed, sc.pos, sc.rotation)
  }

  // ---------------------------------------------------------------------
  // The size check of the type table
  // ---------------------------------------------------------------------

  /** The check `numTypes * numTypes != length` as written: the product
      wraps around. */
  predicate SizeMatchesAsWritten(numTypes: Int32, length: int) {
    Wrap32(numTypes * numTypes) == length
  }

  /** The check as intended: the table has exactly `numTypes` squared
      entries. */
  predicate SizeMatches(numTypes: Int32, length: int) {
    numTypes * numTypes == length
  }

  /** Counts of 65536 and 65537 types pass the wrapped check with 0 and
      131073 entries, which the exact check refuses. */
  lemma WrappedSizeCheckAdmitsWrongSizes()
    ensures SizeMatchesAsWritten(65536, 0) && !SizeMatches(65536, 0)
    ensures SizeMatchesAsWritten(65537, 131073) && !SizeMatches(65537, 131073)
    ensures SizeMatchesAsWritten(-65536, 0) && !SizeMatches(-65536, 0)
  {
  }

  /** A table that passes the exact check and has an `int` length has at
      most 46340 types either way, so its size fits an `int`. */
  lemma SizeMatchesBounds(numTypes: Int32, length: int)
    requires SizeMatches(numTypes, length) && length < TwoTo31
    ensures -PT.MaxTypes <= numTypes <= PT.MaxTypes
    ensures SizeMatchesAsWritten(numTypes, length)
  {
  }

  // ---------------------------------------------------------------------
  // SerializeTypes
  // ---------------------------------------------------------------------

  datatype SerializeTypes = SerializeTypes(version: Int32, numTypes: Int32, attract: SerializedArray, rMin: SerializedArray, rMax: SerializedArray)

  /** The contents of an array; a missing array has none. */
  function Contents(a: array?<real>): seq<real>
    reads a
  {
    if a == null then [] else a[..]
  }

  /** The constructor: the type count and the three matrices, each stored
      with the given encoding. */
  function NewSerializeTypes(types: PT.ParticleTypes, encoding: Int32, env: Platform): (r: Outcome<SerializeTypes>)
    reads types, types.attract, types.rangeMin, types.rangeMax
    requires |Contents(types.attract)| < TwoTo31 && |Contents(types.rangeMin)| < TwoTo31 && |Contents(types.rangeMax)| < TwoTo31
    ensures r.Returned? ==> ValidVersion(r.value.version) && r.value.numTypes == types.numTypes
    ensures r.Returned? ==>
      && r.value.attract.numItems == |Contents(types.attract)|
      && r.value.rMin.numItems == |Contents(types.rangeMin)|
      && r.value.rMax.numItems == |Contents(types.rangeMax)|
  {
    match Wrap(Contents(types.attract), encoding, env.hostLittleEndian, env.floats)
    case Threw(e) => Threw(e)
    case Returned(attract) =>
      match Wrap(Contents(types.rangeMin), encoding, env.hostLittleEndian, env.floats)
      case Threw(e) => Threw(e)
      case Returned(rMin) =>
        match Wrap(Contents(types.rangeMax), encoding, env.hostLittleEndian, env.floats)
        case Threw(e) => Threw(e)
        case Returned(rMax) => Returned(SerializeTypes(VERSION, types.numTypes, attract, rMin, rMax))
  }

  /** The three matrices of a type table. */
  datatype TypeTables = TypeTables(attract: seq<real>, rangeMin: seq<real>, rangeMax: seq<real>)

  /** One matrix read back and checked against the type count. */
  function ReadMatrix(w: SerializedArray, numTypes: Int32, env: Platform, sizeOk: (Int32, int) -> bool): Outcome<Option<seq<real>>> {
    match ReadOut(w, env.hostLittleEndian, env.floats)
    case Threw(e) => Threw(e)
    case Returned(None) => Returned(None)
    case Returned(Some(m)) => if sizeOk(numTypes, |m|) then Returned(Some(m)) else Returned(None)
  }

  /** The decisions of readOut before it changes anything, with the size
      check as a parameter: the version, then each matrix read back and
      checked in turn. */
  function DecodeTypesChecked(st: SerializeTypes, env: Platform, sizeOk: (Int32, int) -> bool): (r: Outcome<Option<TypeTables>>)
    ensures r.Returned? && r.value.Some? ==> ValidVersion(st.version)
    ensures r.Returned? && r.value.Some? ==>
      && sizeOk(st.numTypes, |r.value.value.attract|)
      && sizeOk(st.numTypes, |r.value.value.rangeMin|)
      && sizeOk(st.numTypes, |r.value.value.rangeMax|)
      && |r.value.value.attract| == st.attract.numItems
      && |r.value.value.rangeMin| == st.rMin.numItems
      && |r.value.value.rangeMax| == st.rMax.numItems
  {
    if !ValidVersion(st.version) then Returned(None)
    else
      match ReadMatrix(st.attract, st.numTypes, env, sizeOk)
      case Threw(e) => Threw(e)
      case Returned(None) => Returned(None)
      case Returned(Some(attract)) =>
        match ReadMatrix(st.rMin, st.numTypes, env, sizeOk)
        case Threw(e) => Threw(e)
        case Returned(None) => Returned(None)
        case Returned(Some(rMin)) =>
          match ReadMatrix(st.rMax, st.numTypes, env, sizeOk)
          case Threw(e) => Threw(e)
          case Returned(None) => Returned(None)
          case Returned(Some(rMax)) => Returned(Some(TypeTables(attract, rMin, rMax)))
  }

  /** The decisions of readOut as written, with the wrapping size check:
      accepted tables only have as many entries as the wrapped product. */
  function DecodeTypesAsWritten(st: SerializeTypes, env: Platform): (r: Outcome<Option<TypeTables>>)
    ensures r.Returned? && r.value.Some? ==>
      && ValidVersion(st.version)
      && |r.value.value.attract| == Wrap32(st.numTypes * st.numTypes)
      && |r.value.value.rangeMin| == Wrap32(st.numTypes * st.numTypes)
      && |r.value.value.rangeMax| == Wrap32(st.numTypes * st.numTypes)
  {
    DecodeTypesChecked(st, env, SizeMatchesAsWritten)
  }

  /** The decisions of readOut with the exact size check: accepted tables
      have `numTypes` squared entries, and that many fit an `int`. */
  function DecodeTypes(st: SerializeTypes, env: Platform): (r: Outcome<Option<TypeTables>>)
    ensures r.Returned? && r.value.Some? ==>
      && -PT.MaxTypes <= st.numTypes <= PT.MaxTypes
      && |r.value.value.attract| == st.numTypes * st.numTypes
      && |r.value.value.rangeMin| == st.numTypes * st.numTypes
      && |r.value.value.rangeMax| == st.numTypes * st.numTypes
  {
    var r := DecodeTypesChecked(st, env, SizeMatches);
    if r.Returned? && r.value.Some? then
      SizeMatchesBounds(st.numTypes, |r.value.value.attract|);
      r
    else r
  }

  /** An empty hex-coded array: just the tag of a little-endian host. */
  const EmptyHexArray: SerializedArray := SerializedArray(0, "LE", HexCodedBinary)

  /** The wrapped check lets a record of 65536 types with three empty
      matrices through on a little-endian host; the exact check refuses it.
      The table that would follow has 65536 colours and no matrix entries,
      and the maximum-range scan after it reads past the end. */
  lemma AsWrittenAcceptsEmptyTables(env: Platform)
    requires env.hostLittleEndian
    ensures DecodeTypesAsWritten(SerializeTypes(1, 65536, EmptyHexArray, EmptyHexArray, EmptyHexArray), env)
      == Returned(Some(TypeTables([], [], [])))
    ensures DecodeTypes(SerializeTypes(1, 65536, EmptyHexArray, EmptyHexArray, EmptyHexArray), env) == Returned(None)
  {
    var st := SerializeTypes(1, 65536, EmptyHexArray, EmptyHexArray, EmptyHexArray);
    EndiannessRoundTrip(true, "");
    assert "LE" + "" == "LE";
    assert ParseWords("LE", 0) == Returned([]);
    assert DecodeHexWords("LE", true) == Returned(Values([]));
    assert ReadOut(EmptyHexArray, true, env.floats) == Returned(Some([]));
    WrappedSizeCheckAdmitsWrongSizes();
  }

  /** A matrix of `numTypes` squared entries, stored and read back on the
      same platform, passes the exact check with its own entries. */
  lemma ReadMatrixOfWrap(m: seq<real>, numTypes: Int32, encoding: Int32, env: Platform)
    requires 0 < |m| < TwoTo31 && SizeMatches(numTypes, |m|)
    requires RoundTrips(m, encoding, env.floats)
    ensures Wrap(m, encoding, env.hostLittleEndian, env.floats).Returned?
    ensures ReadMatrix(Wrap(m, encoding, env.hostLittleEndian, env.floats).value, numTypes, env, SizeMatches) == Returned(Some(m))
  {
    WrapReadOut(m, encoding, env.hostLittleEndian, env.floats);
  }

  /** Multiplying by a non-negative factor keeps an order. */
  lemma MulMonotone(a: int, b: int, c: int)
    requires 0 <= a <= b && 0 <= c
    ensures a * c <= b * c
  {
  }

  /** A table of at most 46340 types has fewer than 2^31 entries. */
  lemma TableFits(numTypes: Int32)
    requires -PT.MaxTypes <= numTypes <= PT.MaxTypes
    ensures numTypes * numTypes < TwoTo31
  {
    var m: int := if numTypes < 0 then -(numTypes as int) else numTypes;
    assert numTypes * numTypes == m * m;
    MulMonotone(m, PT.MaxTypes, m);
    MulMonotone(m, PT.MaxTypes, PT.MaxTypes);
  }

  /** The type count and matrices written and decoded again on the same
      platform, when the float codec round-trips each matrix. */
  lemma TypesRoundTrip(types: PT.ParticleTypes, encoding: Int32, env: Platform)
    requires types.Valid() && types.Ready()
    requires 0 < types.numTypes
    requires RoundTrips(types.attract[..], encoding, env.floats)
    requires RoundTrips(types.rangeMin[..], encoding, env.floats)
    requires RoundTrips(types.rangeMax[..], encoding, env.floats)
    ensures (TableFits(types.numTypes); NewSerializeTypes(types, encoding, env).Returned?)
    ensures (TableFits(types.numTypes);
      DecodeTypes(NewSerializeTypes(types, encoding, env).value, env)
        == Returned(Some(TypeTables(types.attract[..], types.rangeMin[..], types.rangeMax[..]))))
  {
    var n := types.numTypes;
    TableFits(n);
    ReadMatrixOfWrap(types.attract[..], n, encoding, env);
    ReadMatrixOfWrap(types.rangeMin[..], n, encoding, env);
    ReadMatrixOfWrap(types.rangeMax[..], n, encoding, env);
  }

  /** NativeArray.CopyFrom of arrays of equal length. */
  method CopyFrom(dst: array<real>, src: seq<real>)
    requires dst.Length == |src|
    modifies dst
    ensures dst[..] == src
  {
    forall j | 0 <= j < dst.Length {
      dst[j] := src[j];
    }
  }

  /** SerializeTypes.readOut, with the exact size check of `DecodeTypes`
      where the source compares the wrapped product (`DecodeTypesAsWritten`).
      Unless every check passes, nothing changes. Otherwise the settings get
      the type count, the table is reallocated for it (a negative count
      throws there, after the release) with fresh type colours, takes the
      three matrices, and the largest maximum range is raised over them. */
  method ReadOutTypes(st: SerializeTypes, types: PT.ParticleTypes, settings: Settings, env: Platform)
      returns (r: Outcome<bool>, settings': Settings)
    requires types.Valid()
    modifies types
    ensures types.Valid()
    ensures DecodeTypes(st, env).Threw? ==>
      r == Threw(DecodeTypes(st, env).error) && settings' == settings && unchanged(types)
    ensures DecodeTypes(st, env) == Returned(None) ==>
      r == Returned(false) && settings' == settings && unchanged(types)
    ensures DecodeTypes(st, env).Returned? && DecodeTypes(st, env).value.Some? ==>
      && settings' == settings.(numParticleTypes := st.numTypes)
      && types.numTypes == st.numTypes
      && (st.numTypes < 0 ==>
        && r == Threw(ArgumentOutOfRangeException)
        && types.colors == (if old(types.colors) != null && old(types.colors).Length > 0 then null else old(types.colors))
        && types.attract == (if old(types.attract) != null && old(types.attract).Length > 0 then null else old(types.attract))
        && types.rangeMin == (if old(types.rangeMin) != null && old(types.rangeMin).Length > 0 then null else old(types.rangeMin))
        && types.rangeMax == (if old(types.rangeMax) != null && old(types.rangeMax).Length > 0 then null else old(types.rangeMax)))
      && (0 <= st.numTypes ==>
        && r == Returned(true)
        && types.Ready()
        && types.colors != null && fresh(types.colors) && fresh(types.attract) && fresh(types.rangeMin) && fresh(types.rangeMax)
        && types.colors.Length == st.numTypes
        && (forall i :: 0 <= i < st.numTypes ==> types.colors[i] == PT.TypeColor(i, st.numTypes))
        && types.attract[..] == DecodeTypes(st, env).value.value.attract
        && types.rangeMin[..] == DecodeTypes(st, env).value.value.rangeMin
        && types.rangeMax[..] == DecodeTypes(st, env).value.value.rangeMax
        && old(types.maxRangeMax) <= types.maxRangeMax
        && (PT.AllIdxBounds(types.numTypes);
            forall a, b {:trigger PT.Idx(types.numTypes, a, b)} :: 0 <= a <= b < types.numTypes ==>
              types.rangeMax[PT.Idx(types.numTypes, a, b)] <= types.maxRangeMax))
  {
    var decoded := DecodeTypes(st, env);
    if decoded.Threw? {
      return Threw(decoded.error), settings;
    }
    if decoded.value.None? {
      return Returned(false), settings;
    }
    var tables := decoded.value.value;
    settings' := settings.(numParticleTypes := st.numTypes);
    var init := types.InitParticleTypeArrays(st.numTypes);
    if init.Threw? {
      return Threw(init.error), settings';
    }
    CopyFrom(types.attract, tables.attract);
    CopyFrom(types.rangeMin, tables.rangeMin);
    CopyFrom(types.rangeMax, tables.rangeMax);
    types.UpdateMaxRangeMax();
    r := Returned(true);
  }

  // ---------------------------------------------------------------------
  // SerializeParticles
  // ---------------------------------------------------------------------

  /** The particle entities as the save code sees them: each entity's
      translation, particle component and scale. */
  class ParticleWorld {
    var translations: seq<Float3>
    var particles: seq<Particle>
    var scales: seq<real>

    constructor(translations: seq<Float3>, particles: seq<Particle>, scales: seq<real>)
      ensures this.translations == translations && this.particles == particles && this.scales == scales
    {
      this.translations := translations;
      this.particles := particles;
      this.scales := scales;
    }
  }

  datatype SerializeParticles = SerializeParticles(
    version: Int32,
    numParticles: Int32,
    types: SerializedArray,
    x: SerializedArray,
    y: SerializedArray,
    z: SerializedArray,
    vx: SerializedArray,
    vy: SerializedArray,
    vz: SerializedArray,
    scale: SerializedArray)

  /** The eight parallel arrays of the record. */
  datatype Columns = Columns(
    types: seq<Int32>,
    x: seq<real>, y: seq<real>, z: seq<real>,
    vx: seq<real>, vy: seq<real>, vz: seq<real>,
    scale: seq<real>)

  /** The seven float arrays in the order they are stored and read. */
  function FloatColumns(c: Columns): seq<seq<real>> {
    [c.x, c.y, c.z, c.vx, c.vy, c.vz, c.scale]
  }

  predicate ColumnsOfLength(c: Columns, n: int) {
    |c.types| == n && |c.x| == n && |c.y| == n && |c.z| == n
    && |c.vx| == n && |c.vy| == n && |c.vz| == n && |c.scale| == n
  }

  /** The columns of the first `n` entities. */
  function ColumnsOf(translations: seq<Float3>, particles: seq<Particle>, scales: seq<real>, n: nat): (c: Columns)
    requires n <= |translations| && n <= |particles| && n <= |scales|
    ensures ColumnsOfLength(c, n)
  {
    Columns(
      seq(n, i requires 0 <= i < n => particles[i].kind),
      seq(n, i requires 0 <= i < n => translations[i].x),
      seq(n, i requires 0 <= i < n => translations[i].y),
      seq(n, i requires 0 <= i < n => translations[i].z),
      seq(n, i requires 0 <= i < n => particles[i].vel.x),
      seq(n, i requires 0 <= i < n => particles[i].vel.y),
      seq(n, i requires 0 <= i < n => particles[i].vel.z),
      seq(n, i requires 0 <= i < n => scales[i]))
  }

  /** Each float array stored in turn; the first that throws decides. */
  function WrapAll(columns: seq<seq<real>>, encoding: Int32, env: Platform): (r: Outcome<seq<SerializedArray>>)
    requires forall i :: 0 <= i < |columns| ==> |columns[i]| < TwoTo31
    ensures r.Returned? ==> |r.value| == |columns|
  {
    if |columns| == 0 then Returned([])
    else
      match Wrap(columns[0], encoding, env.hostLittleEndian, env.floats)
      case Threw(e) => Threw(e)
      case Returned(w) =>
        match WrapAll(columns[1..], encoding, env)
        case Threw(e) => Threw(e)
        case Returned(ws) => Returned([w] + ws)
  }

  /** The record of given columns: the type array first, then the float
      arrays in order. */
  function RecordOf(c: Columns, n: Int32, encoding: Int32, env: Platform): (r: Outcome<SerializeParticles>)
    requires ColumnsOfLength(c, n)
    ensures r.Returned? ==> ValidVersion(r.value.version) && r.value.numParticles == n
  {
    match Wrap(c.types, encoding, env.hostLittleEndian, Ints(env))
    case Threw(e) => Threw(e)
    case Returned(types) =>
      match WrapAll(FloatColumns(c), encoding, env)
      case Threw(e) => Threw(e)
      case Returned(ws) => Returned(SerializeParticles(VERSION, n, types, ws[0], ws[1], ws[2], ws[3], ws[4], ws[5], ws[6]))
  }

  /** The record the constructor builds: as many entities as the shortest
      of the three component arrays has, split into parallel arrays. */
  function ParticlesRecord(translations: seq<Float3>, particles: seq<Particle>, scales: seq<real>, encoding: Int32, env: Platform): Outcome<SerializeParticles>
    requires |translations| < TwoTo31
  {
    var n := MinInt(MinInt(|translations|, |particles|), |scales|);
    RecordOf(ColumnsOf(translations, particles, scales, n), n, encoding, env)
  }

  /** The copy loop of the constructor: entity `i`'s type, position,
      velocity and scale go to entry `i` of the eight buffers. */
  method SplitColumns(translations: seq<Float3>, particles: seq<Particle>, scales: seq<real>, n: nat) returns (c: Columns)
    requires n <= |translations| && n <= |particles| && n <= |scales|
    ensures c == ColumnsOf(translations, particles, scales, n)
  {
    var types: seq<Int32> := seq(n, _ => 0);
    var x, y, z := seq(n, _ => 0.0), seq(n, _ => 0.0), seq(n, _ => 0.0);
    var vx, vy, vz := seq(n, _ => 0.0), seq(n, _ => 0.0), seq(n, _ => 0.0);
    var scale := seq(n, _ => 0.0);
    var i := 0;
    while i < n
      invariant 0 <= i <= n
      invariant |types| == |x| == |y| == |z| == |vx| == |vy| == |vz| == |scale| == n
      invariant forall j :: 0 <= j < i ==> types[j] == particles[j].kind
      invariant forall j :: 0 <= j < i ==> x[j] == translations[j].x
      invariant forall j :: 0 <= j < i ==> y[j] == translations[j].y
      invariant forall j :: 0 <= j < i ==> z[j] == translations[j].z
      invariant forall j :: 0 <= j < i ==> vx[j] == particles[j].vel.x
      invariant forall j :: 0 <= j < i ==> vy[j] == particles[j].vel.y
      invariant forall j :: 0 <= j < i ==> vz[j] == particles[j].vel.z
      invariant forall j :: 0 <= j < i ==> scale[j] == scales[j]
    {
      types := types[i := particles[i].kind];
      x := x[i := translations[i].x];
      y := y[i := translations[i].y];
      z := z[i := translations[i].z];
      vx := vx[i := particles[i].vel.x];
      vy := vy[i := particles[i].vel.y];
      vz := vz[i := particles[i].vel.z];
      scale := scale[i := scales[i]];
      i := i + 1;
    }
    c := Columns(types, x, y, z, vx, vy, vz, scale);
  }

  /** The SerializeParticles constructor: the entity count is the length
      of the shortest component array, the per-entity fields are copied
      into eight buffers, and each buffer is stored. */
  method NewSerializeParticles(world: ParticleWorld, encoding: Int32, env: Platform) returns (r: Outcome<SerializeParticles>)
    requires |world.translations| < TwoTo31
    ensures r == ParticlesRecord(world.translations, world.particles, world.scales, encoding, env)
  {
    var n := |world.translations|;
    if |world.particles| < n {
      n := |world.particles|;
    }
    if |world.scales| < n {
      n := |world.scales|;
    }
    var c := SplitColumns(world.translations, world.particles, world.scales, n);
    r := RecordOf(c, n, encoding, env);
  }

  /** Each float array read back and checked against the count in turn;
      the first that throws or fails decides. */
  function ReadColumns(ws: seq<SerializedArray>, n: int, env: Platform): (r: Outcome<Option<seq<seq<real>>>>)
    ensures r.Returned? && r.value.Some? ==>
      |r.value.value| == |ws| && forall i :: 0 <= i < |ws| ==> |r.value.value[i]| == n
  {
    if |ws| == 0 then Returned(Some([]))
    else
      match ReadOut(ws[0], env.hostLittleEndian, env.floats)
      case Threw(e) => Threw(e)
      case Returned(None) => Returned(None)
      case Returned(Some(column)) =>
        if n != |column| then Returned(None)
        else
          match ReadColumns(ws[1..], n, env)
          case Threw(e) => Threw(e)
          case Returned(None) => Returned(None)
          case Returned(Some(rest)) => Returned(Some([column] + rest))
  }

  /** The decisions of readOut before it changes anything: the version,
      then the type array and each float array read back and checked
      against `numParticles`, in order. */
  function DecodeParticles(sp: SerializeParticles, env: Platform): (r: Outcome<Option<Columns>>)
    ensures r.Returned? && r.value.Some? ==> ValidVersion(sp.version) && ColumnsOfLength(r.value.value, sp.numParticles)
  {
    if !ValidVersion(sp.version) then Returned(None)
    else
      match ReadOut(sp.types, env.hostLittleEndian, Ints(env))
      case Threw(e) => Threw(e)
      case Returned(None) => Returned(None)
      case Returned(Some(types)) =>
        if sp.numParticles != |types| then Returned(None)
        else
          match ReadColumns([sp.x, sp.y, sp.z, sp.vx, sp.vy, sp.vz, sp.scale], sp.numParticles, env)
          case Threw(e) => Threw(e)
          case Returned(None) => Returned(None)
          case Returned(Some(cs)) => Returned(Some(Columns(types, cs[0], cs[1], cs[2], cs[3], cs[4], cs[5], cs[6])))
  }

  /** Stored float arrays read back as the arrays stored. */
  lemma {:induction false} WrapAllReadColumns(columns: seq<seq<real>>, n: int, encoding: Int32, env: Platform)
    requires 0 < n < TwoTo31
    requires forall i :: 0 <= i < |columns| ==> |columns[i]| == n && RoundTrips(columns[i], encoding, env.floats)
    ensures WrapAll(columns, encoding, env).Returned?
    ensures ReadColumns(WrapAll(columns, encoding, env).value, n, env) == Returned(Some(columns))
  {
    if |columns| > 0 {
      WrapReadOut(columns[0], encoding, env.hostLittleEndian, env.floats);
      WrapAllReadColumns(columns[1..], n, encoding, env);
      var w := Wrap(columns[0], encoding, env.hostLittleEndian, env.floats).value;
      var rest := WrapAll(columns[1..], encoding, env).value;
      assert WrapAll(columns, encoding, env) == Returned([w] + rest);
      ReadColumnsCons(w, rest, columns[0], columns[1..], n, env);
      assert [columns[0]] + columns[1..] == columns;
    }
  }

  /** Reading a stored array in front of others: its items, then theirs. */
  lemma ReadColumnsCons(w: SerializedArray, rest: seq<SerializedArray>, column: seq<real>, columns: seq<seq<real>>, n: int, env: Platform)
    requires ReadOut(w, env.hostLittleEndian, env.floats) == Returned(Some(column)) && |column| == n
    requires ReadColumns(rest, n, env) == Returned(Some(columns))
    ensures ReadColumns([w] + rest, n, env) == Returned(Some([column] + columns))
  {
    assert ([w] + rest)[0] == w && ([w] + rest)[1..] == rest;
  }

  /** A record of columns, decoded again on the same platform, gives back
      the columns, when each column round-trips through its codec. */
  lemma RecordRoundTrip(c: Columns, n: Int32, encoding: Int32, env: Platform)
    requires 0 < n && ColumnsOfLength(c, n)
    requires RoundTrips(c.types, encoding, Ints(env))
    requires forall i :: 0 <= i < 7 ==> RoundTrips(FloatColumns(c)[i], encoding, env.floats)
    ensures RecordOf(c, n, encoding, env).Returned?
    ensures DecodeParticles(RecordOf(c, n, encoding, env).value, env) == Returned(Some(c))
  {
    WrapReadOut(c.types, encoding, env.hostLittleEndian, Ints(env));
    WrapAllReadColumns(FloatColumns(c), n, encoding, env);
    var types := Wrap(c.types, encoding, env.hostLittleEndian, Ints(env)).value;
    var ws := WrapAll(FloatColumns(c), encoding, env).value;
    RecordParts(c, n, encoding, env, types, ws);
    DecodeParticlesAccepts(RecordOf(c, n, encoding, env).value, c.types, FloatColumns(c), env);
  }

  /** The record holds the stored type array and the seven stored float
      arrays in column order. */
  lemma RecordParts(c: Columns, n: Int32, encoding: Int32, env: Platform, types: SerializedArray, ws: seq<SerializedArray>)
    requires ColumnsOfLength(c, n)
    requires Wrap(c.types, encoding, env.hostLittleEndian, Ints(env)) == Returned(types)
    requires WrapAll(FloatColumns(c), encoding, env) == Returned(ws)
    ensures var sp := RecordOf(c, n, encoding, env);
      && sp == Returned(SerializeParticles(VERSION, n, types, ws[0], ws[1], ws[2], ws[3], ws[4], ws[5], ws[6]))
      && [sp.value.x, sp.value.y, sp.value.z, sp.value.vx, sp.value.vy, sp.value.vz, sp.value.scale] == ws
  {
  }

  /** readOut accepts a record whose version is valid and whose arrays all
      read back with `numParticles` entries. */
  lemma DecodeParticlesAccepts(sp: SerializeParticles, types: seq<Int32>, cs: seq<seq<real>>, env: Platform)
    requires ValidVersion(sp.version)
    requires ReadOut(sp.types, env.hostLittleEndian, Ints(env)) == Returned(Some(types)) && |types| == sp.numParticles
    requires ReadColumns([sp.x, sp.y, sp.z, sp.vx, sp.vy, sp.vz, sp.scale], sp.numParticles, env) == Returned(Some(cs))
    ensures |cs| == 7
    ensures DecodeParticles(sp, env) == Returned(Some(Columns(types, cs[0], cs[1], cs[2], cs[3], cs[4], cs[5], cs[6])))
  {
  }

  /** The first `n` entities, written and decoded again on the same
      platform, come back as their columns, when each column round-trips
      through its codec. */
  lemma ParticlesRoundTrip(translations: seq<Float3>, particles: seq<Particle>, scales: seq<real>, encoding: Int32, env: Platform)
    requires |translations| < TwoTo31
    requires 0 < |translations| && 0 < |particles| && 0 < |scales|
    requires var c := ColumnsOf(translations, particles, scales, MinInt(MinInt(|translations|, |particles|), |scales|));
      && RoundTrips(c.types, encoding, Ints(env))
      && forall i :: 0 <= i < 7 ==> RoundTrips(FloatColumns(c)[i], encoding, env.floats)
    ensures ParticlesRecord(translations, particles, scales, encoding, env).Returned?
    ensures DecodeParticles(ParticlesRecord(translations, particles, scales, encoding, env).value, env)
      == Returned(Some(ColumnsOf(translations, particles, scales, MinInt(MinInt(|translations|, |particles|), |scales|))))
  {
    var n := MinInt(MinInt(|translations|, |particles|), |scales|);
    RecordRoundTrip(ColumnsOf(translations, particles, scales, n), n, encoding, env);
  }

  /** The rebuild loop of readOut: entity `i` gets position, velocity,
      type and scale from entry `i` of the columns. */
  method BuildEntities(c: Columns, n: Int32) returns (translations: array<Float3>, particles: array<Particle>, scales: array<real>)
    requires 0 <= n && ColumnsOfLength(c, n)
    ensures fresh(translations) && fresh(particles) && fresh(scales)
    ensures translations.Length == particles.Length == scales.Length == n
    ensures forall i :: 0 <= i < n ==>
      && translations[i] == Float3(c.x[i], c.y[i], c.z[i])
      && particles[i] == Particle(c.types[i], Float3(c.vx[i], c.vy[i], c.vz[i]))
      && scales[i] == c.scale[i]
  {
    translations := new Float3[n];
    particles := new Particle[n];
    scales := new real[n];
    var i := 0;
    while i < n
      invariant 0 <= i <= n
      invariant forall j :: 0 <= j < i ==> translations[j] == Float3(c.x[j], c.y[j], c.z[j])
      invariant forall j :: 0 <= j < i ==> particles[j] == Particle(c.types[j], Float3(c.vx[j], c.vy[j], c.vz[j]))
      invariant forall j :: 0 <= j < i ==> scales[j] == c.scale[j]
    {
      translations[i] := Float3(c.x[i], c.y[i], c.z[i]);
      particles[i] := Particle(c.types[i], Float3(c.vx[i], c.vy[i], c.vz[i]));
      scales[i] := c.scale[i];
      i := i + 1;
    }
  }

  /** SerializeParticles.readOut. Unless every check passes, the world is
      untouched. Otherwise it is cleared and holds `numParticles` entities,
      entity `i` built from entry `i` of each array. */
  method ReadOutParticles(sp: SerializeParticles, world: ParticleWorld, env: Platform) returns (r: Outcome<bool>)
    modifies world
    ensures DecodeParticles(sp, env).Threw? ==> r == Threw(DecodeParticles(sp, env).error) && unchanged(world)
    ensures DecodeParticles(sp, env) == Returned(None) ==> r == Returned(false) && unchanged(world)
    ensures DecodeParticles(sp, env).Returned? && DecodeParticles(sp, env).value.Some? ==>
      var c := DecodeParticles(sp, env).value.value;
      && r == Returned(true)
      && |world.translations| == |world.particles| == |world.scales| == sp.numParticles
      && (forall i :: 0 <= i < sp.numParticles ==>
        && world.translations[i] == Float3(c.x[i], c.y[i], c.z[i])
        && world.particles[i] == Particle(c.types[i], Float3(c.vx[i], c.vy[i], c.vz[i]))
        && world.scales[i] == c.scale[i])
  {
    var decoded := DecodeParticles(sp, env);
    if decoded.Threw? {
      return Threw(decoded.error);
    }
    if decoded.value.None? {
      return Returned(false);
    }
    var c := decoded.value.value;
    var translations, particles, scales := BuildEntities(c, sp.numParticles);
    world.translations := translations[..];
    world.particles := particles[..];
    world.scales := scales[..];
    r := Returned(true);
  }

  // ---------------------------------------------------------------------
  // SerializeBundle
  // ---------------------------------------------------------------------

  /** The bundle: its version and the four optional parts. */
  datatype Bundle = Bundle(
    version: Int32,
    particleLife: Option<SerializeSettings>,
    particles: Option<SerializeParticles>,
    types: Option<SerializeTypes>,
    camera: Option<SerializeCamera>)

  /** The constructor: the current version and the parts as given. */
  function NewBundle(particleLife: Option<SerializeSettings>, particles: Option<SerializeParticles>,
                     types: Option<SerializeTypes>, camera: Option<SerializeCamera>): (r: Bundle)
    ensures ValidVersion(r.version)
  {
    Bundle(VERSION, particleLife, particles, types, camera)
  }

  /** The JSON text of each part, as the JSON library writes it. */
  datatype JsonWriter = JsonWriter(
    settings: SerializeSettings -> string,
    particles: SerializeParticles -> string,
    types: SerializeTypes -> string,
    camera: SerializeCamera -> string)

  function PartText<P>(part: Option<P>, write: P -> string): string {
    if part.None? then "" else write(part.value)
  }

  /** One member of the bundle object, or nothing for an empty part. */
  function Member(key: string, value: string): string {
    if |value| == 0 then "" else ",\"" + key + "\":" + value
  }

  /** The bundle text: "" when every part is empty; otherwise an object
      with the version and each non-empty part, in the order particleLife,
      particles, types, camera. */
  function BundleText(version: Int32, sParticleLife: string, sParticles: string, sTypes: string, sCamera: string): string {
    if |sParticleLife| == 0 && |sParticles| == 0 && |sTypes| == 0 && |sCamera| == 0 then ""
    else
      "{\"version\":" + DecimalString(version)
      + Member("particleLife", sParticleLife) + Member("particles", sParticles)
      + Member("types", sTypes) + Member("camera", sCamera)
      + "}"
  }

  /** The text is empty exactly when all four parts are; otherwise it is
      an object that starts with the version. */
  lemma BundleTextShape(version: Int32, sParticleLife: string, sParticles: string, sTypes: string, sCamera: string)
    ensures BundleText(version, sParticleLife, sParticles, sTypes, sCamera) == ""
      <==> sParticleLife == "" && sParticles == "" && sTypes == "" && sCamera == ""
    ensures BundleText(version, sParticleLife, sParticles, sTypes, sCamera) != "" ==>
      var t := BundleText(version, sParticleLife, sParticles, sTypes, sCamera);
      var head := "{\"version\":" + DecimalString(version);
      && head <= t
      && t[|t| - 1] == '}'
  {
    if !(sParticleLife == "" && sParticles == "" && sTypes == "" && sCamera == "") {
      var head := "{\"version\":" + DecimalString(version);
      HeadOfAppends(head, Member("particleLife", sParticleLife), Member("particles", sParticles),
        Member("types", sTypes), Member("camera", sCamera), "}");
    }
  }

  /** The first of six appended texts is a prefix of the result, and the
      result ends with the last. */
  lemma HeadOfAppends(a: string, b: string, c: string, d: string, e: string, f: string)
    requires |f| > 0
    ensures a <= a + b + c + d + e + f
    ensures (a + b + c + d + e + f)[|a + b + c + d + e + f| - 1] == f[|f| - 1]
  {
    assert (a + b + c + d + e + f)[..|a|] == a;
  }

  /** The three appends of one non-empty part: the comma, the quoted key
      with its colon, and the part's text. */
  method AppendMember(text: string, key: string, value: string) returns (text': string)
    ensures text' == text + Member(key, value)
  {
    text' := text;
    if |value| > 0 {
      text' := text' + ",";
      text' := text' + "\"" + key + "\":";
      text' := text' + value;
      assert text' == text + (",\"" + key + "\":" + value);
    }
  }

  /** The capacity `60 + |sParticleLife| + |sParticles| + |sTypes| +
      |sCamera|` ToJson gives its string builder, in C# `int` arithmetic. */
  function BundleCapacity(sParticleLife: string, sParticles: string, sTypes: string, sCamera: string): Int32 {
    Wrap32(60 + |sParticleLife| + |sParticles| + |sTypes| + |sCamera|)
  }

  /** The capacity fits while the parts total less than `2^31 - 60`
      characters, and is negative from there up to `2^32 - 60`. */
  lemma BundleCapacityThresholds(sParticleLife: string, sParticles: string, sTypes: string, sCamera: string)
    ensures var total := |sParticleLife| + |sParticles| + |sTypes| + |sCamera|;
      && (total < TwoTo31 - 60 ==> 0 <= BundleCapacity(sParticleLife, sParticles, sTypes, sCamera))
      && (TwoTo31 - 60 <= total < TwoTo32 - 60 ==> BundleCapacity(sParticleLife, sParticles, sTypes, sCamera) < 0)
  {
    var x := 60 + |sParticleLife| + |sParticles| + |sTypes| + |sCamera|;
    if x < TwoTo31 {
      WrapInRange(x, 0);
    } else if x < TwoTo32 {
      WrapInRange(x, 1);
    }
  }

  /** ToJson: each part's text ("" for a missing part); "" when all are
      empty; otherwise a builder whose capacity, when it wraps negative,
      throws, and else the object appended piece by piece. */
  method ToJson(b: Bundle, json: JsonWriter) returns (r: Outcome<string>)
    ensures var sParticleLife, sParticles, sTypes, sCamera :=
        PartText(b.particleLife, json.settings), PartText(b.particles, json.particles),
        PartText(b.types, json.types), PartText(b.camera, json.camera);
      && (sParticleLife == "" && sParticles == "" && sTypes == "" && sCamera == "" ==> r == Returned(""))
      && (BundleCapacity(sParticleLife, sParticles, sTypes, sCamera) < 0 && !(sParticleLife == "" && sParticles == "" && sTypes == "" && sCamera == "")
          ==> r == Threw(ArgumentOutOfRangeException))
      && (0 <= BundleCapacity(sParticleLife, sParticles, sTypes, sCamera)
          ==> r == Returned(BundleText(b.version, sParticleLife, sParticles, sTypes, sCamera)))
  {
    var sParticleLife := PartText(b.particleLife, json.settings);
    var sParticles := PartText(b.particles, json.particles);
    var sTypes := PartText(b.types, json.types);
    var sCamera := PartText(b.camera, json.camera);
    if |sParticleLife| == 0 && |sParticles| == 0 && |sTypes| == 0 && |sCamera| == 0 {
      return Returned("");
    }
    if BundleCapacity(sParticleLife, sParticles, sTypes, sCamera) < 0 {
      return Threw(ArgumentOutOfRangeException);
    }
    var text;
    text := "{\"version\":";
    text := text + DecimalString(b.version);
    text := AppendMember(text, "particleLife", sParticleLife);
    text := AppendMember(text, "particles", sParticles);
    text := AppendMember(text, "types", sTypes);
    text := AppendMember(text, "camera", sCamera);
    text := text + "}";
    r := Returned(text);
  }

  /** What the JSON library makes of a bundle text: nothing, or a bundle
      whose four parts all exist (missing members get default fields). */
  datatype ParsedBundle = ParsedBundle(
    version: Int32,
    particleLife: SerializeSettings,
    particles: SerializeParticles,
    types: SerializeTypes,
    camera: SerializeCamera)

  /** FromJson after parsing: a missing or invalid bundle becomes a new
      empty one; otherwise each part is kept exactly when its own version
      is valid. */
  function FromJson(parsed: Option<ParsedBundle>): (r: Bundle)
    ensures ValidVersion(r.version)
    ensures r.particleLife.Some? ==> ValidVersion(r.particleLife.value.version)
    ensures r.particles.Some? ==> ValidVersion(r.particles.value.version)
    ensures r.types.Some? ==> ValidVersion(r.types.value.version)
    ensures r.camera.Some? ==> ValidVersion(r.camera.value.version)
    ensures parsed.None? || !ValidVersion(parsed.value.version) ==> r == NewBundle(None, None, None, None)
    ensures parsed.Some? && ValidVersion(parsed.value.version) ==>
      && r.version == parsed.value.version
      && (r.particleLife == Some(parsed.value.particleLife) <==> ValidVersion(parsed.value.particleLife.version))
      && (!ValidVersion(parsed.value.particleLife.version) ==> r.particleLife.None?)
      && (r.particles == Some(parsed.value.particles) <==> ValidVersion(parsed.value.particles.version))
      && (!ValidVersion(parsed.value.particles.version) ==> r.particles.None?)
      && (r.types == Some(parsed.value.types) <==> ValidVersion(parsed.value.types.version))
      && (!ValidVersion(parsed.value.types.version) ==> r.types.None?)
      && (r.camera == Some(parsed.value.camera) <==> ValidVersion(parsed.value.camera.version))
      && (!ValidVersion(parsed.value.camera.version) ==> r.camera.None?)
  {
    match parsed
    case None => NewBundle(None, None, None, None)
    case Some(p) =>
      if !ValidVersion(p.version) then NewBundle(None, None, None, None)
      else
        Bundle(
          p.version,
          if ValidVersion(p.particleLife.version) then Some(p.particleLife) else None,
          if ValidVersion(p.particles.version) then Some(p.particles) else None,
          if ValidVersion(p.types.version) then Some(p.types) else None,
          if ValidVersion(p.camera.version) then Some(p.camera) else None)
  }
}
