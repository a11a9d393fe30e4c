# Particle Life: a verified model of the simulation step, the type table and the save format

This project models the core of a Unity ECS "particle life" simulation:

- **One simulation step** (`common.dfy`, `particle_life_system.dfy`).
  - For each particle, the parallel-for job reads an immutable snapshot of every particle. It sums a constant-magnitude push away from each particle within ten radii. On wrapping axes the displacement is first folded into half the world's extent.
  - The job then moves the particle, scales its velocity by the friction factor and enforces the world bounds axis by axis: fold on a wrapping axis, or clamp and reflect the velocity by `-bounce`.
  - It writes only its own slot of the output buffers.
  - The system caps the step's time by the minimum simulation step rate.
  - The older per-entity job, which only moves, applies friction and bounds, is modelled too.
- **The particle-type table** (`particle_types.dfy`).
  - It holds a colour per type, from an HSV conversion, and three row-major `n*n` matrices: attraction, minimum range and maximum range.
  - It also holds the largest maximum range. The class keeps these as arrays that the methods allocate, fill in place and release.
  - The random draws are inputs, named by the visit and slot they are drawn at.
- **The array codecs** (`serialization_tools.dfy`).
  - Comma-separated invariant decimals.
  - Hex-coded binary words behind an `LE`/`BE` byte-order tag.
  - Dispatch on the encoding type.
  - The wrapper that stores an array with its item count and reads it back only when the count matches.
- **The save bundle** (`serialization.dfy`).
  - The settings and camera records, copied field by field.
  - The type-table record and the particle record. Their `readOut` decode and length-check everything before changing the simulation.
  - The bundle's JSON text assembly, and the nulling of parts with invalid versions after parsing.

Each method that changes state is proved against a specification function, for example:

- `Execute` against `NextState`;
- `SetRandomTypes` against `TypeAttract`, `TypeRangeMin` and `TypeRangeMax`;
- `DecodeBinaryHexWords` against `DecodeHexWords`.

The properties the code promises are proved about those functions: folding into the world, symmetric ranges, round trips of every codec, and rejection before mutation.

Floats are modelled as reals and C# `int` as `Int32`, a subtype of `int` in [-2^31, 2^31). C# `int` arithmetic that can overflow is wrapped explicitly where it matters: the type-table size check, the encoders' string-builder capacities and the capacity `60 + lengths` the bundle writer asks for. The square root, the random generator, float text and bit patterns, the zipped codec and the JSON library are parameters.

## Model

| member | source | states |
|---|---|---|
| ParticleLifeSystem.StepDeltaTime | Assets/Scripts/ParticleLifeSystem.cs:281-289 | the step's time never exceeds the frame time; when the step rate's magnitude exceeds `eps` it is the frame time or `1/|rate|`, whichever is smaller; otherwise it is the frame time |
| ParticleLifeSystem.ConfigureJob | Assets/Scripts/ParticleLifeSystem.cs:281-300 | the scheduled job's step time is `StepDeltaTime` of the configured minimum step rate and the frame time (so no longer than the frame); its corners, friction, wrap flags, bounce, strength and radius are the configured ones; extent = upper − lower corner, half extent = extent/2, `eps` positive |
| ParticleLifeSystem.RaiseToShift | Assets/Scripts/ParticleLifeSystem.cs:195 | the `while (x < lower) x += dim` loop ends at or above `lower`, a whole number of extents later, and without a spare extent |
| ParticleLifeSystem.LowerToShift | Assets/Scripts/ParticleLifeSystem.cs:196 | the `while (x > upper) x -= dim` loop ends at or below `upper`, a whole number of extents earlier, and without a spare extent |
| ParticleLifeSystem.FoldInRange | Assets/Scripts/ParticleLifeSystem.cs:193-197 | when the interval is at least one extent long, the two loops land in `[lower, upper]`, move the value by an integer multiple of the extent, and leave a value already inside untouched |
| ParticleLifeSystem.FoldLoop | Assets/Scripts/ParticleLifeSystem.cs:195-196 | the two while loops compute the fold |
| ParticleLifeSystem.ApplyBounds | Assets/Scripts/ParticleLifeSystem.cs:192-252 | definition of the three bounds regions, x then y then z; its properties are `AxisBound`, `AxisBoundInWorld` and `IntegrateInWorld` |
| ParticleLifeSystem.AxisBound | Assets/Scripts/ParticleLifeSystem.cs:192-252 | the bounds region of one axis changes no position or velocity component of any other axis |
| ParticleLifeSystem.AxisBoundWrapped | Assets/Scripts/ParticleLifeSystem.cs:193-197 | on a wrapping axis with positive extent the coordinate ends inside the world, shifted by a whole number of extents, and the velocity is untouched |
| ParticleLifeSystem.AxisBoundClamped | Assets/Scripts/ParticleLifeSystem.cs:198-210 | on any other axis a coordinate below the world becomes `lower` and one above becomes `upper`, each with that velocity component times `-bounce`; a coordinate inside leaves both unchanged |
| ParticleLifeSystem.AxisBoundInWorld | Assets/Scripts/ParticleLifeSystem.cs:193-210 | with ordered corners every branch of the policy leaves the coordinate inside the world |
| ParticleLifeSystem.BoundAxis | Assets/Scripts/ParticleLifeSystem.cs:193-210 | the region's code on local copies computes the per-axis policy |
| ParticleLifeSystem.Integrate | Assets/Scripts/ParticleLifeSystem.cs:184-252 | definition of move, friction and bounds; `MoveAndBound` computes it, `IntegrateInWorld` and `IntegrateInterior` state what it does |
| ParticleLifeSystem.MoveAndBound | Assets/Scripts/ParticleLifeSystem.cs:184-252 | movement, friction and the x, y, z regions in that order compute `Integrate` |
| ParticleLifeSystem.IntegrateInWorld | Assets/Scripts/ParticleLifeSystem.cs:184-252 | with ordered corners the particle ends inside the world on every axis, for any mix of wrapping and bouncing axes |
| ParticleLifeSystem.IntegrateInterior | Assets/Scripts/ParticleLifeSystem.cs:184-188 | a move that stays inside the world is neither folded nor clamped: position + velocity·dt, velocity·friction |
| ParticleLifeSystem.Displacement | Assets/Scripts/ParticleLifeSystem.cs:156-171 | definition of the folded displacement; `DisplacementFolded` bounds it and `FoldedDisplacement` computes it |
| ParticleLifeSystem.DisplacementFolded | Assets/Scripts/ParticleLifeSystem.cs:157-171 | on a wrapping axis the folded displacement lies in `[-halfDim, +halfDim]`, with `halfDim` half the extent |
| ParticleLifeSystem.FoldedDisplacement | Assets/Scripts/ParticleLifeSystem.cs:156-171 | the displacement code with its three fold loops computes the folded displacement |
| ParticleLifeSystem.PairPush | Assets/Scripts/ParticleLifeSystem.cs:172-179 | definition of one pair's push; `PairPushSkips`, `SelfPairSkipped` and `PushMagnitude` state when it is skipped and its length and direction |
| ParticleLifeSystem.PairPushSkips | Assets/Scripts/ParticleLifeSystem.cs:172-176 | a pair contributes nothing exactly when `r² > (10·radius)²` or `sqrt(r²) < eps` |
| ParticleLifeSystem.SelfPairSkipped | Assets/Scripts/ParticleLifeSystem.cs:172-176 | a particle never pushes itself, since its displacement is zero on every axis, folded or not |
| ParticleLifeSystem.PushMagnitude | Assets/Scripts/ParticleLifeSystem.cs:177-179 | with an exact square root a push has length `|deltaTime·strength|` and points away from the other particle: its dot product with the displacement is `-deltaTime·strength·r` |
| ParticleLifeSystem.PushGeometry | Assets/Scripts/ParticleLifeSystem.cs:177-179 | `diff/r·dt·(-s)` for `r` the length of `diff` has squared length `(dt·s)²` and dot product `-(dt·s)·r` with `diff` |
| ParticleLifeSystem.PushFrom | Assets/Scripts/ParticleLifeSystem.cs:154-179 | one pass of the pair loop yields the push of `PairPush` or skips the pair |
| ParticleLifeSystem.NextState | Assets/Scripts/ParticleLifeSystem.cs:148-254 | definition of one particle's new state from the snapshot; `NextStateInWorld` and `NextStateOrder` state its properties, `Execute` computes it |
| ParticleLifeSystem.Execute | Assets/Scripts/ParticleLifeSystem.cs:141-255 | slot `index` of both output arrays becomes the next state computed from the snapshot alone; every other slot is unchanged |
| ParticleLifeSystem.Step | Assets/Scripts/ParticleLifeSystem.cs:301-312 | running the job once per index, in ascending order, gives each particle its next state from the snapshot |
| ParticleLifeSystem.StepInOrder | Assets/Scripts/ParticleLifeSystem.cs:301-312 | running the job over any sequence of indices that names every index, in any order and with repeats, gives the same result: each particle's next state from the snapshot |
| ParticleLifeSystem.NextStateInWorld | Assets/Scripts/ParticleLifeSystem.cs:192-252 | with ordered corners every particle is inside the world after a step |
| ParticleLifeSystem.NextStateOrder | Assets/Scripts/ParticleLifeSystem.cs:177-188 | pushes are summed into the velocity first, the position advances by that velocity, and only then is friction applied; the type is kept |
| ParticleLifeSystem.ExecuteForEach | Assets/Scripts/ParticleLifeSystem.cs:33-106 | the per-entity job moves, applies friction and bounds with its own extent, keeps the type, and leaves the particle inside the world when the corners are ordered |
| ParticleTypes.Trunc | Assets/Scripts/ParticleTypes.cs:27 | the `(int)` cast truncates toward zero: within one below a non-negative value, within one above a negative one |
| ParticleTypes.CRem | Assets/Scripts/ParticleTypes.cs:36 | C#'s `%` takes the sign of the dividend |
| ParticleTypes.FromHSV | Assets/Scripts/ParticleTypes.cs:25-47 | definition of the conversion; `FromHSVChannels`, `FromHSVGrey` and `SectorOfHue` state its properties |
| ParticleTypes.SectorChannels | Assets/Scripts/ParticleTypes.cs:36-44 | in each of the six sectors the channels lie between `p` and `v`, one channel is `v`, one is `p`, and alpha is 1 |
| ParticleTypes.ConversionChannels | Assets/Scripts/ParticleTypes.cs:29-44 | with `p`, `q`, `t` computed from the sector fraction, every channel lies in `[v(1-s), v]` and both ends are attained |
| ParticleTypes.FromHSVChannels | Assets/Scripts/ParticleTypes.cs:25-47 | for a non-negative hue, saturation in [0, 1] and non-negative value, every channel lies in `[v(1-s), v]`, one equals `v`, one equals `v(1-s)`, and alpha is 1 |
| ParticleTypes.FromHSVGrey | Assets/Scripts/ParticleTypes.cs:25-47 | zero saturation gives the grey `(v, v, v)` for every non-negative hue |
| ParticleTypes.SectorOfHue | Assets/Scripts/ParticleTypes.cs:27-36 | a hue in `[j/6, (j+1)/6)` selects sector `j` |
| ParticleTypes.TypeColor | Assets/Scripts/ParticleTypes.cs:60-63 | definition of type `i`'s colour, hue `i/num` with value 0.5 or 1; `TypeColorSaturated` states its properties |
| ParticleTypes.TypeColorSaturated | Assets/Scripts/ParticleTypes.cs:60-63 | each type's colour is fully saturated: one channel is 0, one is the type's value (0.5 for even, 1 for odd types), none exceeds it |
| ParticleTypes.TypeColors | Assets/Scripts/ParticleTypes.cs:60-63 | the colour loop gives type `i` the colour of hue `i/num` |
| ParticleTypes.Zeros | Assets/Scripts/ParticleTypes.cs:57-59 | a freshly allocated matrix has the requested size and every entry is 0 |
| ParticleTypes.IdxBounds | Assets/Scripts/ParticleTypes.cs:108-109 | `a*n + b` of an entry of an `n*n` matrix is a valid index |
| ParticleTypes.IdxInjective | Assets/Scripts/ParticleTypes.cs:108-109 | distinct entries have distinct row-major indices, so `coord == icoord` only on the diagonal |
| ParticleTypes.TypeAttract | Assets/Scripts/ParticleTypes.cs:110-120 | a type's attraction to itself is never positive |
| ParticleTypes.TypeRangeMin | Assets/Scripts/ParticleTypes.cs:110-124 | definition of the final minimum range of an entry, from the later of its two visits; `TypeRangesShape` states its properties |
| ParticleTypes.TypeRangeMax | Assets/Scripts/ParticleTypes.cs:110-125 | definition of the final maximum range of an entry; `TypeRangesShape` and `TypeRangeMaxBounded` state its properties |
| ParticleTypes.TypeRangesShape | Assets/Scripts/ParticleTypes.cs:110-125 | the final range matrices are symmetric, the minimum range is at least twice the radius (exactly that on the diagonal), and the maximum range is at least the minimum range |
| ParticleTypes.TypeRangeMaxBounded | Assets/Scripts/ParticleTypes.cs:121-123 | with the uniform draws in their intervals, every maximum range is at most the largest of twice the radius and the two upper limits |
| ParticleTypes.RunningMaxIsMax | Assets/Scripts/ParticleTypes.cs:103-127 | the running maximum is the largest maximum range written by the visits so far, counting overwritten ones, or 0 when none is positive |
| ParticleTypes.VisitCells | Assets/Scripts/ParticleTypes.cs:108-125 | one visit sets each entry to the value of the later of its two visits so far |
| ParticleTypes.AfterCells | Assets/Scripts/ParticleTypes.cs:104-129 | after the visits before `(i, k)` every entry holds the value of the later of its own visit and its mirror's, or its starting value |
| ParticleTypes.AllVisited | Assets/Scripts/ParticleTypes.cs:104-129 | once every visit is done the entries are the final attraction and ranges |
| ParticleTypes.VisitPair | Assets/Scripts/ParticleTypes.cs:108-125 | the loop body writes entry `(i, k)` and its mirror as one visit does and reports the maximum range it stored |
| ParticleTypes.VisitStep | Assets/Scripts/ParticleTypes.cs:106-128 | a visit followed by the maximum update keeps the arrays and the running maximum in step with the visits made |
| ParticleTypes.VisitRow | Assets/Scripts/ParticleTypes.cs:106-128 | the inner loop completes row `i` with arrays and maximum in step |
| ParticleTypes.ParticleTypes.constructor | Assets/Scripts/ParticleTypes.cs:9-15 | a new component has no types, no arrays and a zero maximum range |
| ParticleTypes.ParticleTypes.Dispose | Assets/Scripts/ParticleTypes.cs:17-23 | every created array is released and nothing else changes |
| ParticleTypes.ParticleTypes.ReleaseNonEmpty | Assets/Scripts/ParticleTypes.cs:51-54 | exactly the created, non-empty arrays are released |
| ParticleTypes.ParticleTypes.InitParticleTypeArrays | Assets/Scripts/ParticleTypes.cs:49-64 | the count becomes `num`; for `num >= 0` there are `num` colours, each its type's colour, and three fresh zeroed `num*num` matrices; a negative count throws after the release |
| ParticleTypes.ParticleTypes.SetRandomTypes | Assets/Scripts/ParticleTypes.cs:90-130 | with a missing or wrongly sized matrix nothing changes; otherwise every entry gets the value of the later of its two visits, so ranges are symmetric, and the maximum range is the largest written during the loop, bounding every final entry |
| ParticleTypes.ParticleTypes.Finish | Assets/Scripts/ParticleTypes.cs:104-129 | the state after the last row is the final table, with the running maximum bounding every entry |
| ParticleTypes.ParticleTypes.UpdateMaxRangeMax | Assets/Scripts/ParticleTypes.cs:66-88 | with a missing or wrongly sized matrix nothing changes; otherwise the maximum never decreases, bounds every maximum range on or above the diagonal, and is either the old value or one of them |
| ParticleTypes.UpperTriangleBoundsAll | Assets/Scripts/ParticleTypes.cs:79-87 | for a symmetric matrix a bound on the upper triangle bounds every entry |
| SerializationTools.NatDigitsValue | Assets/Scripts/SerializationTools.cs:369 | the decimal digits of a number read back as that number |
| SerializationTools.ParseInt32 | Assets/Scripts/SerializationTools.cs:349 | definition of `Convert.ToInt32` on invariant text; `ParseDecimalString` and `ParseEmpty` state its behaviour |
| SerializationTools.ParseDecimalString | Assets/Scripts/SerializationTools.cs:342-373 | the invariant decimal text of every 32-bit integer contains no comma, and `Convert.ToInt32` reads it back as the same integer |
| SerializationTools.ParseEmpty | Assets/Scripts/SerializationTools.cs:349 | the empty text is not a number: `Convert.ToInt32` throws a format exception |
| SerializationTools.Split | Assets/Scripts/SerializationTools.cs:344 | splitting at commas gives one piece more than there are commas, and no piece contains a comma |
| SerializationTools.SplitJoin | Assets/Scripts/SerializationTools.cs:344 | splitting the comma-joined pieces gives back the pieces |
| SerializationTools.JoinSplit | Assets/Scripts/SerializationTools.cs:344 | joining the pieces of a split gives back the text |
| SerializationTools.ParseAll | Assets/Scripts/SerializationTools.cs:347-350 | when every item parses, there is one value per item, the parse of that item |
| SerializationTools.ParseAllFirstError | Assets/Scripts/SerializationTools.cs:347-350 | a failed decode reports the exception of the first item that does not parse |
| SerializationTools.ParseEach | Assets/Scripts/SerializationTools.cs:345-351 | the decoder's fill loop yields every item's value in order, or throws at the first bad item |
| SerializationTools.DecodeCommaSep | Assets/Scripts/SerializationTools.cs:342-352 | the decimal decoder never returns false: it throws, or returns one value per comma-separated item |
| SerializationTools.DecodeCommaSepDecimals | Assets/Scripts/SerializationTools.cs:342-352 | the split and the fill loop compute `DecodeCommaSep` |
| SerializationTools.AppendItems | Assets/Scripts/SerializationTools.cs:367-371 | the builder loop appends each item's text with a comma between each two and none at the end |
| SerializationTools.EncodeCommaSepDecimals | Assets/Scripts/SerializationTools.cs:364-373 | a negative builder capacity `12n + n - 1`, wrapped as a C# `int`, throws: for the empty array and for arrays long enough to wrap; any other array gives the comma-joined texts |
| SerializationTools.CommaSepRoundTrip | Assets/Scripts/SerializationTools.cs:342-373 | for a non-empty array whose item texts are comma-free and parse back, the text has one comma fewer than items and decodes to the array |
| SerializationTools.HexDigits | Assets/Scripts/SerializationTools.cs:443 | the `X8` text has exactly the width's number of upper-case hexadecimal digits |
| SerializationTools.HexDigitsValue | Assets/Scripts/SerializationTools.cs:443 | the hexadecimal digits of a number below `16^width` read back as that number |
| SerializationTools.ParseHexWord | Assets/Scripts/SerializationTools.cs:397 | definition of `Convert.ToUInt32(text, 16)` on 8 characters; `ParseHexDigits` states that it reads every `X8` text back |
| SerializationTools.ParseHexDigits | Assets/Scripts/SerializationTools.cs:396-397 | `Convert.ToUInt32(text, 16)` reads every word's `X8` text back as the word |
| SerializationTools.EncodeEndianness | Assets/Scripts/SerializationTools.cs:297-300 | definition of the host's tag; `EndiannessRoundTrip` pairs it with `DecodeEndianness` |
| SerializationTools.DecodeEndianness | Assets/Scripts/SerializationTools.cs:301-317 | definition of reading the tag; `EndiannessRoundTrip` and `HexOtherHostFails` state its behaviour |
| SerializationTools.EndiannessRoundTrip | Assets/Scripts/SerializationTools.cs:297-317 | the tag written for a host decodes to that host's byte order, whatever follows it |
| SerializationTools.ToSigned | Assets/Scripts/SerializationTools.cs:420 | reinterpreting a word as `int` keeps its value modulo 2^32 and is negative exactly when the top bit is set |
| SerializationTools.ToUnsigned | Assets/Scripts/SerializationTools.cs:437 | reinterpreting an `int` as a word is its value modulo 2^32, and the two reinterpretations are inverse |
| SerializationTools.HexWordsLength | Assets/Scripts/SerializationTools.cs:440-444 | the word text has 8 characters per word |
| SerializationTools.HexWordsLayout | Assets/Scripts/SerializationTools.cs:440-444 | characters `8i .. 8i+8` of the word text are the `X8` text of word `i` |
| SerializationTools.EncodeBinaryHex | Assets/Scripts/SerializationTools.cs:435-446 | a negative builder capacity `8n`, wrapped as a C# `int`, throws; otherwise the encoder writes the host's tag and then each word's 8 digits: `2 + 8n` characters |
| SerializationTools.ParseWordsValues | Assets/Scripts/SerializationTools.cs:394-398 | when every slice parses there are `n` words, word `i` the parse of characters `2+8i .. 2+8i+8` |
| SerializationTools.ParseWordsPrefixThrows | Assets/Scripts/SerializationTools.cs:394-398 | the first slice that does not parse decides the exception |
| SerializationTools.DecodeHexWords | Assets/Scripts/SerializationTools.cs:377-389 | a missing tag, or a tag for the other byte order, makes the decoder return false |
| SerializationTools.DecodeHexWordsValues | Assets/Scripts/SerializationTools.cs:390-398 | a successful decode yields `(length-2)/8` words, ignoring trailing characters, each the parse of its slice |
| SerializationTools.ParseNextWord | Assets/Scripts/SerializationTools.cs:396-397 | one pass of the decoder's loop extends the words by the next slice's value, or throws |
| SerializationTools.ParseWordsLoop | Assets/Scripts/SerializationTools.cs:394-398 | the decoder's loop parses each slice in turn |
| SerializationTools.DecodeBinaryHexWords | Assets/Scripts/SerializationTools.cs:377-400 | the tag checks and the loop compute `DecodeHexWords` |
| SerializationTools.HexWordsEachParse | Assets/Scripts/SerializationTools.cs:396-397 | each 8-character slice of the encoder's word text parses back to its word |
| SerializationTools.DecodeTagged | Assets/Scripts/SerializationTools.cs:377-400 | the host's tag followed by slices that each parse to a word decodes to those words |
| SerializationTools.HexWordsRoundTrip | Assets/Scripts/SerializationTools.cs:377-446 | the word text decodes, on the same host, to the words written |
| SerializationTools.HexOtherHostFails | Assets/Scripts/SerializationTools.cs:385-389 | text written on one byte order fails to decode on the other |
| SerializationTools.HexRoundTrip | Assets/Scripts/SerializationTools.cs:412-446 | an array whose elements survive reinterpretation decodes back bit for bit on the same host and fails on the other |
| SerializationTools.Encode | Assets/Scripts/SerializationTools.cs:279-293 | definition of the encoder dispatch; `EncodeDecode` and `UnknownEncodingThrows` state its behaviour |
| SerializationTools.Decode | Assets/Scripts/SerializationTools.cs:245-261 | definition of the decoder dispatch; `EncodeDecode` and `UnknownEncodingThrows` state its behaviour |
| SerializationTools.CapacityThresholds | Assets/Scripts/SerializationTools.cs:364-446 | both builder capacities fit for 1 to 165191049 items; the decimal one is negative for 0 and for 165191050 to 330382099 items, the hex one for 2^28 to 2^29 - 1 items |
| SerializationTools.UnknownEncodingThrows | Assets/Scripts/SerializationTools.cs:245-293 | an encoding outside the enumeration throws in both directions |
| SerializationTools.EncodeDecode | Assets/Scripts/SerializationTools.cs:245-293 | decoding with the same encoding what encoding wrote gives the array back, whenever the builder capacity fits and the element codec round-trips it |
| SerializationTools.IntRoundTrips | Assets/Scripts/SerializationTools.cs:342-446 | every `int` array of 1 to 165191049 items round-trips through the decimal and the hex codec |
| SerializationTools.Wrap | Assets/Scripts/SerializationTools.cs:186-195 | the wrapper records the item count and the encoding, and stores "" for an empty array without calling the encoder |
| SerializationTools.ReadOut | Assets/Scripts/SerializationTools.cs:196-205 | `readOut` succeeds only with exactly `NumItems` decoded items |
| SerializationTools.WrapReadOut | Assets/Scripts/SerializationTools.cs:186-205 | a non-empty array stored and read back on the same host is the same array, whenever the builder capacity fits and its codec round-trips it |
| SerializationTools.EmptyNeverReadsBack | Assets/Scripts/SerializationTools.cs:189-205 | a stored empty `int` array never reads back: the decimal codec throws on "" and the hex codec returns false |
| Serialization.FromSettings | Assets/Scripts/Serialization.cs:213-250 | the settings record carries a valid version |
| Serialization.ReadOutSettings | Assets/Scripts/Serialization.cs:251-288 | an invalid version leaves the settings untouched; a valid one copies every field, so writing them again gives the record back |
| Serialization.SettingsRoundTrip | Assets/Scripts/Serialization.cs:213-288 | settings written and read back into any settings object are the settings written, field for field |
| Serialization.FromCamera | Assets/Scripts/Serialization.cs:123-134 | the camera record carries a valid version |
| Serialization.ReadOutCamera | Assets/Scripts/Serialization.cs:135-144 | an invalid version leaves the camera untouched; a valid one applies every recorded value |
| Common.Wrap32 | Assets/Scripts/Serialization.cs:331 | C# `int` arithmetic: the wrapped value differs from the true one by a multiple of 2^32 |
| Serialization.WrappedSizeCheckAdmitsWrongSizes | Assets/Scripts/Serialization.cs:331-335 | the wrapped size check accepts 0 entries for 65536 and -65536 types and 131073 for 65537, which the exact check refuses |
| Serialization.SizeMatchesBounds | Assets/Scripts/Serialization.cs:331-335 | a size that is exactly `numTypes²` and fits an `int` limits the count to 46340 either way, where the wrapped check agrees |
| Serialization.NewSerializeTypes | Assets/Scripts/Serialization.cs:313-323 | the record carries a valid version, the type count, and each of the three stored matrices with its own entry count |
| Serialization.DecodeTypesChecked | Assets/Scripts/Serialization.cs:326-335 | accepted tables have a valid version, pass the size check for each matrix and have each wrapper's item count |
| Serialization.DecodeTypesAsWritten | Assets/Scripts/Serialization.cs:326-335 | as written, accepted tables have a valid version and as many entries as the wrapped product `numTypes * numTypes`, which need not be the square |
| Serialization.DecodeTypes | Assets/Scripts/Serialization.cs:326-335 | with the exact size check every accepted matrix has `numTypes²` entries and the count is at most 46340 either way |
| Serialization.AsWrittenAcceptsEmptyTables | Assets/Scripts/Serialization.cs:326-335 | a record of 65536 types with three empty hex matrices passes the size checks as written and is refused by the exact check |
| Serialization.ReadMatrixOfWrap | Assets/Scripts/Serialization.cs:330-335 | a stored matrix of `numTypes²` entries reads back as itself and passes the check |
| Serialization.TypesRoundTrip | Assets/Scripts/Serialization.cs:313-335 | a ready type table written and decoded on the same platform gives back its three matrices |
| Serialization.CopyFrom | Assets/Scripts/Serialization.cs:340-342 | the destination array holds the source's entries |
| Serialization.ReadOutTypes | Assets/Scripts/Serialization.cs:324-349 | unless the version and all three decoded sizes pass (exact check), nothing changes and the result is false or the exception; a negative count throws after releasing the non-empty arrays; otherwise the settings get the count, the table is reallocated with each type's colour and holds the three matrices verbatim, and the maximum range never decreases and bounds the upper triangle |
| Serialization.WrapAll | Assets/Scripts/Serialization.cs:420-426 | storing the float arrays gives one wrapper per array |
| Serialization.RecordOf | Assets/Scripts/Serialization.cs:419-426 | the particle record carries a valid version and the entity count |
| Serialization.SplitColumns | Assets/Scripts/Serialization.cs:400-417 | entity `i`'s type, position, velocity and scale go to entry `i` of the eight arrays |
| Serialization.ParticleWorld.constructor | Assets/Scripts/Serialization.cs:382-384 | the world holds the given translations, particle components and scales |
| Serialization.ParticlesRecord | Assets/Scripts/Serialization.cs:386-426 | definition of the record built from the first `n` entities, `n` the shortest component count; `NewSerializeParticles` computes it and `ParticlesRoundTrip` reads it back |
| Serialization.NewSerializeParticles | Assets/Scripts/Serialization.cs:378-438 | the entity count is the shortest of the three component arrays, and the record stores the columns of that many entities |
| Serialization.ReadColumns | Assets/Scripts/Serialization.cs:457-476 | accepted float arrays have exactly `numParticles` entries each |
| Serialization.DecodeParticles | Assets/Scripts/Serialization.cs:439-476 | accepted records have a valid version and eight arrays of `numParticles` entries |
| Serialization.WrapAllReadColumns | Assets/Scripts/Serialization.cs:420-476 | stored float arrays of one length read back as themselves |
| Serialization.RecordParts | Assets/Scripts/Serialization.cs:419-426 | the record holds the stored type array and the seven stored float arrays in column order |
| Serialization.DecodeParticlesAccepts | Assets/Scripts/Serialization.cs:441-476 | a valid version with every array reading back at `numParticles` entries is accepted with those arrays |
| Serialization.RecordRoundTrip | Assets/Scripts/Serialization.cs:378-476 | columns written and decoded on the same platform come back unchanged |
| Serialization.ParticlesRoundTrip | Assets/Scripts/Serialization.cs:378-476 | the first `n` entities, `n` the shortest component count, written and decoded come back as their columns |
| Serialization.BuildEntities | Assets/Scripts/Serialization.cs:481-500 | entity `i` is rebuilt with position `(x[i], y[i], z[i])`, type `types[i]`, velocity `(vx[i], vy[i], vz[i])` and scale `scale[i]` |
| Serialization.ReadOutParticles | Assets/Scripts/Serialization.cs:439-521 | unless every check passes, the world is untouched and the result is false or the exception; otherwise the world holds exactly `numParticles` entities rebuilt from the arrays |
| Serialization.NewBundle | Assets/Scripts/Serialization.cs:22-29 | the bundle carries the current version and the parts as given |
| Serialization.BundleText | Assets/Scripts/Serialization.cs:63-108 | definition of the bundle object text; `BundleTextShape` states its shape and `ToJson` computes it |
| Serialization.BundleTextShape | Assets/Scripts/Serialization.cs:63-108 | the text is "" exactly when all four part texts are empty; otherwise it starts with `{"version":` and the version and ends with `}` |
| Serialization.AppendMember | Assets/Scripts/Serialization.cs:82-105 | a non-empty part appends `,"key":` and its text; an empty one appends nothing |
| Serialization.ToJson | Assets/Scripts/Serialization.cs:63-108 | "" when every part's text is empty; otherwise throws `ArgumentOutOfRangeException` when the builder capacity `60 + lengths` wraps negative in C# `int`, and else returns the bundle object: the version, then each non-empty part in the order particleLife, particles, types, camera |
| Serialization.BundleCapacityThresholds | Assets/Scripts/Serialization.cs:74-78 | the bundle builder's capacity is non-negative while the parts total fewer than 2^31 − 60 characters and negative from there to 2^32 − 60 |
| Serialization.FromJson | Assets/Scripts/Serialization.cs:30-61 | a missing or invalid bundle becomes an empty one with the current version; otherwise each part is kept exactly when its own version is valid and is `None` when it is not, so every part returned has a valid version |

## Left out

- Engine and I/O calls are not modelled: logging, `NativeArray` allocation and `Dispose`, material generation, `clearParticles`/`addParticles`, and copying to and from the ECS query. The ECS data is sequences: `ParticleWorld` stands for the entity query.
- The parallel-for job runs as a sequential loop over the indices against one snapshot. Scheduling, batch sizes and thread safety are not modelled.
- Step: the job runs once per snapshot entry. The source schedules `entities.Length` indices, which is assumed to match the query's length.
- Execute: requires the snapshot and the output arrays to have one length. The source fills all four from one query, and with different lengths it would index out of range.
- Floats are reals. Rounding, NaN, infinities and wrap loops that fail to make progress on huge values are not modelled.
- The square root is a parameter `sqrt`.
  - PushMagnitude assumes it is exact on the displacement.
  - SelfPairSkipped assumes `sqrt(0) = 0`.
- The random generator (`RandomTools.nextGaussianFloat`, `Random.Range`) is an oracle `RandomDraws` indexed by visit and slot. Its sampling and the order of its calls are not modelled.
- InitParticleTypeArrays: requires `|num| <= 46340`, so `num * num` fits an `int`. The source's wrapped allocation sizes for larger counts are not modelled, and `Valid()` keeps the stored count in that range.
- Float decimal text (`G9`, `Convert.ToSingle`) and float bit patterns (`Reinterpret<float>`) are parameters of the float codecs. Only their round-trip assumption is used.
- The base64-of-gzip codec and `GZipper` are parameters `ZippedCodec`.
- `StartsWith("LE")` is culture-sensitive in .NET. It is modelled as an ordinal two-character prefix.
- The `uint` and `float` decimal overloads share the generic comma codec. Only the `int` element codec (`IntCodecs`) is spelled out.
- `Convert.ToInt32`'s grammar is modelled as optional white space, an optional sign, digits and optional white space. Other .NET white-space characters, and the trailing NUL it tolerates, are not modelled.
- JSON text is produced and parsed by `JsonUtility`. `ToJson` takes each part's text from a `JsonWriter` parameter, and `FromJson` takes the parsed bundle as input. `SerializeNativeArray<T>` and `SerializeGenericNativeArray` are JSON-only and not modelled.
- `SerializeCamera.FromJson` parses a settings record, not a camera record. Only the camera constructor and `readOut` are modelled.
- `UpdateFromCurrentCamera` after the camera's `readOut` is engine code.
- ReadOutTypes: uses the exact size check `numTypes² == length` where the source compares the wrapped C# product. A record the wrapped check admits, for example 65536 types with three empty matrices, makes the source reallocate the table for 65536 types; the model returns false and changes nothing (see Findings).
- `StringBuilder` growth past the capacity it was given, and the .NET limit on string length, are not modelled: only a negative initial capacity throws.
- The decoders reuse the caller's array when its length matches. The model returns a fresh sequence, so that reuse and the aliasing it allows are not modelled.

## Findings

| source | as written | input that shows it | evidently intended | confidence | as-written member | corrected member |
|---|---|---|---|---|---|---|
| Assets/Scripts/Serialization.cs:331-335 | the size checks compare `numTypes * numTypes`, a 32-bit product that wraps, with each matrix's length | a type record of version 1 with `numTypes = 65536` and three empty hex-coded matrices (`"LE"` on a little-endian host): 65536² wraps to 0, so all checks pass and `initParticleTypeArrays(65536)` follows with 65536 colours and empty matrices | accept only matrices with exactly `numTypes²` entries, which bounds the count by 46340 | medium, not executed | Serialization.AsWrittenAcceptsEmptyTables | Serialization.DecodeTypes |
