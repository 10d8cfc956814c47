# A verified model of a small path tracer's core

This project models the logic underneath a small C++ path tracer:

- the indentation-aware tokenizer of its pbrt-like scene format and the list
  scanning of its parser (`include/pbrt.h`);
- the attribute helpers of its Mitsuba XML reader, in the version in use
  (`scene_parser.cpp`) and in the older version with registries
  (`backup/scene_parser.cpp`);
- the 64-pixel tile partition, the per-tile box average and the copy back
  into the row-major film (`renderer.cpp`), and the sequential renderer
  (`function.cpp`);
- the nearest-hit search per mesh and per scene, the Möller–Trumbore
  ray/triangle test in its `float` and `double` copies, triangle point
  sampling, the mesh density and the material dispatch (`data.cpp`,
  `util.cpp`, `backup/util.cpp`);
- the integrators' control flow (`backup/integrator.cpp`), the hemisphere
  densities and samplers (`sampling.cpp`, `backup/sampling.cpp`), the scene
  records (`scene_data.h`), the three vector libraries (`vec.h`,
  `src/math.h`, `backup/vec2.h`) and the clamp-and-quantise loop of
  `main.cpp`.

Floating-point numbers are reals. `sqrt`, `sin` and `cos` are the fields of a
`Libm` record passed in as a parameter: a lemma that needs a fact about them
states that fact as a precondition (`SqrtNonNegative`, `SqrtExactAt`). The
triangle test inside the hit searches is an `Intersector` parameter, so that the
`float` and `double` copies both plug in. Random draws are parameters. What
the camera and the integrator bring back for a pixel sample is a
`Radiance` function of the pixel and the sample number. π is a parameter of
the sampling densities.

`data.h` and `backup/scene_data.h` repeat the records of `scene_data.h`
with `float` and `vec3f` components. The records themselves are modelled
after `scene_data.h`, and the copies differ from it: `backup/scene_data.h`
has the same fields, but `data.h`'s `Scene` (data.h:117-127) holds only the
meshes, the bounce budget and the sample count (no camera, integrator,
width or height), and its `HitRecord` (data.h:55-60) has no `is_inside`.
Over reals the operations `Ray::at`, `Mesh::area`, `Film::set` and
`Scene::add` coincide in all three, so the members of `SceneData` model
them for all three. Their lines are `Ray::at` data.h:20 and
backup/scene_data.h:18; `Mesh::area` data.h:67-76 and
backup/scene_data.h:66-75; `Film::set` data.h:99-101 and
backup/scene_data.h:98; `Scene::add` data.h:122 and backup/scene_data.h:123.
The two hemisphere modules are the same: backup/sampling.cpp:4-25 holds the
functions of sampling.cpp:5-26, with the `float` constant `pif` in place of
`glm::pi<double>()` (both write the uniform density as `0.5 / π`).
The backup tokenizer, reference, integer, float, transform, film and rgb
parsers (backup/scene_parser.cpp:16-147, 196-205) are the ones of
scene_parser.cpp with `parse_reference_key` reading a named attribute; the
`Mitsuba` module models both.

Modules, in dependency order:

| module | models |
|---|---|
| `Wrappers`, `Numerics` | `Option`/`Result`, `Libm`, the epsilons |
| `VectorMath` | `Flow::Vec2f`/`Vec3f`/`Vec4f` of src/math.h and `vec2f` of backup/vec2.h |
| `CVec` | the `vec2f_*`/`vec3f_*` loops of vec.h over fixed-length sequences |
| `PbrtLexer`, `PbrtLexerProperties` | `Tokenizer` of include/pbrt.h: a class whose `Tokenize` runs the loop, proved against the step function `Step`/`Run` |
| `PbrtParser` | `Parser::parse_type_and_key`, `parse_unknown_values`, `parse_values` |
| `Xml` | the node queries of the XML library, over records of name, attribute map and children |
| `MitsubaTokenize`, `Mitsuba` | `tokenize` and the attribute parsers shared by both readers |
| `MitsubaLive` | `parse_integrator` and the global `load_scene` of scene_parser.cpp |
| `MitsubaRegistry`, `MitsubaRegistryProperties` | the registries of backup/scene_parser.cpp as a class |
| `SceneData` | `Ray`, `Mesh`, `Film` and `Scene` |
| `RayTriangle` | `ray_triangle_intersect`, both copies |
| `Sampling`, `Materials` | hemisphere densities and samplers, material dispatch |
| `MeshHit`, `SceneHit` | `Mesh::hit`/`hit_p`/`sample_point`/`pdf`, `Scene::hit`/`hit_p` |
| `Integrator` | the integrators of backup/integrator.cpp |
| `PixelAverage`, `FilmRender`, `Renderer` | the per-pixel average, function.cpp's `render`, renderer.cpp's `render` |
| `Quantize` | the byte conversion of main.cpp |

## Model

| member | source | states |
|---|---|---|
| PbrtLexer.CountWhile | include/pbrt.h:138-146 | the count is at least the offset; every character from `position + offset` up to `position + count` satisfies the predicate; the count stops at the end of the source or at the first character that fails it |
| PbrtLexer.Tokenizer.PeekWhile | include/pbrt.h:138-146 | the scanning loop returns exactly `CountWhile` from the cursor and leaves the cursor where it was |
| PbrtLexer.AdjustIndent | include/pbrt.h:58-77 | at a line start the cursor moves past exactly the line's leading spaces |
| PbrtLexer.Step | include/pbrt.h:56-130 | one pass of the main loop succeeds exactly when the character under the cursor is one the lexer accepts; on success the position strictly grows; on failure the error names that position and character |
| PbrtLexer.Dispatch | include/pbrt.h:79-129 | the character switch accepts exactly the lexable characters and always advances past a non-space; a failure reports the position and the character |
| PbrtLexer.Tokenizer.constructor | include/pbrt.h:47-48 | a new tokenizer holds the source with position, row and column at zero |
| PbrtLexer.Tokenizer.IndentBlock | include/pbrt.h:58-77 | the in-place indentation block leaves the fields, the tokens and the level that `AdjustIndent` and the Indent/Dedent run computes |
| PbrtLexer.Tokenizer.SkipSpacesAt | include/pbrt.h:88-91 | the space branch moves cursor and column past the run of spaces |
| PbrtLexer.Tokenizer.ScanRunAt | include/pbrt.h:92-97 | the identifier and number branches append the maximal run as one token and move past it |
| PbrtLexer.Tokenizer.ScanStringAt | include/pbrt.h:108-114 | the string branch appends the text after the quote up to the next quote and moves past the closing quote |
| PbrtLexer.Tokenizer.DispatchOn | include/pbrt.h:79-129 | the in-place switch ends in the state `Dispatch` computes, or fails with its error |
| PbrtLexer.Drain | include/pbrt.h:131-134 | the closing loop appends exactly one Dedent per open indentation level |
| PbrtLexer.Tokenizer.Tokenize | include/pbrt.h:50-136 | the whole loop returns the tokens of `Run` followed by the closing dedents, or the first unexpected character as an error |
| PbrtLexerProperties.IndentTokensEffect | include/pbrt.h:63-76 | going from level `from` to `to` emits exactly `to - from` Indents or `from - to` Dedents and leaves the running depth at `to`, never negative |
| PbrtLexerProperties.StepKeepsConsistent | include/pbrt.h:56-130 | every successful step keeps the invariant: indent level equals Indents minus Dedents, and no prefix has more Dedents than Indents |
| PbrtLexerProperties.RunKeepsConsistent | include/pbrt.h:56-130 | the whole loop keeps that invariant |
| PbrtLexerProperties.LexBalanced | include/pbrt.h:131-134 | after the final drain the token stream has as many Dedents as Indents and the running depth never went negative |
| PbrtLexerProperties.IndentationLevel | include/pbrt.h:58-77 | at a line start outside a list the new level is the leading spaces divided by 4, with exactly the difference emitted as Indents or Dedents |
| PbrtLexerProperties.UnindentedLineDedentsFully | include/pbrt.h:58-69 | a line that starts without a space drops the level to zero with one Dedent per old level |
| PbrtLexerProperties.BlankLine | include/pbrt.h:58-87 | an empty line at a line start closes every open level and emits one NewLine |
| PbrtLexerProperties.RowsAndNewLines | include/pbrt.h:79-87 | a newline character increments the row and resets the column; NewLine is emitted only outside a list; no other character changes the row |
| PbrtLexerProperties.NothingStructuralInList | include/pbrt.h:58-107 | inside `[ ... ]` a step emits no Indent, Dedent or NewLine and keeps the level |
| PbrtLexerProperties.IdentifierIsMaximal | include/pbrt.h:92-97 | an Identifier starts with a letter, is a maximal run of letters and digits, and the cursor moves past it |
| PbrtLexerProperties.NumberIsMaximal | include/pbrt.h:115-124 | a Number starts with `-` or a digit, holds only digits, `.`, `-` and `e`, and is maximal |
| PbrtLexerProperties.StringLiteralExtent | include/pbrt.h:108-114 | a StringLiteral is the quote-free text after the opening quote up to the next quote, and the cursor ends past that closing quote (one past the end when none closes it) |
| PbrtLexerProperties.StepWellFormed | include/pbrt.h:79-129 | every token a step appends has the shape its kind promises |
| PbrtLexerProperties.RunWellFormed | include/pbrt.h:56-130 | every token of the loop has that shape |
| PbrtLexerProperties.LexWellFormed | include/pbrt.h:50-136 | every token of a successful tokenization has that shape |
| PbrtLexerProperties.RunFailsAtUnexpected | include/pbrt.h:125-129 | a failing loop names a position inside the source holding a character the lexer rejects |
| PbrtLexerProperties.RunSucceedsOnLexable | include/pbrt.h:56-130 | a source of lexable characters always tokenizes: the loop terminates without error |
| PbrtLexerProperties.LexFailure | include/pbrt.h:125-129 | a failure names a position holding a character the lexer rejects, such as a tab or a carriage return, and a source made only of lexable characters always tokenizes |
| PbrtParser.FindSpace | include/pbrt.h:439 | the first space at or after the start, or none when there is none |
| PbrtParser.SplitTypeAndKeyRoundTrip | include/pbrt.h:437-444 | type and key rejoined with a space give the value back and the type holds no space; with no space at all both type and key are the whole value |
| PbrtParser.Parser.constructor | include/pbrt.h:241 | a new parser reads the given tokens from position zero |
| PbrtParser.Parser.ParseTypeAndKey | include/pbrt.h:437-444 | the current token's value split at its first space, with the position advanced by exactly one; out of range is an error |
| PbrtParser.ListValues | include/pbrt.h:555-572 | a successful scan ends past its start, within the tokens, with one value per token it passed before the bracket |
| PbrtParser.ListValuesMeaning | include/pbrt.h:555-572 | the scan stops at the first ListEnd, gives the converted values of the tokens before it in order, and fails exactly when no ListEnd follows, with the error at the end of the tokens |
| PbrtParser.Parser.ParseUnknownValues | include/pbrt.h:555-572 | the scanning loop returns `ListValues` after the opening bracket and leaves the position after the closing one |
| PbrtParser.Parser.ParseValues | include/pbrt.h:574-592 | the fixed-length loop converts the next `n` tokens whatever their kind and skips one more, the closing bracket of a well-formed list; running out of tokens is an error |
| PbrtParser.ListValuesOfFixedList | include/pbrt.h:555-592 | on a list of `n` values closed by `]` the open-ended scan succeeds, ends after the bracket and yields the `n` converted tokens in order, the values `ParseValues` returns for `n` |
| MitsubaTokenize.FindFirstOf | scene_parser.cpp:22-32 | the first index at or after the start holding a delimiter, or none |
| MitsubaTokenize.Tokenize | scene_parser.cpp:19-37 | the loop returns exactly the field split `SplitFrom` of the input |
| MitsubaTokenize.PushField | scene_parser.cpp:26-30 | one pass appends the field the split emits at that position |
| MitsubaTokenize.TokensHaveNoDelimiter | scene_parser.cpp:19-37 | no token contains a delimiter character |
| MitsubaTokenize.SplitWithEmptyRoundTrip | scene_parser.cpp:22-36 | keeping empty fields, there is one token more than delimiters and rejoining them with the original delimiters gives the input back |
| MitsubaTokenize.TokensNonEmpty | scene_parser.cpp:27-28 | the corrected split never yields an empty token |
| MitsubaTokenize.TokensAreNonEmptyFields | scene_parser.cpp:19-37 | the corrected split is the delimiter-free fields of the input, in order, without the empty ones |
| MitsubaTokenize.TokenizeIsTokensPlusTrailingEmpty | scene_parser.cpp:26-34 | the split as written is the corrected one plus one empty token when the input ends in a delimiter or is empty |
| MitsubaTokenize.TokenizeYieldsEmptyToken | scene_parser.cpp:26-30 | as written `"a,"` gives `["a", ""]` and `""` gives `[""]`; the corrected split gives `["a"]` and `[]` |
| Mitsuba.ParseReferenceKey | backup/scene_parser.cpp:50-59 | the suffix after `$` exactly when the named attribute is non-empty and starts with `$`, and nothing otherwise |
| Mitsuba.ParseInteger | scene_parser.cpp:62-74 | a tag other than `integer` fails; a `$key` present in the table gives its entry, an absent one fails; otherwise the literal converted |
| Mitsuba.ParseFloat | scene_parser.cpp:48-51 | succeeds exactly on a `float` tag, with the converted value |
| Mitsuba.ParseFileFormat | scene_parser.cpp:104-111 | accepts exactly a `string` tag with value `openexr` |
| Mitsuba.ParsePixelFormat | scene_parser.cpp:113-120 | accepts exactly a `string` tag with value `rgb` |
| Mitsuba.ParseFilterType | scene_parser.cpp:122-129 | accepts exactly the type `tent` |
| Mitsuba.ConvertTokens | scene_parser.cpp:86-88 | succeeds exactly when there are at least `n` tokens, giving the first `n` converted in order |
| Mitsuba.ValuesOf | scene_parser.cpp:80-88 | the first `n` tokens of the text, converted, or the missing-token error |
| Mitsuba.TransformOf | scene_parser.cpp:76-90 | a transform yields 16 values, read from its `matrix` child |
| Mitsuba.ParseTransform | scene_parser.cpp:76-90 | the loop computes `TransformOf` |
| Mitsuba.RgbOf | scene_parser.cpp:187-196 | an `rgb` node yields 3 values from its `value` attribute |
| Mitsuba.ParseRgb | scene_parser.cpp:187-196 | the loop computes `RgbOf` |
| Mitsuba.ParseFilm | scene_parser.cpp:131-148 | the loop over the children computes the fold `FilmOf` |
| Mitsuba.FilmFoldAppend | scene_parser.cpp:134-146 | the children are processed in order: folding a concatenation folds the parts one after the other |
| Mitsuba.LastWidthWins | scene_parser.cpp:134-136 | a later `width` child overrides every earlier one |
| Mitsuba.NonTentFilterFails | scene_parser.cpp:143-144 | an `rfilter` child of any type but `tent` fails the whole film |
| Mitsuba.ValuesAgreeWithCorrectedTokens | scene_parser.cpp:80-88 | when the text has enough non-empty fields, the values read through the split as written are those of the corrected split |
| MitsubaLive.ParseIntegrator | scene_parser.cpp:150-165 | a non-`$` value and an absent key fail; otherwise the stored entry comes back unchanged, since the parsed depth goes to a local copy, and a failing `max_depth` fails the call |
| MitsubaLive.LoadScene | scene_parser.cpp:259-289 | always reports success; the scene's settings are those the fold over the `<default>` entries computes with the `strcmp` test as written, so a non-`path` integrator value selects the path integrator; the meshes are untouched |
| MitsubaLive.SceneFoldAppend | scene_parser.cpp:267-287 | children are processed in document order, for the code as written and for the corrected test |
| MitsubaLive.LastDefaultDecides | scene_parser.cpp:269-283 | the last `spp`, `resx`, `resy` or `max_depth` entry sets samples, width, height or bounces, cut to the field's 16-bit type; a last integrator entry leaves the path integrator exactly when it selects it (a non-`path` value as written, `path` as meant) or the integrator already was the path one |
| MitsubaLive.IntegratorDefaultIsInverted | scene_parser.cpp:271-274 | for every integrator entry and every state, the step as written selects the path integrator exactly on a non-`path` value and otherwise changes nothing, while the corrected step does so exactly on `path`; so `value="path"` keeps a normal integrator as written |
| MitsubaLive.IntegratorOfFold | scene_parser.cpp:267-287 | a load ends on the path integrator exactly when some `<default>` integrator entry selects it, or when the scene started on it: no other entry touches the integrator |
| MitsubaLive.FoldsAgreeButIntegrator | scene_parser.cpp:267-287 | the code as written and the corrected code load the same sample count, size and bounce budget |
| MitsubaLive.IntegratorDefaultSelectsPath | scene_parser.cpp:271-274 | the corrected entry selects the path integrator exactly when its value is `path`, and changes no other field |
| MitsubaRegistry.ParseSampler | backup/scene_parser.cpp:91-101 | succeeds only on a `sampler` tag; the sample count is the `sample_count` integer child; the kind is independent exactly for type `independent` |
| MitsubaRegistry.CameraOf | backup/scene_parser.cpp:166-194 | only a `sensor` succeeds; a non-perspective sensor leaves the camera unset |
| MitsubaRegistry.ParseCamera | backup/scene_parser.cpp:166-194 | the loop over the children computes `CameraOf` |
| MitsubaRegistry.Registry.constructor | backup/scene_parser.cpp:12-15 | the registries start empty |
| MitsubaRegistry.Registry.ParseIntegrator | backup/scene_parser.cpp:149-164 | the registries and the result after the call are those `IntegratorStep` computes from the registries before it |
| MitsubaRegistry.Registry.ParseBsdf | backup/scene_parser.cpp:207-226 | the registries and the result are those of `BsdfStep` |
| MitsubaRegistry.Registry.ParseShape | backup/scene_parser.cpp:228-245 | the loop over the children computes `ShapeOf` against the BSDF registry |
| MitsubaRegistry.Registry.LoadScene | backup/scene_parser.cpp:247-281 | the registries and the result are those of `LoadSceneOf` |
| MitsubaRegistry.Registry.LoadChild | backup/scene_parser.cpp:257-279 | one child of `<scene>` updates the registries and the scene as `LoadStep` says |
| MitsubaRegistryProperties.StepExtends | backup/scene_parser.cpp:257-279 | one child only adds registrations: integers and BSDFs keep their values and no integrator disappears |
| MitsubaRegistryProperties.LoadKeepsFirstRegistrations | backup/scene_parser.cpp:257-279 | over the whole document, failing or not, the first registration of an integer or a BSDF wins |
| MitsubaRegistryProperties.ShapesAppendedInOrder | backup/scene_parser.cpp:276-277 | the scene's shapes are one per `<shape>` child, in document order |
| MitsubaRegistryProperties.LoadFailureAndPathDefault | backup/scene_parser.cpp:250-268 | a failed load returns nothing and changes no registry; a `path` integrator default registers a PATH integrator under `integrator` unless one is there; other defaults register their integer under their name unless already registered |
| MitsubaRegistryProperties.IntegratorUpdatedInPlace | backup/scene_parser.cpp:151-163 | the parsed depth is written into the stored entry, so the registry and the result both carry it |
| MitsubaRegistryProperties.IntegratorVersionsDiffer | scene_parser.cpp:150-165 | where the backup version returns an updated entry, the version in use returns the old one |
| MitsubaRegistryProperties.BsdfRegistration | backup/scene_parser.cpp:207-226 | a BSDF is registered under its id unless the id is taken; it is two-sided exactly for type `twosided`; it has a reflectance exactly when the first grandchild is named `reflectance`, read from that node; the other tables are unchanged |
| MitsubaRegistryProperties.UnregisteredBsdfFails | backup/scene_parser.cpp:240-242 | a shape that refers to an unregistered BSDF id fails |
| CVec.Cross | vec.h:142-148 | the cross product is orthogonal to both arguments |
| CVec.Add | vec.h:39-45 | the loop adds component by component |
| CVec.Sub | vec.h:47-53 | the loop subtracts component by component |
| CVec.Scale | vec.h:55-61 | the loop scales every component |
| CVec.Dot | vec.h:63-69 | the loop sums the component products |
| CVec.Min | vec.h:81-91 | the loop takes the smaller component |
| CVec.Max | vec.h:93-103 | the loop takes the larger component |
| CVec.Normalize | vec.h:75-79 | the assertion fails exactly when the length is at most `FLOAT_EPSILON`; otherwise the vector is scaled by the inverse length |
| CVec.SumDifferenceCancel | vec.h:39-53 | subtracting what was added gives the vector back, and the other way round |
| CVec.DotSymmetric | vec.h:63-69 | the dot product is symmetric |
| CVec.Length2NonNegative | vec.h:71 | the squared length is never negative |
| CVec.DotScaled | vec.h:55-69 | scaling one argument scales the dot product |
| CVec.DotSum | vec.h:39-69 | the dot product distributes over addition |
| CVec.NormalizedUnit | vec.h:154-158 | with an exact square root the normalised vector has unit length |
| CVec.MinMax | vec.h:81-103 | min is at most max in every component; min plus max is the sum; both are idempotent and symmetric |
| CVec.DotAndSumAgreeWithVec3 | vec.h:110-140 | the loops agree with the closed-form `Vec3f` dot product and sum |
| CVec.CrossAgreesWithVec3 | vec.h:142-148 | the C cross product agrees with `Vec3f::cross` |
| VectorMath.Vec2.Length2 | src/math.h:23 | the squared length is never negative |
| VectorMath.Vec2.Normalize | src/math.h:27-31 | the assertion fails exactly when the length is at most epsilon; otherwise the result times the length is the vector |
| VectorMath.Vec3.Cross | src/math.h:113-115 | the cross product is orthogonal to both arguments |
| VectorMath.Vec3.Reflect | src/math.h:83-85 | for a unit normal the reflected direction has the opposite normal component |
| VectorMath.Vec3.Length2 | src/math.h:91 | the squared length is never negative |
| VectorMath.Vec3.Normalize | src/math.h:95-102 | the assertion fails exactly when the length is at most epsilon; otherwise the result times the length is the vector |
| VectorMath.Vec3.Abs | src/math.h:106 | every component is non-negative and the length is kept |
| VectorMath.Vec3.IsNearZero | src/math.h:108-111 | a near-zero vector has squared length below three squared epsilons |
| VectorMath.Normalized | src/math.h:95-102 | the normalisation the shading code uses has unit length under an exact root and never points away from the input |
| VectorMath.MutableVec3.constructor | src/math.h:56-79 | a mutable vector starts at the given value |
| VectorMath.MutableVec3.AddAssign | src/math.h:74-79 | `+=` adds the right-hand side in place and returns the same object |
| VectorMath.Vec3AddSubCancel | src/math.h:58-64 | `(a + b) - b = a`, `(a - b) + b = a`, and adding the negation is subtracting |
| VectorMath.Vec2AddSubCancel | backup/vec2.h:29-35 | `(a + b) - b = a` and `(a - b) + b = a` |
| VectorMath.Vec2ScaleDivCancel | backup/vec2.h:37-39 | dividing by a non-zero scalar undoes scaling by it |
| VectorMath.CrossSelfAndSwap | src/math.h:113-115 | `a × a = 0` and swapping the arguments negates the cross product |
| VectorMath.NormalizeUnit | src/math.h:95-102 | a normalised `Vec3f` has unit length under an exact square root |
| VectorMath.Vec2NormalizeUnit | backup/vec2.h:23-27 | a normalised `vec2f` has unit length under an exact square root |
| VectorMath.MeanAndVec4Dot | src/math.h:104-141 | the mean of three equal components is that component; `Vec4f::dot` is the dot of the `to_vec3` parts plus `w·w'` |
| SceneData.ToU16 | scene_data.h:99-100 | the `uint16_t` conversion is the value modulo 2^16, exact in range |
| SceneData.ToI16 | scene_data.h:126-127 | the `int16_t` conversion is the value modulo 2^16, exact in range |
| SceneData.Ray.At | scene_data.h:21 | the point minus the origin is the direction times `t`; at 0 it is the origin |
| SceneData.Mesh.AreaSum | scene_data.h:70-79 | the running sum is never negative when the square root is not, and is 0 before any triangle |
| SceneData.Mesh.Area | scene_data.h:70-79 | the loop returns half the sum of the doubled triangle areas, never negative, 0 for no indices |
| SceneData.Film.constructor | scene_data.h:97-105 | a film starts with the given size and an empty buffer |
| SceneData.Film.Set | scene_data.h:102-104 | writes the colour at `y·width + x` and changes nothing else |
| SceneData.PixelIndex | scene_data.h:102-104 | a row-major index of an in-range pixel is below `width·height` |
| SceneData.Resize | function.cpp:11 | resizing keeps the common prefix and fills the rest with black |
| SceneData.WriteKeepsOtherPixels | scene_data.h:102-104 | a write at one pixel leaves every other pixel as it was |
| SceneData.PixelIndexInjective | scene_data.h:102-104 | distinct in-range pixels have distinct row-major indices |
| SceneData.Scene.constructor | scene_data.h:120-130 | a scene starts with no meshes and the normal integrator |
| SceneData.Scene.Add | scene_data.h:129 | appends the mesh: one more mesh, earlier ones unchanged, other fields kept |
| RayTriangle.Barycentric | util.cpp:14-26 | a distance exactly when the barycentric coordinates lie in the triangle; true exactly for a non-zero distance |
| RayTriangle.IntersectFloat | util.cpp:3-27 | false for `|a| < 1e-5` or a point outside the triangle, with no distance written; otherwise the distance `f·(e2·q)` and true exactly when it is non-zero |
| RayTriangle.IntersectDouble | backup/util.cpp:3-27 | the same with the parallel test `|a| < 1e-4` |
| RayTriangle.HitBehindOrigin | util.cpp:25-26 | a hit behind the origin still returns true with its negative distance |
| RayTriangle.CopiesAgreeAwayFromParallel | backup/util.cpp:10-13 | away from the parallel band the two copies give the same answer |
| Sampling.UniformPdf | sampling.cpp:12-14 | `1/(2π)` when `n·d > 0`, and 0 exactly otherwise |
| Sampling.CosinePdf | sampling.cpp:23-26 | never negative and 0 exactly when `n·d ≤ 0` |
| Sampling.UniformAngles | sampling.cpp:5-11 | `cos θ = u2` and `sin²θ = 1 − cos²θ` for `u2` in `[0, 1]` under an exact root |
| Sampling.CosineAngles | sampling.cpp:16-22 | `cos θ = √u2` and `sin²θ = 1 − cos²θ` for `u2` in `[0, 1]` under exact roots |
| Sampling.SampledDirectionsPointUp | sampling.cpp:5-22 | both samplers' directions have a non-negative height |
| Sampling.HeightKeepsSign | sampling.cpp:9-10 | normalising keeps the height non-negative |
| Sampling.HeightIsCosTheta | sampling.cpp:9-10 | on consistent angles the raw direction is already unit and its height is `cos θ` |
| Sampling.CosinePdfWeightsUniform | sampling.cpp:12-26 | the cosine density is `2·max(0, n·d)` times the uniform one |
| Materials.Emit | data.cpp:23-34 | black for Lambertian, `color·intensity` for a light |
| Materials.Sample | data.cpp:49-74 | nothing for a light; for Lambertian the scattered direction with the colour as attenuation |
| Materials.Pdf | data.cpp:76-88 | 0 for a light, the cosine density for Lambertian, never negative |
| Materials.VisitorsAgree | data.cpp:23-88 | `is_light` holds exactly when `sample` returns nothing; lights have density 0; only lights emit |
| MeshHit.Nearest | data.cpp:112-150 | the chosen triangle is one of the scanned ones and its hit lies in the window |
| MeshHit.NearestIsLeast | data.cpp:112-150 | no triangle is chosen exactly when none hits in the window; the chosen one has the least distance and the earliest among equals |
| MeshHit.NearestNarrowed | data.cpp:112-150 | narrowing the window's far end to a hit's distance keeps the nearest hit |
| MeshHit.RecordAt | data.cpp:127-144 | the record's point is on the ray at `t`; its normal faces the ray; `is_inside` holds exactly when the geometric normal was flipped |
| MeshHit.HitOf | data.cpp:112-150 | a hit lies strictly inside the window |
| MeshHit.DistanceOf | data.cpp:152-169 | a distance lies strictly inside the window |
| MeshHit.Hit | data.cpp:112-150 | the scan with its narrowing `closest_so_far` returns the nearest hit `HitOf` |
| MeshHit.HitDistance | data.cpp:152-169 | the `hit_p` scan, with `is_hit` starting false, returns `DistanceOf` |
| MeshHit.HitAndDistanceAgree | data.cpp:112-169 | `hit_p` misses exactly when `hit` does and otherwise returns its distance |
| MeshHit.DoubleTestHits | backup/util.cpp:16-26 | a triangle the `double` test accepts is not parallel, holds the point inside, and gives a non-zero distance |
| MeshHit.SampleIndex | data.cpp:187 | for a draw in `[0, 1)` the index is one of the mesh's triangles |
| MeshHit.FoldIntoTriangle | data.cpp:193-196 | draws in `[0, 1]` end in the unit triangle; a pair inside it is kept, one outside is mirrored |
| MeshHit.SamplePoint | data.cpp:186-198 | the point is the barycentric combination of the chosen triangle's corners with the folded weights |
| MeshHit.EdgeFormIsConvex | data.cpp:197 | the edge form `v0 + u(v1−v0) + v(v2−v0)` is the barycentric combination |
| MeshHit.SampleWeightsAreBarycentric | data.cpp:193-197 | the weights are non-negative and sum to one |
| MeshHit.Pdf | data.cpp:200-213 | 0 on a miss; otherwise the density at the hit's distance and cosine; never negative |
| MeshHit.Density | data.cpp:205-212 | 0 below a cosine of 0.0001; otherwise undefined exactly for a zero area, and the value times `cosine·area` is `t²` |
| SceneHit.Distances | data.cpp:215-228 | one `hit_p` distance per mesh |
| SceneHit.FirstLeast | data.cpp:215-228 | the chosen mesh is a hit one |
| SceneHit.FirstLeastIsLeast | data.cpp:215-228 | nothing is chosen exactly when no mesh is hit; otherwise the chosen distance is the least and the earliest among equals |
| SceneHit.NearestMesh | data.cpp:215-228 | the chosen mesh has a hit in the window |
| SceneHit.Hit | data.cpp:215-228 | the loop over meshes with the narrowing window returns the scene hit `SceneHitOf` |
| SceneHit.HitDistance | data.cpp:171-184 | `Scene::hit_p` returns `SceneDistanceOf` |
| SceneHit.SceneHitIsGloballyNearest | data.cpp:215-228 | a scene miss happens exactly when every mesh misses; a scene hit is at most every mesh's hit distance, and `hit_p` returns the same distance |
| Integrator.NormalLi | backup/integrator.cpp:6-13 | black on a miss, the hit normal otherwise, which faces the ray |
| Integrator.HitNormalFacesRay | backup/integrator.cpp:6-13 | a scene hit's normal faces the ray |
| Integrator.TracePath | backup/integrator.cpp:15-27 | black for `bounces ≤ 0` and on a miss; otherwise the hit normal |
| Integrator.Li | backup/integrator.cpp:72-80 | dispatches on the variant; the path integrator starts from the scene's bounces |
| Integrator.PathIntegratorDrawsNormals | backup/integrator.cpp:15-27 | the path integrator draws the normal image when there are bounces and black otherwise |
| Integrator.LightSamplingReadsFirstMeshOnly | backup/integrator.cpp:47-53 | the light-sampled direction depends only on the first mesh of the scene |
| Integrator.MixedPdf | backup/integrator.cpp:55-60 | half the material density plus half the hit mesh's density; infinite exactly when the mesh's is; never negative |
| Integrator.Shade | backup/integrator.cpp:29-69 | emission alone for a hit from inside, for a light, and for a mixed density below 0.0001 or infinite |
| PixelAverage.ScreenU | renderer.cpp:79 | for a jitter in `[0, 1)` the coordinate lies in `[-1, 1)` |
| PixelAverage.ScreenV | renderer.cpp:80 | for a jitter in `[0, 1)` the coordinate lies in `(-1, 1]` |
| PixelAverage.ScreenOrder | function.cpp:16-17 | further right columns map further right and further down rows further down, whatever the jitters |
| PixelAverage.PixelValue | renderer.cpp:77-92 | a negative sample count stores black |
| PixelAverage.Accumulate | renderer.cpp:77-91 | the sample loop returns the average `PixelValue` |
| PixelAverage.AverageOfConstant | renderer.cpp:77-92 | when every sample brings the same colour the pixel stores that colour |
| PixelAverage.SumOfConstant | renderer.cpp:78-90 | `n` equal samples sum to `n` times the sample |
| FilmRender.Render | function.cpp:6-25 | the buffer holds exactly `width·height` pixels and each pixel's row-major slot holds its average |
| Renderer.TileCount | renderer.cpp:33-40 | `ceil(n/64)`: the tiles reach past the last pixel and the last tile starts inside the film |
| Renderer.TileNumber | renderer.cpp:33-40 | a tile's place in the push order is below the tile count |
| Renderer.Column | renderer.cpp:34-39 | a column of tiles has one tile per row index, each inside the film |
| Renderer.Grid | renderer.cpp:33-40 | every tile of the grid lies inside the film |
| Renderer.BuildTiles | renderer.cpp:33-40 | the nested loops push the grid in column order, with empty buffers |
| Renderer.GridLength | renderer.cpp:33-40 | the tile count is `ceil(W/64)·ceil(H/64)` |
| Renderer.GridEntry | renderer.cpp:33-40 | the tile at place `cx·rows + cy` is the tile of column `cx` and row `cy` |
| Renderer.GridIsPlaced | renderer.cpp:33-40 | every tile of the full grid is at its place |
| Renderer.TileInBounds | renderer.cpp:35-38 | a tile is at most 64 by 64, starts at multiples of 64 and ends inside the film |
| Renderer.TilesPartitionFilm | renderer.cpp:33-40 | every pixel lies in exactly one tile: the one at `(px/64, py/64)` |
| Renderer.RenderTile | renderer.cpp:67-97 | the tile keeps its rectangle and its buffer holds, at `y·width + x`, the average of pixel `(tile.x + x, tile.y + y)` |
| Renderer.RenderRow | renderer.cpp:74-93 | one pass of the row loop writes the average of every pixel of row `y` and keeps every earlier row's averages |
| Renderer.CopyTile | renderer.cpp:107-114 | covered film pixels take the tile's local values; every other pixel is unchanged |
| Renderer.RenderAll | renderer.cpp:99-103 | every tile is rendered and keeps its rectangle |
| Renderer.RenderTiles | renderer.cpp:33-103 | the tiles built and rendered lie at their grid places inside the film, each holding the averages of its pixels |
| Renderer.Assemble | renderer.cpp:104-115 | every film pixel covered by a tile holds that pixel's average |
| Renderer.Render | renderer.cpp:21-117 | the film has the scene's size and `width·height` pixels, each holding its own average |
| Quantize.Clamp | main.cpp:16 | the result lies in `[0, 1]`, equals the input there, and is 0 below and 1 above |
| Quantize.ChannelByteReadsBack | main.cpp:19-21 | the byte is the number of whole steps of 1/255.9 under the clamped channel; 0 at or below 0, 255 at or above 1 |
| Quantize.ChannelByteMonotone | main.cpp:16-21 | clamping and quantising never reverse the order of two channels |
| Quantize.BytesLayout | main.cpp:18-25 | three bytes per pixel, red, green and blue at `3i`, `3i+1`, `3i+2` |
| Quantize.ToBytes | main.cpp:18-25 | the loop appends the channel bytes of every pixel, in order |

## Left out

- Concurrency: the `std::async` dispatch of renderer.cpp:99-103 is a sequential loop over the tiles; the join is that every tile is rendered before assembly.
- The random generator (rng.cpp, backup/rng.cpp): it is seeded from the system, so draws are parameters, and the camera and integrator are folded into the `Radiance` function of a pixel and a sample number.
- Floating-point rounding, NaN and infinities: numbers are reals. `sqrt`, `sin` and `cos` are the fields of the `Libm` parameter, and π is a parameter.
- The camera and matrix code (data.cpp:90-110, 230-235) and `trace_ray`, which has no body in function.cpp.
- The orthonormal basis `Material::sample` builds (data.cpp:59-66): the scattered direction is a parameter, and only the dispatch and the attenuation are modelled.
- `ray_triangle_intersect` inside the hit searches is the `Intersector` parameter, so that both copies plug in; the copies themselves are modelled in `RayTriangle`.
- XML document loading and node traversal internals: nodes are records of name, attribute map and children. A load failure is modelled as an empty document in the version in use, and as the `loaded` flag in the backup version.
- Functions that fall off their end without returning, which is undefined behaviour: `parse_sampler` (scene_parser.cpp:92-102), `Mitsuba::parse_camera` (scene_parser.cpp:167-185), the global `parse_camera` (scene_parser.cpp:224-257) and `to_vector3` (scene_parser.cpp:222). The `<sensor>` branch of the global `load_scene` therefore does not change the modelled settings.
- PbrtLexer.Tokenizer.Tokenize: positions and columns count characters of a Dafny string, while the tokenizer walks the bytes of a `std::string`; after non-ASCII text (inside a string literal) the reported position and column differ from the source's byte offsets.
- `parse_bsdf` of scene_parser.cpp:198-220: the global `load_scene` never calls it; the registering version of backup/scene_parser.cpp:207-226 is modelled.
- The recursive-descent `Parser::parse` and the block parsers of include/pbrt.h:243-535: `parse` has no return and `parse_attribute` can loop forever. The number conversions `stoi`/`stof` are a conversion parameter.
- Scene builders (scenes.h, backup/scenes.h), shape tables (shape.cpp, backup/shape.cpp), allocation plumbing (shape.h, scene.h), the window loop of main.c and `stbi_write_png` (main.cpp:26): data, memory management and I/O.
- Integer overflow of `width * height` (renderer.cpp:41, function.cpp:11): the sizes are `uint16_t` promoted to `int`, so a film larger than 46340 by 46340 overflows; the model multiplies unbounded integers.
- VectorMath.Vec3.Normalize: a vector that fails the length assertion is an error, not a NaN result, because the assertion aborts in a debug build.
- VectorMath.Normalized: a zero vector comes back unscaled instead of as NaN, because `glm::normalize` of it has no real value.
- Quantize.ChannelByteReadsBack: the `double` to `float` conversion of each channel before clamping is not modelled.
- Renderer.Render: requires a non-zero sample count, because a zero count makes `color /= samples` a division by zero whose NaN the model does not represent; the same holds for FilmRender.Render, PixelAverage.PixelValue, PixelAverage.Accumulate, Renderer.RenderTile, Renderer.RenderAll and Renderer.Assemble.
- MeshHit.Pdf: a zero mesh area, where the source divides by zero, is `None` rather than an infinity.
- MeshHit.HitDistance: `is_hit` in `Mesh::hit_p` (data.cpp:154) is read uninitialised in the source; the model starts it at false, as `Scene::hit_p` does.
- Integrator.Shade: light sampling always draws from the first mesh of the scene, as `filtered.base().data()` does, whether or not that mesh is a light.

## Findings

| source | as written | input that shows it | evidently intended | confidence | as-written member | corrected member |
|---|---|---|---|---|---|---|
| scene_parser.cpp:19-37 | with empty tokens excluded, the field after the last delimiter is pushed even when empty, because `pos == npos` differs from `lastPos` | `"a,"` gives `["a", ""]`; `""` gives `[""]` | no empty token when empty tokens are excluded | high, not executed | MitsubaTokenize.TokenizeYieldsEmptyToken | MitsubaTokenize.TokensNonEmpty |
| scene_parser.cpp:272 | the `strcmp` result is the condition, so the path integrator is selected when the value is NOT `path`; `MitsubaLive.LoadScene` loads the scene this way | `<default name="integrator" value="path"/>` keeps the normal integrator, and `value="normal"` selects the path one | select the path integrator when the value is `path` | high, not executed | MitsubaLive.IntegratorDefaultIsInverted | MitsubaLive.IntegratorDefaultSelectsPath |
