# MRPT point maps, ICP control and small containers, in Dafny

This project models the core of an early release of the Mobile Robot
Programming Toolkit (MRPT) and proves properties of that model:

- the coloured points map (`CColouredPointsMap`). It is a set of parallel
  vectors: coordinates, weights, colours and per-point minimum distances.
  The model covers:
  - single-point insertion and update, bulk assignment, and clearing;
  - loading a range scan with minimum-spacing decimation;
  - weighted fusion of another map;
  - order-preserving deletion by mask;
  - the observation-insertion policy;
  - the versioned archive format (versions 0 to 6);
- the loop control of the ICP scan matcher (`CICP`). This covers algorithm
  dispatch, the robust kernel, threshold annealing and termination, the
  return information, and the Levenberg–Marquardt damping schedule. The
  matcher and the least-squares solver are parameters;
- the 2D Gaussian point (`CPoint2DPDFGaussian`): Bayesian fusion and the
  Mahalanobis distance, over an explicit 2×2 inverse;
- the 3D pose particle set (`CPose3DPDFParticles`): reset, copy, most likely
  particle, weighted mean, covariance structure and inversion;
- the Base64 codec of `mrpt::system`, with the alphabet of section 4 of
  RFC 4648 and line breaks after every 72 characters;
- the polygon vertex container (`CPolygon`) and its archive versions 0 to 2;
- the FIFO message queue (`CThreadSafeQueue`), without its lock;
- the three-mode numeric range `TDoubleRange`;
- from `CRenderizable`: the texture-name table, the pose and colour setters,
  and the render-state archive with its sentinel versions;
- the triangle set (`CSetOfTriangles`): in-place colour updates, the polygon
  cache and its archive;
- the archive format of `CMatrix`.

`float` and `double` are modelled as `real`. Archives (`CStream`) are
sequences of typed items (`Streams.Item`). Reading past the end is an error
result (`EndOfStream`), which stands for the exception the stream throws.
Reading an item of the wrong type is the error `TypeMismatch`. A `CStream` is
untyped bytes and does not detect this: the source reads on through misaligned
bytes and ends with wrong values or a later exception. `TypeMismatch` marks
that misread. Range scans enter already projected into sensor coordinates,
so the scan's sine and cosine do not appear. Maths the code calls but that is
not part of this model is passed in as function parameters:
- `exp`, `sign` and `wrapToPi`;
- the jet colour map and the point-in-polygon test;
- the correspondence matcher and the least-squares solver.

Where the source updates an object in place, the model has a class whose
methods are proved against specification functions over values. Each file is
one module:

| file | module | models |
|---|---|---|
| streams.dfy | Streams | typed archive items and reads |
| option.dfy | Options | `Option` |
| base64.dfy | Base64 | `encodeBase64`, `decodeBase64` |
| polygon.dfy | Polygon | `CPolygon` |
| matrix.dfy | Matrix | `CMatrix` archive |
| message_queue.dfy | MessageQueue | `CThreadSafeQueue` |
| double_range.dfy | DoubleRange | `TDoubleRange` |
| renderizable.dfy | Renderizable | `CRenderizable` |
| set_of_triangles.dfy | SetOfTriangles | `CSetOfTriangles` |
| point2d_gaussian.dfy | Point2DGaussian | `CPoint2DPDFGaussian` |
| pose3d_particles.dfy | Pose3DParticles | `CPose3DPDFParticles` |
| icp.dfy | ICP | `CICP` |
| coloured_points.dfy | ColouredPoints | the parallel vectors of the points map |
| range_scan.dfy | RangeScan | scan decimation and colouring |
| fusion.dfy | PointFusion | `fuseWith` |
| points_stream.dfy | ColouredPointsStream | the points map archive |
| coloured_points_map.dfy | ColouredPointsMap | `CColouredPointsMap`, its loops and the insertion policy |

## Model

| member | source | states |
|---|---|---|
| Base64.DecodedSextetChar | libs/base/src/system/base64.cpp:41 | the decoder's table inverts the 64-symbol alphabet; no symbol is '=' or a newline |
| Base64.NulGroup | libs/base/src/system/base64.cpp:116-120 | the table also admits the alphabet string's terminating NUL, as value 64: four NULs decode to the bytes 4, 16, 64 |
| Base64.EncodeBase64 | libs/base/src/system/base64.cpp:46-101 | the byte loop with its `bits`/`char_count`/`cols` accumulators produces exactly the specified encoding |
| Base64.EncodeLength | libs/base/src/system/base64.cpp:46-101 | the output length is 4·⌈n/3⌉ plus one newline per 18 groups, plus one after a padded group on a non-empty line |
| Base64.DecodeBase64 | libs/base/src/system/base64.cpp:106-185 | the character loop computes the specified decoder result, success flag and bytes |
| Base64.RunStopsAtPad | libs/base/src/system/base64.cpp:136-140 | the first '=' stops the decoder; nothing after it is read |
| Base64.RunPadded | libs/base/src/system/base64.cpp:136-140 | once '=' is met the rest of the input has no effect |
| Base64.RunLineBreak | libs/base/src/system/base64.cpp:141-142 | the newlines the encoder inserts are skipped by the decoder |
| Base64.RunSkipsForeign | libs/base/src/system/base64.cpp:141-142 | any character outside the alphabet other than '=' can be removed from anywhere in the input without changing the decoder's final state |
| Base64.UnpaddedIncomplete | libs/base/src/system/base64.cpp:158-165 | input ending inside a group without '=' is reported as an error |
| Base64.OneSymbolBeforePad | libs/base/src/system/base64.cpp:168-173 | '=' after a single leftover symbol is reported as an error |
| Base64.RoundTrip | libs/base/src/system/base64.cpp:46-185 | decoding the encoding of any byte vector succeeds and gives the bytes back |
| Base64.Group3Bytes | libs/base/src/system/base64.cpp:148-150 | splitting a 24-bit group into three bytes inverts packing them |
| Base64.SextetsJoin | libs/base/src/system/base64.cpp:63-66 | the four 6-bit fields of a group put back together are the group |
| Polygon.ZipUnzip | libs/base/src/math/CPolygon.cpp:173-184 | vertices built from x and y lists give those lists back, and the other way round |
| Polygon.PairFlatten | libs/base/src/math/CPolygon.cpp:60-63 | the flat buffer of vertex coordinates reads back as the same vertices |
| Polygon.Parse | libs/base/src/math/CPolygon.cpp:128-130 | any version above 2 is an unknown-version error |
| Polygon.RoundTrip | libs/base/src/math/CPolygon.cpp:49-66 | reading what version 2 writes, with version 2, gives the vertices and leaves the rest of the stream |
| Polygon.LegacyRead | libs/base/src/math/CPolygon.cpp:76-113 | versions 0 and 1 read n, skip six values, then all xs and all ys, at float or double precision |
| Polygon.ParseLegacy | libs/base/src/math/CPolygon.cpp:76-113 | a successful legacy read has exactly n vertices |
| Polygon.CPolygon.SetAllVertices | libs/base/src/math/CPolygon.cpp:147-171 | the polygon becomes the first n pairs (xs[i], ys[i]) |
| Polygon.CPolygon.SetAllVerticesFromVectors | libs/base/src/math/CPolygon.cpp:138-142 | succeeds exactly for equal-length, non-empty vectors, which it then zips; otherwise nothing changes |
| Polygon.CPolygon.GetAllVertices | libs/base/src/math/CPolygon.cpp:173-184 | returns the x and y coordinates of the vertices, in order |
| Polygon.CPolygon.WriteToStream | libs/base/src/math/CPolygon.cpp:49-66 | writes the count and then the vertices |
| Polygon.CPolygon.ReadFromStream | libs/base/src/math/CPolygon.cpp:72-133 | succeeds exactly when the archive parses, and then holds the parsed vertices |
| Matrix.Parse | libs/base/src/math/CMatrix.cpp:45-65 | any version but 0 is an unknown-version error; a successful read has rows×cols cells |
| Matrix.ParseRowItems | libs/base/src/math/CMatrix.cpp:58-60 | reading the row-major cells of m rows gives those rows back |
| Matrix.ParseRows | libs/base/src/math/CMatrix.cpp:58-60 | a successful read of n rows gives n rows of cols cells each |
| Matrix.RoundTrip | libs/base/src/math/CMatrix.cpp:26-61 | reading version 0 of what is written gives the same dimensions and cells back |
| Matrix.CMatrix.WriteToStream | libs/base/src/math/CMatrix.cpp:33-37 | writes rows, cols, then the cells row by row (none when a dimension is 0) |
| Matrix.CMatrix.ReadFromStream | libs/base/src/math/CMatrix.cpp:45-65 | succeeds exactly when the archive parses, and then holds the parsed matrix |
| Streams.RealsRoundTrip | libs/base/src/math/CPolygon.cpp:94-95 | n values written one at a time read back as the same n values |
| Streams.ReadRealsOneByOne | libs/base/src/math/CPolygon.cpp:94-95 | the element-by-element read loop computes the same result as reading the whole block |
| MessageQueue.CThreadSafeQueue.constructor | libs/base/include/mrpt/utils/CThreadSafeQueue.h:61-62 | a new queue is empty |
| MessageQueue.CThreadSafeQueue.Clear | libs/base/include/mrpt/utils/CThreadSafeQueue.h:69-78 | empties the queue; every queued message is freed |
| MessageQueue.CThreadSafeQueue.Push | libs/base/include/mrpt/utils/CThreadSafeQueue.h:82-86 | appends at the back |
| MessageQueue.CThreadSafeQueue.Get | libs/base/include/mrpt/utils/CThreadSafeQueue.h:91-102 | returns nothing on an empty queue, otherwise removes and returns the front |
| MessageQueue.CThreadSafeQueue.GetLatestPurgeOld | libs/base/include/mrpt/utils/CThreadSafeQueue.h:108-123 | returns the most recent message and frees all older ones, leaving the queue empty |
| MessageQueue.CThreadSafeQueue.Empty | libs/base/include/mrpt/utils/CThreadSafeQueue.h:126-130 | true exactly when no message is queued |
| MessageQueue.CThreadSafeQueue.Size | libs/base/include/mrpt/utils/CThreadSafeQueue.h:133-137 | the number of queued messages |
| DoubleRange.CreateFromIncrement | libs/maps/include/mrpt/opengl/CAngularObservationMesh.h:120-123 | fails exactly for a zero increment |
| DoubleRange.CreateFromAmount | libs/maps/include/mrpt/opengl/CAngularObservationMesh.h:127-129 | a mode-1 range with the given amount, whose first and last values are the given ones |
| DoubleRange.CreateFromAperture | libs/maps/include/mrpt/opengl/CAngularObservationMesh.h:133-135 | a mode-2 range with the given amount, aperture and direction, starting at ∓aperture/2 |
| DoubleRange.Aperture | libs/maps/include/mrpt/opengl/CAngularObservationMesh.h:140-147 | never negative in mode 0 and 0 when the increment points away; final − initial in mode 1; the stored aperture in mode 2 |
| DoubleRange.InitialValue | libs/maps/include/mrpt/opengl/CAngularObservationMesh.h:152-159 | the stored initial value in modes 0 and 1; in mode 2 half the aperture, negative when the scan runs from negative to positive |
| DoubleRange.FinalValue | libs/maps/include/mrpt/opengl/CAngularObservationMesh.h:164-171 | the stored final value, except in mode 0 with the increment pointing away, where it is the initial value; in mode 2 the opposite half of the aperture |
| DoubleRange.Increment | libs/maps/include/mrpt/opengl/CAngularObservationMesh.h:176-183 | the stored increment in mode 0; in modes 1 and 2 the step that covers the span in `amount - 1` gaps |
| DoubleRange.Amount | libs/maps/include/mrpt/opengl/CAngularObservationMesh.h:188-195 | at least one sample in mode 0, exactly one when the increment points away; the stored amount otherwise |
| DoubleRange.NegToPos | libs/maps/include/mrpt/opengl/CAngularObservationMesh.h:205-212 | true exactly for a positive non-zero increment in mode 0, for a final value above the initial one in mode 1, and the stored direction in mode 2 |
| DoubleRange.AwayCollapses | libs/maps/include/mrpt/opengl/CAngularObservationMesh.h:140-195 | in mode 0, when the increment points away from the final value, the aperture is 0, the amount 1 and the final value the initial one |
| DoubleRange.QuotientNonNegative | libs/maps/include/mrpt/opengl/CAngularObservationMesh.h:190 | when the increment points towards the final value, the number of steps (final − initial)/increment is not negative |
| DoubleRange.TowardsCovers | libs/maps/include/mrpt/opengl/CAngularObservationMesh.h:190 | in mode 0 with an increment pointing towards the final value, the amount is 1 + ⌈(final − initial)/increment⌉, the fewest samples that reach or pass the final value, for a positive and for a negative increment |
| DoubleRange.CeilCovers | libs/maps/include/mrpt/opengl/CAngularObservationMesh.h:190 | ⌈d/inc⌉ steps of inc reach d and one step fewer does not |
| DoubleRange.Ceil | libs/maps/include/mrpt/opengl/CAngularObservationMesh.h:190 | `ceil`: the least integer not below its argument |
| DoubleRange.Gaps | libs/maps/include/mrpt/opengl/CAngularObservationMesh.h:179-180 | `amount - 1` in `size_t` arithmetic, wrapping 0 to 2^64 − 1 |
| DoubleRange.ApertureIsSpan | libs/maps/include/mrpt/opengl/CAngularObservationMesh.h:140-171 | the aperture is the distance from the initial to the final value: signed in mode 1, absolute in the other modes |
| DoubleRange.ApertureCentred | libs/maps/include/mrpt/opengl/CAngularObservationMesh.h:156-168 | mode 2 is zero-centred: the initial value is minus the final value, ∓aperture/2 by direction |
| DoubleRange.LastSampleIsFinal | libs/maps/include/mrpt/opengl/CAngularObservationMesh.h:176-180 | in modes 1 and 2 the last of the samples spaced by the increment is the final value |
| DoubleRange.DirectionMatchesStep | libs/maps/include/mrpt/opengl/CAngularObservationMesh.h:205-212 | `negToPos` holds exactly when the increment is positive, in every mode |
| Renderizable.TextureNamesInfo.constructor | libs/opengl/src/CRenderizable.cpp:62-67 | 1000 free names, none in use |
| Renderizable.TextureNamesInfo.GetNewTextureNumber | libs/opengl/src/CRenderizable.cpp:95-112 | takes the lowest free name above 0, marks it used and counts it; no free name is an error and leaves the table alone |
| Renderizable.LowestFreeIsLowest | libs/opengl/src/CRenderizable.cpp:101-110 | the name chosen is free, in [1, 1000), and every name below it is used; there is none exactly when all are used |
| Renderizable.FirstFreeFrom | libs/opengl/src/CRenderizable.cpp:101-110 | finds the first free name at or after the start, with every name before it used; none exactly when all from the start are used |
| Renderizable.TextureNamesInfo.ReleaseTextureName | libs/opengl/src/CRenderizable.cpp:114-134 | marks the name free and decrements the count, keeping the count equal to the names in use |
| Renderizable.CountUpdate | libs/opengl/src/CRenderizable.cpp:114-134 | flipping one entry changes the number of names in use by exactly that entry |
| Renderizable.ZeroCount | libs/opengl/src/CRenderizable.cpp:62-67 | an all-free table has no names in use |
| Renderizable.AllocateRelease | libs/opengl/src/CRenderizable.cpp:95-134 | allocating then releasing a name restores the table and the count |
| Renderizable.CRenderizable.constructor | libs/opengl/src/CRenderizable.cpp:82-90 | white, at the origin, unit scale, visible, name hidden |
| Renderizable.CRenderizable.SetPose | libs/opengl/src/CRenderizable.cpp:227-235 | stores the angles in degrees; reading the pose back gives the same pose |
| Renderizable.DegreesRoundTrip | libs/opengl/src/CRenderizable.cpp:227-270 | radians to degrees and back is the identity |
| Renderizable.CRenderizable.SetPosePoint3D | libs/opengl/src/CRenderizable.cpp:240-248 | sets the position and zeroes the angles |
| Renderizable.CRenderizable.SetPosePoint2D | libs/opengl/src/CRenderizable.cpp:253-261 | sets x and y and zeroes z and the angles |
| Renderizable.CRenderizable.SetColor | libs/opengl/src/CRenderizable.cpp:282-288 | sets exactly the four colour channels |
| Renderizable.CRenderizable.WriteToStreamRender | libs/opengl/src/CRenderizable.cpp:136-157 | the legacy layout for unit scale, otherwise sentinel 17, roll, scales and visibility |
| Renderizable.CRenderizable.ReadFromStreamRender | libs/opengl/src/CRenderizable.cpp:159-197 | succeeds exactly when the archive parses as the code reads it, and then holds the parsed state |
| Renderizable.ReadRender | libs/opengl/src/CRenderizable.cpp:159-197 | the step-by-step read computes the parse as written |
| Renderizable.RoundTrip | libs/opengl/src/CRenderizable.cpp:136-197 | with the sentinel compared before it is overwritten, every state reads back except unit scale with roll 16° or 17° |
| Renderizable.UnitTailRoundTrip | libs/opengl/src/CRenderizable.cpp:136-197 | with unit scale and a roll that is not a sentinel, the legacy tail reads back |
| Renderizable.ScaledTailRoundTrip | libs/opengl/src/CRenderizable.cpp:136-197 | with a non-unit scale, the sentinel tail with scales and visibility reads back |
| Renderizable.ReadTail | libs/opengl/src/CRenderizable.cpp:171-196 | the step-by-step read of the tail succeeds exactly when the tail parse as written does, with the same result |
| Renderizable.SentinelClash | libs/opengl/src/CRenderizable.cpp:176 | unit scale with roll 16° or 17° is misread as a sentinel, so the next read meets a flag where a float is expected (`TypeMismatch`, a misaligned read the source does not detect) |
| Renderizable.VisibilityLeftUnread | libs/opengl/src/CRenderizable.cpp:186-193 | as written, a scaled object's visibility is not read: the state comes back visible and the flag stays in the stream |
| SetOfTriangles.Polygons | libs/opengl/src/CSetOfTriangles.cpp:325-337 | one 3-vertex polygon per triangle, with the triangle's coordinates |
| SetOfTriangles.PolygonOf | libs/opengl/src/CSetOfTriangles.cpp:325-337 | a triangle's polygon has its three vertices, in order |
| SetOfTriangles.PaintKeepsPolygons | libs/opengl/src/CSetOfTriangles.cpp:273-317 | recolouring never changes the polygons |
| SetOfTriangles.CSetOfTriangles.SetColor | libs/opengl/src/CSetOfTriangles.cpp:273-297 | sets the object colour and all three vertex colours of every triangle; the coordinates stay |
| SetOfTriangles.Painted | libs/opengl/src/CSetOfTriangles.cpp:273-297 | a painted triangle keeps its coordinates and has the colour on all three vertices |
| SetOfTriangles.CSetOfTriangles.SetColorChannel | libs/opengl/src/CSetOfTriangles.cpp:299-317 | changes one channel on the object and on every vertex, and nothing else |
| SetOfTriangles.WithChannel | libs/opengl/src/CSetOfTriangles.cpp:299-317 | a channel update sets that channel on all three vertices and leaves the coordinates and the other channels |
| SetOfTriangles.SameChannel | libs/opengl/src/CSetOfTriangles.cpp:299-317 | a triangle whose one channel was set on all vertices, with the rest unchanged, is that channel update |
| SetOfTriangles.CSetOfTriangles.UpdatePolygons | libs/opengl/src/CSetOfTriangles.cpp:325-337 | the cache becomes the polygons of the triangles and is marked up to date |
| SetOfTriangles.CSetOfTriangles.GetPolygons | libs/opengl/src/CSetOfTriangles.cpp:319-323 | writes the N polygons into the first N slots of a large-enough output, leaving later slots alone |
| SetOfTriangles.FloatsRoundTrip | libs/opengl/src/CSetOfTriangles.cpp:144-145 | a triangle's raw buffer of 21 numbers reads back as the triangle |
| SetOfTriangles.UnrowsRows | libs/opengl/src/CSetOfTriangles.cpp:144-145 | cutting the raw rows of numbers back into triangles gives the triangles that were written |
| SetOfTriangles.ParseContent | libs/opengl/src/CSetOfTriangles.cpp:141-149 | version 0 content always has transparency on |
| SetOfTriangles.ContentRoundTrip | libs/opengl/src/CSetOfTriangles.cpp:119-149 | the count, the triangles and the transparency flag read back |
| SetOfTriangles.Parse | libs/opengl/src/CSetOfTriangles.cpp:135-153 | versions above 1 are unknown; version 0 sets transparency on |
| SetOfTriangles.RoundTrip | libs/opengl/src/CSetOfTriangles.cpp:111-156 | with the corrected render reader, reading what is written gives the render state, triangles and transparency flag back |
| SetOfTriangles.ScaledSetMisread | libs/opengl/src/CSetOfTriangles.cpp:140-142 | with the render reader as written, a set with a non-unit scale and a roll other than 17° is not read back: the unread visibility flag sits where the triangle count is expected (`TypeMismatch`) |
| SetOfTriangles.CSetOfTriangles.WriteToStream | libs/opengl/src/CSetOfTriangles.cpp:111-127 | writes the render state, n, the triangles and the transparency flag |
| SetOfTriangles.CSetOfTriangles.ReadFromStream | libs/opengl/src/CSetOfTriangles.cpp:133-156 | succeeds exactly when the archive parses, holds the parsed content and marks the polygons stale |
| Point2DGaussian.Inverse | libs/base/src/poses/CPoint2DPDFGaussian.cpp:156-165 | the explicit 2×2 inverse is a two-sided inverse |
| Point2DGaussian.InverseUnique | libs/base/src/poses/CPoint2DPDFGaussian.cpp:156-165 | any right inverse is that inverse |
| Point2DGaussian.Fuse | libs/base/src/poses/CPoint2DPDFGaussian.cpp:153-181 | cov·(C1⁻¹ + C2⁻¹) = I and (C1⁻¹ + C2⁻¹)·mean = C1⁻¹x1 + C2⁻¹x2 |
| Point2DGaussian.FuseCommutes | libs/base/src/poses/CPoint2DPDFGaussian.cpp:153-181 | fusion does not depend on the order of the two Gaussians |
| Point2DGaussian.FuseEqualCovariances | libs/base/src/poses/CPoint2DPDFGaussian.cpp:156-172 | with equal covariances the result is the midpoint of the means with half the covariance |
| Point2DGaussian.MahalanobisSquared | libs/base/src/poses/CPoint2DPDFGaussian.cpp:254-267 | zero for equal means |
| Point2DGaussian.MahalanobisSymmetric | libs/base/src/poses/CPoint2DPDFGaussian.cpp:254-267 | symmetric in the two Gaussians |
| Point2DGaussian.MahalanobisNonNegative | libs/base/src/poses/CPoint2DPDFGaussian.cpp:254-267 | non-negative when the summed covariance is positive definite |
| Point2DGaussian.InversePositive | libs/base/src/poses/CPoint2DPDFGaussian.cpp:262-266 | the inverse of a positive-definite matrix is positive definite |
| Point2DGaussian.GenericFusion | libs/base/src/poses/CPoint2DPDFGaussian.cpp:238-249 | a non-Gaussian input fails the assertion; two Gaussians reach the not-implemented exception |
| Point2DGaussian.CPoint2DPDFGaussian.constructor | libs/base/src/poses/CPoint2DPDFGaussian.cpp:48-49 | mean (0, 0), zero covariance |
| Point2DGaussian.CPoint2DPDFGaussian.FromMean | libs/base/src/poses/CPoint2DPDFGaussian.cpp:64-67 | the given mean, zero covariance |
| Point2DGaussian.CPoint2DPDFGaussian.FromMeanAndCov | libs/base/src/poses/CPoint2DPDFGaussian.cpp:55-59 | the given mean and covariance |
| Point2DGaussian.CPoint2DPDFGaussian.CopyFrom | libs/base/src/poses/CPoint2DPDFGaussian.cpp:104-110 | takes the other's mean and covariance; copying from itself changes nothing |
| Point2DGaussian.CPoint2DPDFGaussian.BayesianFusion | libs/base/src/poses/CPoint2DPDFGaussian.cpp:152-181 | the object becomes the fusion of the two inputs, read before it is overwritten |
| Pose3DParticles.CPose3DPDFParticles.constructor | libs/base/src/poses/CPose3DPDFParticles.cpp:24-36 | M particles at the origin with log-weight 0 |
| Pose3DParticles.CPose3DPDFParticles.ResetDeterministic | libs/base/src/poses/CPose3DPDFParticles.cpp:482-500 | resizes to count when count > 0; every particle is at the location with log-weight 0 |
| Pose3DParticles.CPose3DPDFParticles.CopyFrom | libs/base/src/poses/CPose3DPDFParticles.cpp:41-80 | the same particles, poses and log-weights as the other set; a self-copy changes nothing |
| Pose3DParticles.CopyFromOther | libs/base/src/poses/CPose3DPDFParticles.cpp:82-84 | copying from a Gaussian reaches the not-implemented exception |
| Pose3DParticles.CPose3DPDFParticles.GetMostLikelyParticle | libs/base/src/poses/CPose3DPDFParticles.cpp:451-466 | the first particle with the greatest log-weight above −1e300, or the first particle when none is above |
| Pose3DParticles.CPose3DPDFParticles.GetMean | libs/base/src/poses/CPose3DPDFParticles.cpp:125-214 | the accumulating loop computes the specified weighted mean |
| Pose3DParticles.MeanOfIdentical | libs/base/src/poses/CPose3DPDFParticles.cpp:139-191 | the mean of particles all at one pose (angles normalised) is that pose |
| Pose3DParticles.MeanOfNoWeight | libs/base/src/poses/CPose3DPDFParticles.cpp:183-186 | with total weight 0 the mean is the zero pose |
| Pose3DParticles.Accumulate | libs/base/src/poses/CPose3DPDFParticles.cpp:139-180 | the accumulated sums are balanced: the yaw weights on the two sides add up to the total weight, and so do the roll weights |
| Pose3DParticles.AddAngle | libs/base/src/poses/CPose3DPDFParticles.cpp:150-163 | an angle's weight is added to the two sides' weights, which together grow by exactly that weight |
| Pose3DParticles.CPose3DPDFParticles.GetCovarianceAndMean | libs/base/src/poses/CPose3DPDFParticles.cpp:219-328 | the loops compute the specified covariance and mean |
| Pose3DParticles.CovarianceOf | libs/base/src/poses/CPose3DPDFParticles.cpp:219-254 | fewer than 2 particles give a zero covariance; otherwise a non-positive weight sum fails the assertion; the mean is the weighted mean |
| Pose3DParticles.CovarianceEntries | libs/base/src/poses/CPose3DPDFParticles.cpp:251-324 | each entry is the normalised weighted sum of error products |
| Pose3DParticles.MomentSumSymmetric | libs/base/src/poses/CPose3DPDFParticles.cpp:306-324 | the covariance is symmetric |
| Pose3DParticles.Mirror | libs/base/src/poses/CPose3DPDFParticles.cpp:318-324 | copying the upper triangle into the lower one gives a symmetric matrix |
| Pose3DParticles.MomentsAreSums | libs/base/src/poses/CPose3DPDFParticles.cpp:256-296 | the accumulation loop fills the upper triangle with the weighted sums |
| Pose3DParticles.VarianceNonNegative | libs/base/src/poses/CPose3DPDFParticles.cpp:270-275 | diagonal entries are non-negative for non-negative weights |
| Pose3DParticles.CPose3DPDFParticles.Inverse | libs/base/src/poses/CPose3DPDFParticles.cpp:430-446 | the output holds every pose inverted, with the same count and log-weights |
| Pose3DParticles.InvertAll | libs/base/src/poses/CPose3DPDFParticles.cpp:430-446 | every pose is inverted, with the same count and log-weights |
| Pose3DParticles.InvertTwice | libs/base/src/poses/CPose3DPDFParticles.cpp:430-446 | inverting twice gives the particles back when the pose inverse is an involution |
| ICP.DefaultConfig | libs/slam/src/slam/CICP.cpp:112-139 | the default parameters select the classic algorithm with the kernel on and RANSAC off, and make the loop terminate |
| ICP.Kernel | libs/slam/src/slam/CICP.cpp:218-221 | the identity when the kernel is off; otherwise in [0, 1) for non-negative input and positive ρ² |
| ICP.KernelMonotone | libs/slam/include/mrpt/slam/CICP.h:264-268 | x²/(x² + ρ²) never decreases as x² grows |
| ICP.LMStep | libs/slam/src/slam/CICP.cpp:793-856 | one damped step: the error never rises, the pose changes only with a strictly lower error, and each step is accepted or rejected |
| ICP.StepKeepsInvariant | libs/slam/src/slam/CICP.cpp:843-854 | an accepted step divides λ by 10 and a rejected one multiplies it by 10, so λ = λ0·10^(rejected − accepted) |
| ICP.LMRunProperties | libs/slam/src/slam/CICP.cpp:782-856 | the inner loop runs at most 99 steps; the error is always that of the current pose and never above the start, accepted + rejected equals the steps, and λ·10^accepted = λ0·10^rejected |
| ICP.LMLoopProperties | libs/slam/src/slam/CICP.cpp:782-856 | from any state keeping the invariant, the loop keeps it, never lowers the step count, and stops before the 99-step limit only when the last step moved the pose by less than the tolerances |
| ICP.CICP.LMIterate | libs/slam/src/slam/CICP.cpp:782-856 | the inner loop returns the specified pose and λ; the final error is at most the initial one |
| ICP.Estimate | libs/slam/src/slam/CICP.cpp:287-336 | with no correspondences the pose stays and approaching stops; a settled pose scales both thresholds by ALFA |
| ICP.Tail | libs/slam/src/slam/CICP.cpp:340-345 | the iteration count grows by one (modulo 2^16); past maxIterations the threshold shrinks by ALFA while above the floor |
| ICP.ShrinkSteps | libs/slam/src/slam/CICP.cpp:340-345 | shrinking the threshold by ALFA never adds remaining shrink steps, and removes one while it is above the floor |
| ICP.MeasureDrops | libs/slam/src/slam/CICP.cpp:287-348 | under the termination requirements each pass that continues lowers the measure |
| ICP.PassDecreases | libs/slam/src/slam/CICP.cpp:340-348 | every pass that continues decreases a measure built from the remaining shrink steps and iterations |
| ICP.PassShrinks | libs/slam/src/slam/CICP.cpp:287-348 | a pass multiplies the threshold by ALFA zero, one or two times |
| ICP.LoopStops | libs/slam/src/slam/CICP.cpp:287-348 | the loop ends with approaching stopped or the iteration budget spent, and then the threshold is at most the floor |
| ICP.LoopScales | libs/slam/src/slam/CICP.cpp:287-348 | the final threshold is the initial one times a power of ALFA: it never increases |
| ICP.RunProperties | libs/slam/src/slam/CICP.cpp:287-348 | the loop terminates when the floor is positive, and the final threshold lies between 0 and the initial one |
| ICP.CICP.Iterate | libs/slam/src/slam/CICP.cpp:287-348 | the do/while loop computes the specified run and stops with the exit condition false |
| ICP.Classic | libs/slam/src/slam/CICP.cpp:228-570 | fails exactly when ALFA is outside (0, 1); the output is a sum of Gaussians exactly with RANSAC; an empty moving map returns the initial mean with 0 iterations, goodness 1 and quality 0 |
| ICP.LM | libs/slam/src/slam/CICP.cpp:577-970 | fails exactly for a non-points reference map or ALFA outside (0, 1); always Gaussian; same empty-map result |
| ICP.Align | libs/slam/src/slam/CICP.cpp:63-106 | IKF is not implemented, any other unknown algorithm is an error, and a wrong-sized return info is an error instead of being filled |
| ICP.OutputKind | libs/slam/include/mrpt/slam/CICP.h:217-218 | the result is a sum of Gaussians exactly for the classic algorithm with RANSAC |
| ICP.CICP.constructor | libs/slam/include/mrpt/slam/CICP.h:175 | default options |
| ICP.CICP.WithOptions | libs/slam/include/mrpt/slam/CICP.h:177 | the given options |
| ICP.CICP.MethodClassic | libs/slam/src/slam/CICP.cpp:228-570 | computes the specified classic result |
| ICP.CICP.MethodLM | libs/slam/src/slam/CICP.cpp:577-970 | computes the specified LM result |
| ICP.CICP.AlignPDF | libs/slam/src/slam/CICP.cpp:63-106 | computes the specified dispatch result |
| ColouredPoints.PushAppends | libs/maps/src/maps/CColouredPointsMap.cpp:1006-1035 | inserting adds one white point of weight 1 at the end, leaves every earlier point alone and does not grow the minimum distances |
| ColouredPoints.SetThenGet | libs/maps/src/maps/CColouredPointsMap.cpp:852-896 | setting index i changes only point i, keeping its colour and weight |
| ColouredPoints.GetPoint | libs/maps/src/maps/CColouredPointsMap.cpp:1353-1366 | succeeds exactly below the count, and returns that point and colour |
| ColouredPoints.ClearLeavesStaleColours | libs/maps/src/maps/CColouredPointsMap.cpp:839-846 | as written, a point inserted after clearing takes the colour of the old first point |
| ColouredPoints.ClearAllThenPush | libs/maps/src/maps/CColouredPointsMap.cpp:839-846 | clearing every vector makes the next inserted point white |
| ColouredPoints.AllPointsAligned | libs/maps/src/maps/CColouredPointsMap.cpp:1488-1519 | bulk assignment gives exactly the given points, white with weight 1 |
| ColouredPoints.CopiedFrom | libs/maps/src/maps/CColouredPointsMap.cpp:70-94 | the coordinates and weights of the other map, white, with minimum distance 1e4 |
| ColouredPoints.KeepExactly | libs/maps/src/maps/CColouredPointsMap.cpp:1040-1069 | the kept elements are exactly those with a false mask entry, in their original order |
| ColouredPoints.CompactedKeepsUnmarked | libs/maps/src/maps/CColouredPointsMap.cpp:1040-1069 | deletion keeps exactly the unmarked points, in order, with their colours and weights; the count is the number of false entries |
| ColouredPoints.CompactedNothing | libs/maps/src/maps/CColouredPointsMap.cpp:1040-1069 | an all-false mask leaves the map as it is |
| ColouredPointsMap.CompactColumns | libs/maps/src/maps/CColouredPointsMap.cpp:1047-1069 | the two-index loop computes the specified compaction |
| ColouredPointsMap.CColouredPointsMap.constructor | libs/maps/src/maps/CColouredPointsMap.cpp:55-58 | an empty map with the given options and stale caches |
| ColouredPointsMap.CColouredPointsMap.CopyFrom | libs/maps/src/maps/CColouredPointsMap.cpp:70-94 | a self-copy changes nothing; otherwise the coordinates and weights of the other, white, min distance 1e4 |
| ColouredPointsMap.CColouredPointsMap.Clear | libs/maps/src/maps/CColouredPointsMap.cpp:839-846 | empties only the coordinate vectors and marks the caches stale |
| ColouredPointsMap.CColouredPointsMap.SetPoint | libs/maps/src/maps/CColouredPointsMap.cpp:864-896 | an index past the end is an error and changes nothing; otherwise only that point changes |
| ColouredPointsMap.CColouredPointsMap.SetPoint2D | libs/maps/src/maps/CColouredPointsMap.cpp:852-884 | as SetPoint, with z set to 0 |
| ColouredPointsMap.CColouredPointsMap.GetPoint | libs/maps/src/maps/CColouredPointsMap.cpp:1353-1366 | an index past the end is an error; otherwise the point and its colour |
| ColouredPointsMap.CColouredPointsMap.InsertPoint | libs/maps/src/maps/CColouredPointsMap.cpp:1006-1035 | appends one white point of weight 1 and marks the caches stale |
| ColouredPointsMap.CColouredPointsMap.SetAllPoints | libs/maps/src/maps/CColouredPointsMap.cpp:1488-1504 | the given points, white with weight 1 |
| ColouredPointsMap.CColouredPointsMap.SetAllPoints2D | libs/maps/src/maps/CColouredPointsMap.cpp:1506-1519 | the given points with z = 0 |
| ColouredPointsMap.CColouredPointsMap.ResetPointsMinDist | libs/maps/src/maps/CColouredPointsMap.cpp:1463-1466 | every point's minimum distance becomes the value; nothing else changes |
| ColouredPointsMap.CColouredPointsMap.ApplyDeletionMask | libs/maps/src/maps/CColouredPointsMap.cpp:1040-1069 | a mask of the wrong length is an error and changes nothing; otherwise the compaction |
| RangeScan.Clamp01 | libs/maps/src/maps/CColouredPointsMap.cpp:231-232 | the height fraction is clamped to [0, 1] |
| RangeScan.GrayShading | libs/maps/src/maps/CColouredPointsMap.cpp:228-243 | grey shading is black at or below z_min, white at or above z_max, and its red channel never decreases with height |
| RangeScan.FractionMono | libs/maps/src/maps/CColouredPointsMap.cpp:231-232 | the clamped height fraction never decreases with height |
| RangeScan.RunConsistent | libs/maps/src/maps/CColouredPointsMap.cpp:204-321 | after any prefix of readings the decimation state matches its meaning: first until a valid reading, last valid and last inserted flags, previous inserted point |
| RangeScan.DecimatedSpacing | libs/maps/src/maps/CColouredPointsMap.cpp:255-314 | consecutive inserted points, except possibly the last, are more than the minimum spacing apart |
| RangeScan.DecimatedFromReadings | libs/maps/src/maps/CColouredPointsMap.cpp:213-334 | every inserted point is one of the valid readings, and there are no more of them than valid readings |
| RangeScan.DecimatedStartsWithFirstValid | libs/maps/src/maps/CColouredPointsMap.cpp:259-261 | the first valid reading is always inserted |
| RangeScan.DecimatedEndsWithLastValid | libs/maps/src/maps/CColouredPointsMap.cpp:323-334 | a final valid reading is always present at the end |
| RangeScan.NoSpacingKeepsAll | libs/maps/src/maps/CColouredPointsMap.cpp:195-199 | a negative minimum distance disables the spacing test: when every reading is valid, every reading is inserted, in order |
| RangeScan.ValidAfterGapSkipped | libs/maps/src/maps/CColouredPointsMap.cpp:259 | whatever the spacing, a valid reading straight after an invalid one is not inserted by the loop once an earlier reading was valid, since the test needs `lastPointWasValid` |
| RangeScan.NoSpacingDropsAfterGap | libs/maps/src/maps/CColouredPointsMap.cpp:259 | with no spacing, readings valid, invalid, valid, invalid, valid give only the first and the last |
| RangeScan.EmptyScanPushesOnePoint | libs/maps/src/maps/CColouredPointsMap.cpp:204-334 | an empty scan still appends one point, at the never-assigned last coordinates |
| RangeScan.RunExtends | libs/maps/src/maps/CColouredPointsMap.cpp:213-321 | points are only ever appended: each prefix's output is a prefix of the whole |
| RangeScan.AppendScanAppends | libs/maps/src/maps/CColouredPointsMap.cpp:296-303 | scanned points are appended with their own scheme colour, weight 1 and minimum distance 1e4, after the unchanged existing points |
| ColouredPointsMap.DecimateScan2D | libs/maps/src/maps/CColouredPointsMap.cpp:195-336 | an unknown colour scheme fails exactly when a valid reading is met; otherwise the map gains the decimated readings |
| ColouredPointsMap.DecimateScan3D | libs/maps/src/maps/CColouredPointsMap.cpp:423-552 | the same for 3D scans, with intensity from the image when its size matches |
| ColouredPointsMap.SchemeColour | libs/maps/src/maps/CColouredPointsMap.cpp:224-252 | a known scheme yields its colour; any other value is the unknown-scheme error |
| ColouredPointsMap.NextPixel | libs/maps/src/maps/CColouredPointsMap.cpp:529-536 | the image cursor advances by one pixel in row-major order |
| ColouredPointsMap.Loaded2D | libs/maps/src/maps/CColouredPointsMap.cpp:99-339 | a failed load leaves the map as emptied or kept by `addToExistingPointsMap` |
| ColouredPointsMap.Loaded3D | libs/maps/src/maps/CColouredPointsMap.cpp:343-552 | a failed load leaves the map as emptied or kept by `addToExistingPointsMap` |
| ColouredPointsMap.NoneValid2D | libs/maps/src/maps/CColouredPointsMap.cpp:255-261 | if the decimation never met its first point, the scan had no valid reading |
| ColouredPointsMap.CColouredPointsMap.LoadFromRangeScan2D | libs/maps/src/maps/CColouredPointsMap.cpp:99-339 | the map becomes the specified 2D load and the caches go stale |
| ColouredPointsMap.CColouredPointsMap.LoadFromRangeScan3D | libs/maps/src/maps/CColouredPointsMap.cpp:343-556 | the map becomes the specified 3D load and the caches go stale |
| PointFusion.ClosestSelects | libs/maps/src/maps/CColouredPointsMap.cpp:950-965 | the selection picks a correspondence exactly when one passes the test against 1e6, and no other beats it |
| PointFusion.Closest | libs/maps/src/maps/CColouredPointsMap.cpp:950-965 | the chosen index, if any, belongs to a correspondence of the point |
| PointFusion.NearCorrespondenceIgnored | libs/maps/src/maps/CColouredPointsMap.cpp:959 | as written, a correspondence of two coincident points is not selected; the intended test selects it |
| PointFusion.AsWrittenIgnoresNear | libs/maps/src/maps/CColouredPointsMap.cpp:950-965 | as written, no correspondence within squared distance 1e6 is ever selected |
| PointFusion.IntendedPicksNearest | libs/maps/src/maps/CColouredPointsMap.cpp:950-965 | the intended test selects a correspondence whenever one is nearer than 1e6, and the nearest one |
| PointFusion.FuseShape | libs/maps/src/maps/CColouredPointsMap.cpp:932-997 | after fusion the count is nThis plus the unmatched points; old points are unflagged exactly when merged; appended points are unflagged |
| PointFusion.FuseStep | libs/maps/src/maps/CColouredPointsMap.cpp:967-997 | one step never drops a point and keeps one flag per point; the minimum distances are untouched |
| PointFusion.Fuse | libs/maps/src/maps/CColouredPointsMap.cpp:945-998 | the map keeps at least its old points with one flag per point; the minimum distances are untouched |
| PointFusion.AsWrittenNoneMerged | libs/maps/src/maps/CColouredPointsMap.cpp:950-965 | as written, with every correspondence within 1e6, nothing is merged and every point is appended |
| PointFusion.AsWrittenAppendsAll | libs/maps/src/maps/CColouredPointsMap.cpp:950-995 | as written, with every correspondence within 1e6 the count becomes nThis + nOther and only the old points stay flagged |
| PointFusion.MergeConserves | libs/maps/src/maps/CColouredPointsMap.cpp:970-980 | merging a weight-1 point into point j adds 1 to the total weight and the point's coordinate to the weighted coordinate sum |
| PointFusion.AppendConserves | libs/maps/src/maps/CColouredPointsMap.cpp:987-994 | appending a weight-1 point adds 1 to the total weight and its coordinate to the weighted sum |
| PointFusion.FuseStepConserves | libs/maps/src/maps/CColouredPointsMap.cpp:967-997 | one fusion step with a weight-1 point keeps the balance between the maps |
| PointFusion.AverageWeighs | libs/maps/src/maps/CColouredPointsMap.cpp:974-978 | the merged coordinate is the weighted centroid (w_a·a + w_b·b)/(w_a + w_b) |
| PointFusion.FuseConserves | libs/maps/src/maps/CColouredPointsMap.cpp:945-998 | when every weight of the other map is 1, fusion never fails, the total weight grows by the number of points fused and each weighted coordinate sum by the sum of their coordinates |
| ColouredPointsMap.FuseNeverFails | libs/maps/src/maps/CColouredPointsMap.cpp:972 | the weight-sum assertion cannot fail when the other map's weights are positive |
| ColouredPointsMap.SelectClosest | libs/maps/src/maps/CColouredPointsMap.cpp:950-965 | the selection loop computes the specified choice |
| ColouredPointsMap.FuseColumns | libs/maps/src/maps/CColouredPointsMap.cpp:932-997 | the loop computes the specified fusion, and a zero weight sum is the assertion error |
| ColouredPointsMap.CColouredPointsMap.FuseWith | libs/maps/src/maps/CColouredPointsMap.cpp:903-997 | the map and the flags become the specified fusion; the caches go stale |
| ColouredPointsMap.MarkedKeeps | libs/maps/src/maps/CColouredPointsMap.cpp:1176-1189 | the deletion removes exactly the flagged points inside the scan polygon, keeping the rest in order |
| ColouredPointsMap.MarkInside | libs/maps/src/maps/CColouredPointsMap.cpp:1176-1185 | the marking loop computes the specified mask |
| ColouredPointsMap.CColouredPointsMap.DeleteInside | libs/maps/src/maps/CColouredPointsMap.cpp:1166-1190 | the map becomes its compaction by that mask |
| ColouredPointsMap.InsertFusedSucceeds | libs/maps/src/maps/CColouredPointsMap.cpp:1132-1147 | fusing a freshly loaded scan never fails the weight assertion |
| ColouredPointsMap.InsertFusedAsWritten | libs/maps/src/maps/CColouredPointsMap.cpp:1130-1192 | as written, fusing a 2D scan appends all its points, and deletion removes exactly the old points inside the scan polygon |
| ColouredPointsMap.InsertAddedKeepsAll | libs/maps/src/maps/CColouredPointsMap.cpp:1148-1173 | without fusion the scan is appended and nothing is deleted, given that the point-in-polygon test is false for a polygon with no vertices |
| ColouredPointsMap.CColouredPointsMap.InsertObservation | libs/maps/src/maps/CColouredPointsMap.cpp:1081-1270 | dispatches on the observation kind; other kinds are not inserted and change nothing |
| ColouredPointsMap.CColouredPointsMap.Insert2DScan | libs/maps/src/maps/CColouredPointsMap.cpp:1100-1196 | a planar map rejects a non-planar scan; otherwise fuse or append, then free-space deletion unless disabled |
| ColouredPointsMap.CColouredPointsMap.Insert3DScan | libs/maps/src/maps/CColouredPointsMap.cpp:1198-1263 | a planar map rejects every 3D scan; otherwise fuse or append, with no deletion |
| ColouredPointsStream.WeightsRoundTrip | libs/maps/src/maps/CColouredPointsMap.cpp:779-784 | weights written at 32 or 64 bits read back |
| ColouredPointsStream.BoolsRoundTrip | libs/maps/src/maps/CColouredPointsMap.cpp:790-795 | the six insertion flags read back |
| ColouredPointsStream.Parse | libs/maps/src/maps/CColouredPointsMap.cpp:747-834 | versions above 6 are unknown; below 4 every point is white with minimum distance 2000; version 0 reads no weights, so the weight vector is resized to n keeping the earlier weights and filling new entries with 1; older versions keep the unread settings |
| ColouredPointsStream.LegacyOptionsRead | libs/maps/src/maps/CColouredPointsMap.cpp:787-807 | versions 3 to 5 read the options and the save flag as version 6 does, dropping the extra `matchStaticPointsOnly` flag whatever it holds |
| ColouredPointsStream.Version2OptionsRead | libs/maps/src/maps/CColouredPointsMap.cpp:787-802 | version 2 reads the options and drops the same flag, has no tolerance and keeps the map's previous `horizontalTolerance` |
| ColouredPointsStream.RoundTrip | libs/maps/src/maps/CColouredPointsMap.cpp:699-834 | reading version 6 of what is written gives the points, options, colours and likelihood options back |
| ColouredPointsMap.CColouredPointsMap.WriteToStream | libs/maps/src/maps/CColouredPointsMap.cpp:699-741 | writes the specified archive |
| ColouredPointsMap.CColouredPointsMap.ReadFromStream | libs/maps/src/maps/CColouredPointsMap.cpp:747-834 | a successful parse replaces the stored state and marks the caches stale; an error changes nothing |

## Left out

- ICP.Tail: `nIterations` is an `unsigned short` and wraps at 65536; the model does the same, and then proves termination only when `smallestThresholdDist` is positive, ALFA lies in (0, 1) and `maxIterations` is below 65536. Over the reals the loop need not end otherwise, and with `maxIterations` of 65536 or more the wrapped count never reaches it.
- ICP: the finite-difference Jacobians, the 3×3 inverse, the quality score and the goodness ratio are floating-point work. The matcher, the least-squares solver and the RANSAC fitting are parameters.
- ICP: the 3D variant (`Align3DPDF`, `ICP3D_Method_Classic`) is not part of this model.
- Point2DGaussian.MahalanobisSquared: the distance is modelled squared, because `sqrt` has no counterpart over the reals; non-negativity is proved for positive-definite covariances.
- Pose3DParticles: `exp`, `wrapToPi` and the pose inverse are parameters. The archive, `saveToTextFile`, sampling and `changeCoordinatesReference` are left out. `bayesianFusion` only throws "not implemented" and has no member.
- Pose3DParticles.CPose3DPDFParticles.GetMostLikelyParticle: requires a non-empty set; the source dereferences `begin()` of an empty list.
- CColouredPointsMap: the scan's trigonometric projection is left out. Scans are modelled as already-projected readings. The `also_interpolate` branch and self-fusion (`fuseWith(this)`) are left out.
- ColouredPointsMap: the text-file loaders and savers, `colourFromObservation`, `getAs3DObject`, `reserve` and the kd-tree are left out.
- Weights are unbounded naturals: the `uint32_t` wrap-around of `pointWeight` is not modelled.
- ColouredPointsStream.Parse: versions 1 to 3 read `sizeof(unsigned long)*n` bytes into the `uint32_t` weight buffer, which on a 64-bit platform is twice the buffer's size. The model reads one 64-bit weight item per point into the weights and does not capture the overrun or the byte layout.
- Colour schemes: the enumeration is not shown. The model takes Jet = 0, Gray = 1, FromIntensityImage = 2.
- ColouredPointsMap.CColouredPointsMap.ReadFromStream: on an error the model leaves the map unchanged. The source may have assigned some fields before the exception.
- DoubleRange: `values()` is only declared in the header, so it has no member. An unknown range type cannot arise from the three factories, and the model has only those three modes.
- CThreadSafeQueue: the critical sections and the destructor are left out. Freed messages are recorded in the ghost field `freed`, which stands for the `delete` calls.
- CRenderizable: the OpenGL calls, `checkOpenGLError` and rendering are left out. The `csTextureNames` critical section that guards the texture-name table is left out, as the model has no concurrency.
- SetOfTriangles.CSetOfTriangles.GetPolygons: requires an output at least as long as the set. The source writes into the caller's vector without resizing it, which is undefined behaviour for a shorter one.
- Pose3DParticles.CPose3DPDFParticles.Inverse: the source asserts that the output is a particle PDF; the out-parameter's type makes that check hold in every call, so it has no counterpart.
- Renderizable.TextureNamesInfo.ReleaseTextureName: models the body compiled with `MRPT_HAS_OPENGL_GLUT`; without GLUT the function does nothing, which the model does not capture. A name outside the table, which indexes past the vector in the source, is excluded by the requires.
- Polygon.CPolygon.ReadFromStream, Matrix.CMatrix.ReadFromStream, Renderizable.CRenderizable.ReadFromStreamRender, SetOfTriangles.CSetOfTriangles.ReadFromStream: on a failed parse the contracts say nothing about the object. The source may have assigned some fields before the exception.
- DoubleRange.Increment: a range made from an aperture or a final value with `amount` 1 divides by zero in floating point; the requires excludes it.
- DoubleRange.Amount: the amount is an unbounded natural. The source casts `ceil(...)` to `size_t`, which is undefined for a quotient too large for it, and `1 +` wraps at 2^64 − 1; neither is modelled.
- Point2DGaussian.Fuse, Point2DGaussian.MahalanobisSquared, Point2DGaussian.CPoint2DPDFGaussian.BayesianFusion: the source inverts the covariances (for the distance, their sum) without a check; a singular matrix gives infinities or NaN in floating point, so the requires exclude it. This includes the zero covariance the constructors start with.
- ICP.Kernel: the source divides by x² + ρ² unconditionally; a zero denominator gives NaN in floating point, so the requires exclude it.
- Streams: archives are typed items, so a misaligned read in the source, which yields wrong values, is the error `TypeMismatch` in the model. Renderizable.SentinelClash and SetOfTriangles.ScaledSetMisread show such reads as errors, while the source goes on with wrong values.
- ColouredPointsMap.InsertAddedKeepsAll: assumes that the point-in-polygon test, which is not part of this model, is false for a polygon with no vertices.
- Floating point: `float` and `double` are both `real`. Rounding and the `float` casts of the writers are not modelled.

## Findings

| source | as written | input that shows it | evidently intended | confidence | as-written member | corrected member |
|---|---|---|---|---|---|---|
| libs/maps/src/maps/CColouredPointsMap.cpp:959 | `if (minDist<dist)` with `minDist` starting at 1e6 keeps only correspondences farther apart than 1000 | one correspondence between two coincident points: it is not selected, so the point is appended instead of merged | `dist < minDist`, which selects the closest correspondence | high; not executed | PointFusion.NearCorrespondenceIgnored | PointFusion.IntendedPicksNearest |
| libs/maps/src/maps/CColouredPointsMap.cpp:839-846 | `internal_clear` empties `x`, `y` and `z` only, so the colour and weight vectors keep their entries | insert a point, set its red to 0.5, clear, then insert a new point: the new point reads red 0.5 | clear every parallel vector | high; not executed | ColouredPoints.ClearLeavesStaleColours | ColouredPoints.ClearAllThenPush |
| libs/opengl/src/CRenderizable.cpp:186-193 | `f` is overwritten with the roll before `f==17.0f` is tested, so visibility is read only when the roll is 17° | a scaled object with roll 30° and visibility false reads back visible, with the flag left in the stream; a scaled `CSetOfTriangles` then reads that flag as its triangle count | test the sentinel read before the roll | high; not executed | Renderizable.VisibilityLeftUnread | Renderizable.RoundTrip |

`PointFusion.Fuse` takes the selection test as a parameter, and `FuseShape` and
`FuseConserves` hold for both tests. The map class and the insertion policy
keep the code's behaviour as written.
