# KinectHelper calibration core, in Dafny

`KinectHelper` calibrates a tilted depth sensor that looks down at a floor.
The user picks four image points that outline a floor quadrilateral. From
them the helper does four things:

- it sorts the points into corners and extrapolates the right edge to a
  vanishing point;
- it builds an 8x8 linear system whose solution is the projective transform
  taking the quadrilateral onto an axis-aligned rectangle;
- it projects image points through that transform and snaps them onto a
  raster grid;
- it writes and reads points as `[x:y]` text.

Beside these sit once-only guards for its two calibrations, and the tilt
calibration's pixel-per-centimetre scales.

This project models the exact integer layer around the numerics:

| module | file | what it holds |
|---|---|---|
| `Geometry` | geometry.dfy | `Point`, the 640x480 frame constants, C++ truncating division (`TruncDiv`), the double-to-int cast (`Trunc`), the truncated midpoint (`Mid`) |
| `Corners` | corners.dfy | the corner classification loop and its specification, the vanishing-point extrapolation |
| `PointOrder` | ordering.dfy | `pointSort` and the sorted copy of the calibration points |
| `Homography` | homography.dfy | the target rectangle, the 8x8 system filled row by row into a 2-D array, the projective formula |
| `Projection` | projection.dfy | raster cell sizes, `Raster`, and the projection of a point |
| `PointText` | pointtext.dfy | `operator<<` and `operator>>` for points, with `atoi` |
| `Kinect` | kinect_helper.dfy | class `KinectHelper`, with the static state as fields and the calibrations as methods that change it |

Doubles are modelled as exact reals, an idealisation. Every point where C++
turns a value into an `int` is written out: `int / int` truncates toward
zero, and so does assigning a double to an `int` field.

The guarded calibrations follow the code. `CalibrateVanishingPoint` does
nothing unless its flag is clear and there are exactly four points. After
it runs, the vanishing point's column is 320 and every later call changes
nothing. `CalibrateAnglesAndViewport` has the same once-only guard.

A few facts about the code shape the model:

- `Raster` truncates toward zero (KinectHelper.cpp:317-320).
- The cell sizes use the calibration points in the order given. The
  homography uses the `pointSort` order.
- A vertical right edge makes the extrapolation divide by zero
  (KinectHelper.cpp:109), so the model requires a slanted edge.
- `gesv`'s result is stored even when the system is singular.
- With other than four calibration points, `CalibrateVanishingPoint` and
  `SetupProjectionVector` do nothing and report nothing.

## Model

| member | source | states |
|---|---|---|
| `Geometry.TruncDiv` | KinectHelper.cpp:137-139 | C++ integer division: the remainder is smaller than the divisor in magnitude and has the sign of the dividend, which fixes the quotient uniquely |
| `Geometry.Trunc` | KinectHelper.cpp:319-320 | the double-to-int conversion: the result lies within 1 of the value, on the zero side of it |
| `Geometry.Mid` | KinectHelper.cpp:137-139 | `(a + b) / 2` in int: twice the midpoint is `a + b` or is 1 closer to zero |
| `Geometry.TruncOfQuotient` | KinectHelper.cpp:317-320 | converting the real quotient of two ints to int is the same as their truncating integer division |
| `Geometry.TruncDivOfMultiple` | KinectHelper.cpp:317-320 | dividing an exact multiple of `c` by `c` gives back the factor |
| `Corners.Place` | KinectHelper.cpp:93-102 | one turn of the loop: no corner that is already set is overwritten, a new corner holds the current point, and a point on column 320 changes nothing |
| `Corners.ClassifyCorners` | KinectHelper.cpp:89-103 | the loop over the points computes the classification map `Classify` |
| `Corners.ClassifyBySide` | KinectHelper.cpp:90-103 | TopRight/BottomRight are exactly the first and second points with x > 320 and TopLeft/BottomLeft the first and second with x < 320; a corner is filled iff such a point exists; points on x = 320 and extra points on a side are dropped |
| `Corners.ClassifyKeepsCorners` | KinectHelper.cpp:95-101 | a corner that is set after any prefix of the points keeps its value to the end |
| `Corners.ClassifyExample` | KinectHelper.cpp:90-103 | (100,100), (500,100), (100,400), (500,400) classify as TL, TR, BL, BR |
| `Corners.CornerOr` | KinectHelper.cpp:105-107 | reading an unset corner through `std::map::operator[]` gives (0, 0) |
| `Corners.VanishingY` | KinectHelper.cpp:105-112 | the extrapolated row is collinear with the TopRight-BottomRight edge at column 320 |
| `Corners.VanishingYIsTheCrossing` | KinectHelper.cpp:105-112 | a row on column 320 is collinear with the right edge iff it is VanishingY |
| `Corners.VanishingPointOf` | KinectHelper.cpp:112-114 | the stored vanishing point has x = 320, and its y is the crossing row truncated (within 1, not larger in magnitude) |
| `PointOrder.PointLess` | KinectHelper.cpp:122-125 | `pointSort`: within a row, points order by column, and within a column, by row; `PointLessIsStrictWeakOrder` and `PointLessIsRowMajor` give the rest |
| `PointOrder.PointLessIsStrictWeakOrder` | KinectHelper.cpp:122-125 | `pointSort` is irreflexive and transitive, and incomparability (equal keys) is transitive |
| `PointOrder.PointLessIsRowMajor` | KinectHelper.cpp:122-125 | for columns 0..999 the key `x + 1000*y` orders by row, then by column |
| `PointOrder.Insert` | KinectHelper.cpp:133-134 | inserting adds exactly one copy of the point and nothing else |
| `PointOrder.InsertKeepsSorted` | KinectHelper.cpp:133-134 | inserting into a key-sorted sequence keeps it sorted |
| `PointOrder.SortByKey` | KinectHelper.cpp:133-134 | the sorted copy is a permutation of the calibration points with non-decreasing keys |
| `Homography.TargetRect` | KinectHelper.cpp:137-145 | the rectangle is axis-aligned; its left and right columns are the truncated midpoints `Mid` of points 0,2 and 1,3, its top row that of points 0,1, and its bottom row is `top + width*480/640` truncated toward zero (`Trunc`) |
| `Homography.TargetRectHeight` | KinectHelper.cpp:141-145 | with a non-negative top and width, the height is exactly `3*width/4` |
| `Homography.BuildSystem` | KinectHelper.cpp:147-181 | an 8x8 matrix and 8-vector where row 2m is `[x, y, 1, 0, 0, 0, -X*x, -X*y]` with right-hand side X, and row 2m+1 is `[0, 0, 0, x, y, 1, -Y*x, -Y*y]` with right-hand side Y |
| `Homography.FillPair` | KinectHelper.cpp:153-180 | one loop turn writes rows n and n+1 and their right-hand sides, and leaves all other entries alone |
| `Homography.FillRow` | KinectHelper.cpp:155-180 | one row and its right-hand side are written, and all other entries are left alone |
| `Homography.ProjectReal` | KinectHelper.cpp:248-249 | the projective formula: each coordinate times the denominator `v6*x + v7*y + 1` is its numerator |
| `Homography.RowsAreProjection` | KinectHelper.cpp:155-180 | a vector satisfies both rows of a point pair iff `v0*x+v1*y+v2 = X*(v6*x+v7*y+1)` and `v3*x+v4*y+v5 = Y*(v6*x+v7*y+1)` |
| `Homography.PairIffMapsOntoCorner` | KinectHelper.cpp:151-181 | with a nonzero denominator, pair m of rows holds iff the projective formula maps point m onto corner m |
| `Homography.SolvesSystemIffMapsOntoRect` | KinectHelper.cpp:151-184 | with nonzero denominators, v solves the 8x8 system iff it maps each of the four points onto its rectangle corner |
| `Homography.SolutionMapsCorner` | KinectHelper.cpp:183-184 | a solution of the system maps each calibration point onto its rectangle corner |
| `Projection.CellSizes` | KinectHelper.cpp:256-263 | the cell sizes are non-negative, and four of them is within 3 below the distance between the edge midpoints |
| `Projection.QuarterBounds` | KinectHelper.cpp:262-263 | `abs(d / 4)` times 4 lies within 3 below `abs(d)` |
| `Projection.SnapToward0` | KinectHelper.cpp:317-320 | with an integral cell, one coordinate snaps to the truncated quotient times the cell: a multiple of the cell, of the input's sign, no larger in magnitude, less than a cell away |
| `Projection.Raster` | KinectHelper.cpp:313-323 | `Raster` on any nonzero cells: each coordinate becomes a multiple of its cell truncated to int, or 0 when that truncated cell is 0; `RasterSnapsToGrid` and `RasterIdempotent` give the exact value and idempotence |
| `Projection.RasterSnapsToGrid` | KinectHelper.cpp:313-320 | with integral nonzero cells, both coordinates are multiples of their cells, keep their sign, do not grow in magnitude and move less than a cell |
| `Projection.RasterIdempotent` | KinectHelper.cpp:313-320 | rastering twice is the same as rastering once |
| `Projection.Project` | KinectHelper.cpp:245-268 | the result is the exact projective image truncated to int, then divided by the cell with truncation and multiplied back: a grid point of the image's sign, no larger in magnitude, within one cell plus one pixel of the exact image |
| `Projection.ProjectPointOfPixel` | KinectHelper.cpp:248-265 | a point whose exact image is a pixel projects onto that pixel, rastered |
| `Projection.ProjectCalibrationPoint` | KinectHelper.cpp:245-268 | through a transform that solves the system, each sorted calibration point projects onto its rectangle corner, rastered |
| `PointText.FormatPoint` | KinectHelper.cpp:343-347 | `operator<<`: the text is `[`, then x, then the only `:`, then y, then `]`; `ParseFormatRoundTrip` reads it back |
| `PointText.Decimal` | KinectHelper.cpp:345 | an int is written as digits, with a leading `-` exactly when it is negative, and never contains `:` |
| `PointText.FirstColon` | KinectHelper.cpp:354 | the lazy group 1 ends at the first `:`, and no `:` comes before it |
| `PointText.LeadingDigits` | KinectHelper.cpp:363-364 | `atoi` reads the longest prefix made of digits |
| `PointText.SkipSpace` | KinectHelper.cpp:363-364 | `atoi` first skips leading white space |
| `PointText.DigitsValueOfDigits` | KinectHelper.cpp:363-364 | reading back the decimal digits of n gives n |
| `PointText.LeadingDigitsOfDigits` | KinectHelper.cpp:363-364 | a run of digits is read whole |
| `PointText.Atoi` | KinectHelper.cpp:363-364 | `atoi`: a negative result comes only from a leading `-` after the white space, and a run of digits reads as its decimal value; `AtoiOfDecimal` inverts `Decimal` |
| `PointText.AtoiOfDecimal` | KinectHelper.cpp:345-364 | `atoi` of the written form of an int is that int |
| `PointText.ParsePoint` | KinectHelper.cpp:349-367 | `operator>>` on one token: it yields a point iff the token is `[`...`]` with a `:` inside; `ParseGroups` gives the point's value |
| `PointText.ParseGroups` | KinectHelper.cpp:354-364 | `[g1:g2]`, with no `:` in g1, parses to `(atoi(g1), atoi(g2))`; g2 may contain `:` and `]` |
| `PointText.ParseFormatRoundTrip` | KinectHelper.cpp:343-364 | writing a point and reading it back gives the same point |
| `Kinect.KinectHelper.constructor` | KinectHelper.cpp:10-27 | initial state: vanishing point (-1, -1), empty transform, both flags clear, all scales 0 |
| `Kinect.KinectHelper.CalibrateAnglesAndViewport` | KinectHelper.cpp:64-81 | runs once, and later calls change nothing; the extra depth uses the geometric distance estimate, which is then replaced by the direct distance read at row 320, column 240; the scales are `abs(240/(d*tan))` and `abs(320/(d*tan))`, in ratio 4:3 |
| `Kinect.KinectHelper.CalibrateVanishingPoint` | KinectHelper.cpp:83-120 | changes nothing unless the flag is clear and there are exactly 4 points; then it sets the flag and the vanishing point (x = 320) and changes nothing else; later calls change nothing |
| `Kinect.KinectHelper.SetupProjectionVector` | KinectHelper.cpp:127-186 | with exactly 4 points it stores the solver's output and changes nothing else, and the calibration points are not reordered; if the output solves the system, the transform maps each sorted point onto its rectangle corner; with any other number of points nothing changes |
| `Kinect.KinectHelper.ProjectPoint` | KinectHelper.cpp:245-268 | over the current transform and calibration points: the exact projective image truncated to int and snapped toward zero onto the raster grid, within one cell plus one pixel of the exact image |

## Left out

- `GetTilt`, the depth-frame read and the `assert(dev/depthData)` checks (KinectHelper.cpp:33-38, 47-48, 55-56, 71) are device I/O. The values they feed in are parameters.
- `GetDirectDistanceInCM` and `GetDistanceOverGround` (KinectHelper.cpp:45-62) use `tan`, `pow` and `sqrt`, which cannot be modelled exactly.
- Kinect.KinectHelper.CalibrateAnglesAndViewport: the sine and cotangent of the tilt, the tangent of half the field of view and the measured direct distance come in as a `TiltReading`. The model does not compute them. The distance is the one at row 320, column 240, as `cvGet2D(depthData, 320, 240)` reads it (KinectHelper.cpp:71): the image point (240, 320), not the frame centre (320, 240).
- `GetAbsoluteCoordinates`, `GetToPosVector`, `GetOnImageVector` and `GetLeftFrameEdgeVector` (KinectHelper.cpp:284-311) rotate vectors with `sin`/`cos`. The world-mapping fields `frame_offset`, `view_angle`, `distance_coefficient`, `absolute_x`/`absolute_y` and `avg_values` are left out with them.
- `GetAbsoluteX` (KinectHelper.cpp:270-282) computes a slope and a frame column that it never uses, then returns `ProjectPoint`. It adds nothing to `Kinect.KinectHelper.ProjectPoint`.
- Kinect.KinectHelper.SetupProjectionVector: LAPACK `gesv` (KinectHelper.cpp:183) is a foreign linear solve. Its output is the parameter `solution`, an arbitrary 8-vector. The source ignores gesv's singularity report, so the model makes no claim about the stored transform beyond what holds when it solves the system.
- `DrawCalibrationData`, `DrawProjectedPoint`, `ProjectImage` and `operator<<(cv::Mat)` (KinectHelper.cpp:189-243, 337-341) are rendering and debug output. So are the `std::cout` traces.
- `operator>(CvScalar, double)` (KinectHelper.cpp:325-334) is floating point. Its loop bound `sizeof(a.val)` counts bytes, so it reads past the four-element array.
- `leftOf`, `rightOf` and `smallestIndex` (KinectHelper.cpp:369-382) are one-line comparators over cvblob types.
- PointText.ParsePoint: a token that is not of the form `[..:..]` gives `None`. The source's result there depends on boost's `match_partial` handling and on unset sub-matches.
- Floating point is modelled as exact reals. In particular, `(width / 640.0) * 480.0` could round to just below an integer and truncate one lower. The model does not capture that.
- 32-bit `int` overflow is not modelled: in the products of the 8x8 system, in the sort key or in `atoi`. Nor are double-to-int conversions of values outside the `int` range, which are undefined behaviour in C++. These occur at KinectHelper.cpp:114, 144-145, 248-249 and 319-320, for example with a near-zero projective denominator at 248-249. `Trunc` is defined for every real.
- PointOrder.SortByKey keeps points with equal keys in input order. `std::sort` leaves their order unspecified.
- Corners.VanishingPointOf and Kinect.KinectHelper.CalibrateVanishingPoint require a slanted right edge. With a vertical one, the source divides by zero at KinectHelper.cpp:109 and converts the result to `int`, which is undefined behaviour.
- Projection.Project and Kinect.KinectHelper.ProjectPoint require a nonzero projective denominator, nonzero raster cells, an 8-entry transform and at least four calibration points. Otherwise the source divides by zero, or it indexes an empty transform or `pointsUsedForCalibration[0..3]` without a size check (KinectHelper.cpp:256-260).
- Kinect.KinectHelper.CalibrateAnglesAndViewport treats `abs` at KinectHelper.cpp:72-73 as the `double` overload. If the `int` overload were picked, the scales would be truncated.
- `pointsUsedForCalibration` is filled by code outside this core. Here, callers assign `calibrationPoints`.
