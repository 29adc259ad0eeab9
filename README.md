# CDPR controller core in Dafny

A model of the computational core of the `CDPR` class, the controller object of a
cable-driven parallel robot. The robot moves an end-effector with eight cables. Each
cable runs from a winch over an idler pulley to the end-effector, and cables 4 to 7
hang from winches on a movable rail. The model covers three operations:

- **`CheckLimits`**: the workspace check. Over real values, it accepts the requested pose
  exactly when x, y and z each lie in their closed interval. The intervals come from the 6-entry
  `limit` array, laid out min0, max0, min1, max1, min2, max2. The rotational entries
  are never read.
- **`ToMotorCmd`**: the conversion from cable length to motor command units. It
  subtracts the motor's calibrated zero offset and scales by `cmdScale`. The sentinel
  motor id -1 skips the offset. The `double` result becomes an `int32_t` by truncation
  toward zero.
- **The length-assembly loop of `PoseToLength`**: for each of the `nodeNum` cables it
  writes arc length (`pRadius` times the wrap angle) plus straight segment into the
  caller's `lengths` array, and subtracts `rail_offset` for cables with index 4 or more.

Layout:

- `int32_conversion.dfy`, module `Int32Conversion`: the `int32` type and truncation
  toward zero (`Trunc`, `ToInt32`), with its uniqueness, monotonicity and symmetry.
- `cable_robot.dfy`, module `CableRobot`:
  - the limit predicates `AxisWithin` and `WithinLimits`, and lemmas about them;
  - the per-cable length specification `CableLength`, and lemmas about it;
  - class `Cdpr`, holding the object's state (`input`, `limit`, `offset`, `cmdScale`,
    `pRadius`, `nodeNum`) and the three operations.

The geometric part of `PoseToLength` is passed in as the parameter
`geometry: (seq<real>, int) -> CableGeometry`. That part is the Euler rotation, the
pulley plane, the tangent point, `acos` and the vector norms. The parameter gives, for
the pose and cable `i`, the wrap angle and the straight-segment length.
`CableGeometry.InRange` states the only facts assumed about it: the angle lies in
[0, π] and the segment length is non-negative. These appear as hypotheses of lemmas,
never as requirements of the method, because the code checks neither.

Where the code and the system's stated design disagree, the model follows the code:

- the design asks for rounding half away from zero; the code truncates toward zero;
- the design asks for an explicit per-cable rail flag; the code tests `i < 4`;
- the design asks for clamping the `acos` argument and reporting a cable whose end-effector
  outlet lies inside the pulley circle; the code does neither, so the model claims no
  degeneracy handling.

## Model

| member | source | states |
|---|---|---|
| `Int32Conversion.Trunc` | CDPR.cpp:119-120 | The result is the integer next to the argument on the side of zero, within 1 of it; arguments strictly between -1 and 1 give 0 |
| `Int32Conversion.ToInt32` | CDPR.cpp:118-121 | The implicit `double` to `int32_t` conversion, defined when the truncated value fits: it truncates toward zero and keeps the argument's sign |
| `Int32Conversion.TruncUnique` | CDPR.cpp:119-120 | Truncation toward zero determines its result: two integers that both truncate `x` are equal |
| `Int32Conversion.TruncMonotone` | CDPR.cpp:119-120 | Truncation is monotone: `x <= y` implies `Trunc(x) <= Trunc(y)` |
| `Int32Conversion.TruncatesToMonotone` | CDPR.cpp:119-120 | Any truncations of `x <= y` are ordered the same way |
| `Int32Conversion.TruncOdd` | CDPR.cpp:119-120 | Truncation is symmetric about zero: `Trunc(-x) == -Trunc(x)` |
| `Int32Conversion.TruncatesToOdd` | CDPR.cpp:119-120 | Any truncations of `x` and `-x` are each other's negation |
| `CableRobot.WithinLimitsByAxis` | CDPR.cpp:50-55 | The limit predicate holds iff `limit[0] <= c[0] <= limit[1]`, `limit[2] <= c[1] <= limit[3]` and `limit[4] <= c[2] <= limit[5]` (both directions) |
| `CableRobot.BoundsInclusive` | CDPR.cpp:52 | Moving an accepted coordinate exactly onto its minimum or its maximum keeps the pose accepted |
| `CableRobot.OutsideRejected` | CDPR.cpp:52 | A coordinate strictly below its minimum or above its maximum makes the check fail, whatever the other coordinates are |
| `CableRobot.RotationIgnored` | CDPR.cpp:51-52 | Only the first three pose entries matter: replacing the rotational entries leaves the verdict unchanged |
| `CableRobot.EmptyIntervalRejectsAll` | CDPR.cpp:52 | An axis whose minimum exceeds its maximum rejects every pose |
| `CableRobot.ArcLengthRange` | CDPR.cpp:104 | With `pRadius > 0` and a wrap angle in [0, π], the arc length lies between 0 and `pRadius * π` |
| `CableRobot.RailOffsetShift` | CDPR.cpp:107 | Changing the rail offset leaves cables 0 to 3 unchanged and shifts every cable from 4 on by exactly the difference, in the opposite direction |
| `CableRobot.CableLengthLowerBound` | CDPR.cpp:104-107 | With `pRadius > 0` and the geometry in range, a cable is at least its straight segment, less the rail offset on the rail; cables 0 to 3 are non-negative |
| `CableRobot.Cdpr.constructor` | CDPR.cpp:22-33 | Stores the already-parsed limits, offsets, command scale, pulley radius and cable count in fresh arrays, and establishes `Valid()`: six-entry pose and limit buffers, and three distinct member arrays |
| `CableRobot.Cdpr.CheckLimits` | CDPR.cpp:50-55 | Returns true iff every translational coordinate of `input` lies in its closed `limit` interval; reads only, modifies nothing |
| `CableRobot.Cdpr.ToMotorCmd` | CDPR.cpp:118-121 | For id -1 the result truncates `length * cmdScale` toward zero and the function's frame excludes `offset`; for a valid id `k` it truncates `(length - offset[k]) * cmdScale`; changes nothing |
| `CableRobot.Cdpr.ToMotorCmdTruncates` | CDPR.cpp:119-120 | Both branches in one form: the command truncates `(length - zero) * cmdScale`, where `zero` is 0 for the sentinel and `offset[k]` for motor `k` |
| `CableRobot.Cdpr.ToMotorCmdMonotone` | CDPR.cpp:119-120 | With `cmdScale > 0`, a longer cable never gets a smaller command, for the sentinel and for every motor |
| `CableRobot.Cdpr.SentinelCmdSymmetric` | CDPR.cpp:119 | Without an offset, lengths `d` and `-d` give commands of equal size and opposite sign |
| `CableRobot.Cdpr.MotorCmdSymmetric` | CDPR.cpp:120 | Lengths `offset[k] + d` and `offset[k] - d` give commands of equal size and opposite sign |
| `CableRobot.Cdpr.ToMotorCmdZeroAtOffset` | CDPR.cpp:119-120 | A cable at its motor's zero offset (length 0 for the sentinel) is always convertible and is commanded to 0 |
| `CableRobot.Cdpr.PoseToLength` | CDPR.cpp:71-108 | For `nodeNum <= 8`: each `lengths[i]` with `i < nodeNum` becomes arc plus straight segment for the pose read on entry, less `railOffset` exactly when `i >= 4`; every other entry keeps its value |

## Left out

- The constructor's reading of `model.json`, its JSON parsing and its exception handler (CDPR.cpp:13-47) are file I/O. `Cdpr.constructor` takes the parsed values as parameters instead.
- `IsGood` and `isValidModel`: this file only ever sets the flag to false. Its initial value is in `CDPR.h`, which is not part of this model.
- `offset` is never assigned in CDPR.cpp. The constructor takes it as a parameter.
- `home`, `endEffOffset`, `targetTorque`, `absTorqueLmt` and the getters `EEOffset`, `TargetTorque`, `AbsTorqLmt`, `NodeNum`, `MotorScale` (CDPR.cpp:111-115) only return stored values.
- `PrintIn`, `PrintOut`, `PrintHome` (CDPR.cpp:57-69) are console output.
- The geometry of `PoseToLength` (CDPR.cpp:77-103): rotation matrices from `cos`/`sin`, Eigen cross products and norms, the `sqrt` tangent-point construction and `acos`. These are floating-point transcendental numerics. They are the `geometry` parameter, with only the range facts of `InRange`. The Euler composition order, the tangent-point sign choice, and the behaviour when the outlet lies inside the pulley circle or the `acos` argument leaves [-1, 1] are therefore not modelled.
- The local 8-element arrays `orA` and `orB` (CDPR.cpp:73-74) hold vectors of that geometry. They appear only as the precondition `nodeNum <= 8`.
- `CableRobot.Cdpr.CheckLimits`: NaN and infinite values are not modelled. A NaN coordinate makes both comparisons of CDPR.cpp:52 false, so its axis passes even when its interval is empty. A NaN bound disables only its own comparison, so that side of the interval is not enforced. `WithinLimits` and `EmptyIntervalRejectsAll` describe real values only.
- IEEE-754 rounding: every value is a `real`. The `(float)` narrowing of the limits on load (CDPR.cpp:32) is not modelled.
- An out-of-range `double` to `int32_t` conversion is undefined behaviour in C++. `ToMotorCmd` therefore requires, through `Commandable`, that the scaled value truncate into the `int32_t` range.
- Properties that depend on the concrete geometry are not stated: home-pose golden values, mirror symmetry of the lengths, and strictly positive lengths at home.
