/** The computational core of the CDPR controller class: the workspace limit
    check, the cable-length to motor-command conversion and the assembly of the
    per-cable lengths for a requested end-effector pose. */
module CableRobot {
  import opened Int32Conversion

  /** Entries of a pose array: x, y, z, then the three Euler angles. */
  const PoseSize := 6
  /** Capacity of the fixed-size per-cable arrays of the length computation. */
  const MaxNodes := 8
  /** Cables with this index or a higher one hang from winches on the rail. */
  const FirstRailCable := 4
  /** π to twenty decimal places; no `acos` result in double precision exceeds it. */
  const Pi: real := 3.14159265358979323846

  // ---------------------------------------------------------------------------
  // Workspace limits
  // ---------------------------------------------------------------------------

  /** Coordinate `axis` of `coords` lies in the closed interval that `limit`
      gives for it; `limit` is laid out min0, max0, min1, max1, min2, max2. */
  predicate AxisWithin(coords: seq<real>, limit: seq<real>, axis: int)
    requires |coords| >= 3 && |limit| >= 6 && 0 <= axis < 3
  {
    limit[2 * axis] <= coords[axis] <= limit[2 * axis + 1]
  }

  /** All three translational coordinates lie inside their intervals. */
  predicate WithinLimits(coords: seq<real>, limit: seq<real>)
    requires |coords| >= 3 && |limit| >= 6
  {
    forall axis :: 0 <= axis < 3 ==> AxisWithin(coords, limit, axis)
  }

  /** The check written out axis by axis, both directions. */
  lemma WithinLimitsByAxis(coords: seq<real>, limit: seq<real>)
    requires |coords| >= 3 && |limit| >= 6
    ensures WithinLimits(coords, limit) <==>
      (limit[0] <= coords[0] <= limit[1] &&
       limit[2] <= coords[1] <= limit[3] &&
       limit[4] <= coords[2] <= limit[5])
  {
    if WithinLimits(coords, limit) {
      assert AxisWithin(coords, limit, 0);
      assert AxisWithin(coords, limit, 1);
      assert AxisWithin(coords, limit, 2);
    }
  }

  /** The bounds are inclusive: moving an accepted coordinate exactly onto
      either end of its interval keeps the pose accepted. */
  lemma BoundsInclusive(coords: seq<real>, limit: seq<real>, axis: int)
    requires |coords| >= 3 && |limit| >= 6 && 0 <= axis < 3
    requires WithinLimits(coords, limit)
    ensures WithinLimits(coords[axis := limit[2 * axis]], limit)
    ensures WithinLimits(coords[axis := limit[2 * axis + 1]], limit)
  {
    assert AxisWithin(coords, limit, axis);
    var atMin, atMax := coords[axis := limit[2 * axis]], coords[axis := limit[2 * axis + 1]];
    forall a | 0 <= a < 3
      ensures AxisWithin(atMin, limit, a) && AxisWithin(atMax, limit, a)
    {
      assert AxisWithin(coords, limit, a);
    }
  }

  /** A coordinate strictly outside its interval is rejected, whatever the
      other coordinates are. */
  lemma OutsideRejected(coords: seq<real>, limit: seq<real>, axis: int, v: real)
    requires |coords| >= 3 && |limit| >= 6 && 0 <= axis < 3
    requires v < limit[2 * axis] || v > limit[2 * axis + 1]
    ensures !WithinLimits(coords[axis := v], limit)
  {
    assert !AxisWithin(coords[axis := v], limit, axis);
  }

  /** Only the first three entries are read: replacing the rotational entries
      leaves the verdict unchanged. */
  lemma RotationIgnored(coords: seq<real>, rotation: seq<real>, limit: seq<real>)
    requires |coords| >= 3 && |limit| >= 6
    ensures WithinLimits(coords[..3] + rotation, limit) == WithinLimits(coords, limit)
  {
    var other := coords[..3] + rotation;
    forall a | 0 <= a < 3
      ensures AxisWithin(other, limit, a) == AxisWithin(coords, limit, a)
    {
      assert other[a] == coords[a];
    }
  }

  /** An axis whose minimum exceeds its maximum rejects every pose. */
  lemma EmptyIntervalRejectsAll(coords: seq<real>, limit: seq<real>, axis: int)
    requires |coords| >= 3 && |limit| >= 6 && 0 <= axis < 3
    requires limit[2 * axis] > limit[2 * axis + 1]
    ensures !WithinLimits(coords, limit)
  {
    assert !AxisWithin(coords, limit, axis);
  }

  // ---------------------------------------------------------------------------
  // Cable-length assembly
  // ---------------------------------------------------------------------------

  /** What the geometric part of the computation yields for one cable at one
      pose: the angle the cable wraps around its pulley (the `acos` result) and
      the length of the straight segment from the tangent point to the
      end-effector outlet (a vector norm). */
  datatype CableGeometry = CableGeometry(wrapAngle: real, straight: real)

  /** The ranges those two quantities always have: `acos` lies in [0, π] and a
      norm is never negative. */
  predicate InRange(g: CableGeometry)
  {
    0.0 <= g.wrapAngle <= Pi && g.straight >= 0.0
  }

  /** The length of cable wrapped on a pulley of radius `pRadius`. */
  function ArcLength(pRadius: real, wrapAngle: real): real
  {
    pRadius * wrapAngle
  }

  /** Whether cable `i` is corrected by the rail offset. */
  predicate OnRail(i: int)
  {
    i >= FirstRailCable
  }

  /** The length reported for cable `i`: arc plus straight segment, less the
      rail offset for the cables on the rail. */
  function CableLength(i: int, g: CableGeometry, pRadius: real, railOffset: real): real
  {
    if OnRail(i) then ArcLength(pRadius, g.wrapAngle) + g.straight - railOffset
    else ArcLength(pRadius, g.wrapAngle) + g.straight
  }

  /** The wrapped arc is at least zero and at most half the pulley's
      circumference. */
  lemma ArcLengthRange(pRadius: real, wrapAngle: real)
    requires pRadius > 0.0 && 0.0 <= wrapAngle <= Pi
    ensures 0.0 <= ArcLength(pRadius, wrapAngle) <= pRadius * Pi
  {
    assert pRadius * Pi - pRadius * wrapAngle == pRadius * (Pi - wrapAngle);
  }

  /** The rail offset shifts exactly the cables on the rail, by exactly the
      offset, and leaves the first four cables alone. */
  lemma RailOffsetShift(i: int, g: CableGeometry, pRadius: real, r1: real, r2: real)
    ensures CableLength(i, g, pRadius, r1) - CableLength(i, g, pRadius, r2) ==
      (if i < FirstRailCable then 0.0 else r2 - r1)
  {
  }

  /** With the geometry in range and a positive radius, a cable is never
      shorter than its straight segment, less the rail offset when on the rail. */
  lemma CableLengthLowerBound(i: int, g: CableGeometry, pRadius: real, railOffset: real)
    requires pRadius > 0.0 && InRange(g)
    ensures CableLength(i, g, pRadius, railOffset) >=
      g.straight - (if OnRail(i) then railOffset else 0.0)
    ensures !OnRail(i) ==> CableLength(i, g, pRadius, railOffset) >= 0.0
  {
    ArcLengthRange(pRadius, g.wrapAngle);
  }

  /** A length in motor command units, before conversion to an integer. */
  function Scaled(length: real, cmdScale: int32): real
  {
    length * cmdScale as real
  }

  /** Scaling by a positive factor preserves order. */
  lemma ScaledMonotone(a: real, b: real, cmdScale: int32)
    requires a <= b && cmdScale > 0
    ensures Scaled(a, cmdScale) <= Scaled(b, cmdScale)
  {
    var s := cmdScale as real;
    assert b * s - a * s == (b - a) * s;
  }

  /** Scaling commutes with negation. */
  lemma ScaledOdd(d: real, cmdScale: int32)
    ensures Scaled(-d, cmdScale) == -Scaled(d, cmdScale)
  {
  }

  // ---------------------------------------------------------------------------
  // The controller object
  // ---------------------------------------------------------------------------

  /** The robot's state as the controller holds it: the pose most recently
      requested, the configured limits, per-motor zero offsets, the command
      scale, the pulley radius and the number of cables. */
  class Cdpr {
    /** The requested pose (x, y, z, roll, pitch, yaw), written by the caller. */
    var input: array<real>
    /** Workspace limits, laid out min0, max0, min1, max1, min2, max2. */
    var limit: array<real>
    /** Calibrated zero-length offset of each motor. */
    var offset: array<real>
    /** Motor command units per unit of cable length. */
    var cmdScale: int32
    /** Radius of the idler pulleys. */
    var pRadius: real
    /** Number of cables. */
    var nodeNum: int

    /** The object invariant: the pose and limit buffers have six entries, and
        the three member arrays are distinct objects, as C++ member arrays are. */
    ghost predicate Valid()
      reads this
    {
      input.Length == PoseSize && limit.Length == PoseSize &&
      input != limit && input != offset && limit != offset
    }

    /** Stores an already-parsed configuration; the pose buffer starts with
        unspecified contents. */
    constructor (limits: seq<real>, offsets: seq<real>, cmdScale: int32, pRadius: real, nodeNum: int)
      requires |limits| == PoseSize
      ensures Valid()
      ensures fresh(input) && fresh(limit) && fresh(offset)
      ensures input.Length == PoseSize && limit[..] == limits && offset[..] == offsets
      ensures this.cmdScale == cmdScale && this.pRadius == pRadius && this.nodeNum == nodeNum
    {
      input := new real[PoseSize];
      limit := new real[PoseSize](i requires 0 <= i < PoseSize => limits[i]);
      offset := new real[|offsets|](i requires 0 <= i < |offsets| => offsets[i]);
      this.cmdScale := cmdScale;
      this.pRadius := pRadius;
      this.nodeNum := nodeNum;
    }

    /** Whether the requested position lies inside the workspace limits. Reads
        only the translational part of `input` and changes nothing. */
    method CheckLimits() returns (ok: bool)
      requires Valid()
      ensures ok == WithinLimits(input[..], limit[..])
    {
      var i := 0;
      while i < 3
        invariant 0 <= i <= 3
        invariant forall a :: 0 <= a < i ==> AxisWithin(input[..], limit[..], a)
      {
        if limit[i * 2] > input[i] || input[i] > limit[i * 2 + 1] {
          assert !AxisWithin(input[..], limit[..], i);
          return false;
        }
        i := i + 1;
      }
      return true;
    }

    /** The caller's side of `ToMotorCmd`: a motor index in range, or the
        sentinel -1, and a scaled value whose conversion to `int32_t` is
        defined. */
    predicate Commandable(motorId: int, length: real)
      reads this, if motorId == -1 then {} else {offset}
    {
      if motorId == -1 then FitsInt32(Scaled(length, cmdScale))
      else 0 <= motorId < offset.Length && FitsInt32(Scaled(length - offset[motorId], cmdScale))
    }

    /** Converts a cable length to motor command units, truncating toward zero.
        The sentinel -1 applies no offset, and its frame excludes `offset`. */
    function ToMotorCmd(motorId: int, length: real): (r: int32)
      reads this, if motorId == -1 then {} else {offset}
      requires Commandable(motorId, length)
      ensures motorId == -1 ==> TruncatesTo(Scaled(length, cmdScale), r as int)
      ensures motorId != -1 ==> TruncatesTo(Scaled(length - offset[motorId], cmdScale), r as int)
    {
      if motorId == -1 then ToInt32(Scaled(length, cmdScale))
      else ToInt32(Scaled(length - offset[motorId], cmdScale))
    }

    /** Both branches of `ToMotorCmd` in one form: the command truncates the
        scaled distance from the motor's zero length. */
    lemma ToMotorCmdTruncates(motorId: int, length: real)
      requires Commandable(motorId, length)
      ensures motorId == -1 || 0 <= motorId < offset.Length
      ensures TruncatesTo(Scaled(length - ZeroOf(motorId), cmdScale), ToMotorCmd(motorId, length) as int)
    {
      if motorId == -1 {
        assert length - ZeroOf(motorId) == length;
      }
    }

    /** With a positive scale, a longer cable never gets a smaller command. */
    lemma ToMotorCmdMonotone(motorId: int, shorter: real, longer: real)
      requires cmdScale > 0 && shorter <= longer
      requires Commandable(motorId, shorter) && Commandable(motorId, longer)
      ensures ToMotorCmd(motorId, shorter) <= ToMotorCmd(motorId, longer)
    {
      ToMotorCmdTruncates(motorId, shorter);
      ToMotorCmdTruncates(motorId, longer);
      var zero := ZeroOf(motorId);
      ScaledMonotone(shorter - zero, longer - zero, cmdScale);
      TruncatesToMonotone(Scaled(shorter - zero, cmdScale), Scaled(longer - zero, cmdScale),
                          ToMotorCmd(motorId, shorter) as int, ToMotorCmd(motorId, longer) as int);
    }

    /** Without an offset, opposite lengths give commands of equal size and
        opposite sign. */
    lemma SentinelCmdSymmetric(d: real)
      requires Commandable(-1, d) && Commandable(-1, -d)
      ensures ToMotorCmd(-1, d) as int == -(ToMotorCmd(-1, -d) as int)
    {
      ScaledOdd(d, cmdScale);
      TruncatesToOdd(Scaled(d, cmdScale), ToMotorCmd(-1, d) as int, ToMotorCmd(-1, -d) as int);
    }

    /** Lengths the same distance above and below a motor's zero offset give
        commands of equal size and opposite sign. */
    lemma MotorCmdSymmetric(motorId: nat, d: real)
      requires motorId < offset.Length
      requires Commandable(motorId, offset[motorId] + d) && Commandable(motorId, offset[motorId] - d)
      ensures ToMotorCmd(motorId, offset[motorId] + d) as int == -(ToMotorCmd(motorId, offset[motorId] - d) as int)
    {
      var o := offset[motorId];
      assert o + d - o == d && o - d - o == -d;
      ScaledOdd(d, cmdScale);
      TruncatesToOdd(Scaled(d, cmdScale), ToMotorCmd(motorId, o + d) as int, ToMotorCmd(motorId, o - d) as int);
    }

    /** A cable at its motor's zero offset (at zero length for the sentinel)
        is commanded to 0. */
    lemma ToMotorCmdZeroAtOffset(motorId: int)
      requires motorId == -1 || 0 <= motorId < offset.Length
      ensures Commandable(motorId, ZeroOf(motorId))
      ensures ToMotorCmd(motorId, ZeroOf(motorId)) == 0
    {
      var zero := ZeroOf(motorId);
      assert zero - zero == 0.0 && Scaled(0.0, cmdScale) == 0.0;
      if motorId == -1 {
        assert zero == 0.0;
      }
    }

    /** The length at which motor `motorId` is commanded to 0: its offset, or 0
        for the sentinel. */
    function ZeroOf(motorId: int): real
      reads this, if motorId == -1 then {} else {offset}
      requires motorId == -1 || 0 <= motorId < offset.Length
    {
      if motorId == -1 then 0.0 else offset[motorId]
    }

    /** Fills `lengths[0 .. nodeNum)` with the cable lengths for `pose`, given
        the robot's geometry as `geometry(pose, i)` for cable `i`; every other
        entry of `lengths` keeps its value. The pose is read in full before the
        first entry is written. */
    method PoseToLength(pose: array<real>, lengths: array<real>, railOffset: real,
                        geometry: (seq<real>, int) -> CableGeometry)
      requires pose.Length >= PoseSize
      requires nodeNum <= MaxNodes && nodeNum <= lengths.Length
      modifies lengths
      ensures forall i :: 0 <= i < nodeNum ==>
        lengths[i] == CableLength(i, geometry(old(pose[..PoseSize]), i), pRadius, railOffset)
      ensures forall i :: 0 <= i < lengths.Length && i >= nodeNum ==> lengths[i] == old(lengths[i])
    {
      var p := pose[..PoseSize];
      var i := 0;
      while i < nodeNum
        // a negative nodeNum runs the loop zero times, as the C++ `for` does
        invariant 0 <= i && (i <= nodeNum || i == 0)
        invariant forall j :: 0 <= j < i ==>
          lengths[j] == CableLength(j, geometry(p, j), pRadius, railOffset)
        invariant forall j :: i <= j < lengths.Length ==> lengths[j] == old(lengths[j])
      {
        var g := geometry(p, i);
        var arc := ArcLength(pRadius, g.wrapAngle);
        lengths[i] := if i < FirstRailCable then arc + g.straight else arc + g.straight - railOffset;
        i := i + 1;
      }
    }
  }
}
