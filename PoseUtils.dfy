/** Geometry and landmark helpers of the pose pipeline (src/lib/poseUtils.ts):
    the MediaPipe landmark name table, the mirrored conversion to named
    keypoints, the three-point joint angle and hip-centred normalisation.
    Numbers are reals; `Math.atan2` is supplied by the caller (see Bearing). */
module PoseUtils {
  import opened Common
  import Text

  /** One landmark of the pose model: normalised image coordinates and the
      optional confidences the model reports. */
  datatype Landmark = Landmark(x: real, y: real, z: real, visibility: Option<real>, presence: Option<real>)

  /** A display keypoint: named, mirrored horizontally, with its position in
      the landmark list. */
  datatype NamedKeypoint = NamedKeypoint(name: string, x: real, y: real, score: Option<real>, index: nat)

  /** The 33 MediaPipe body landmarks, in the model's output order. */
  const LandmarkNames: seq<string> := [
    "nose", "left_eye_inner", "left_eye", "left_eye_outer", "right_eye_inner",
    "right_eye", "right_eye_outer", "left_ear", "right_ear", "mouth_left",
    "mouth_right", "left_shoulder", "right_shoulder", "left_elbow", "right_elbow",
    "left_wrist", "right_wrist", "left_pinky", "right_pinky", "left_index",
    "right_index", "left_thumb", "right_thumb", "left_hip", "right_hip",
    "left_knee", "right_knee", "left_ankle", "right_ankle", "left_heel",
    "right_heel", "left_foot_index", "right_foot_index"
  ]

  const PoseLandmarkCount: nat := 33
  const LeftHip: nat := 23
  const RightHip: nat := 24

  /** `MEDIAPIPE_LANDMARK_NAMES[i] || "landmark_" + i`: the table name when
      there is a non-empty one, a generated name otherwise. */
  function KeypointName(i: nat): string {
    if i < |LandmarkNames| && LandmarkNames[i] != "" then LandmarkNames[i]
    else "landmark_" + Text.NatToString(i)
  }

  /** The table has exactly one non-empty entry per body landmark, so the
      generated name is used exactly for indices 33 and above. */
  lemma KeypointNameTable(i: nat)
    ensures |LandmarkNames| == PoseLandmarkCount
    ensures i < PoseLandmarkCount ==> KeypointName(i) == LandmarkNames[i]
    ensures i >= PoseLandmarkCount ==> KeypointName(i) == "landmark_" + Text.NatToString(i)
  {
  }

  /** The keypoint for landmark `i`: x mirrored for the flipped preview, the
      score taken from `visibility ?? presence`. */
  function ToKeypoint(lm: Landmark, i: nat): NamedKeypoint {
    NamedKeypoint(KeypointName(i), 1.0 - lm.x, lm.y,
                  if lm.visibility.Some? then lm.visibility else lm.presence, i)
  }

  /** `convertMediaPipeLandmarks`: one keypoint per landmark, in order. */
  function ConvertLandmarks(lms: seq<Landmark>): (r: seq<NamedKeypoint>)
    ensures |r| == |lms|
    ensures forall i :: 0 <= i < |r| ==>
      && r[i].index == i
      && r[i].name == KeypointName(i)
      && r[i].x + lms[i].x == 1.0
      && r[i].y == lms[i].y
      && (lms[i].visibility.Some? ==> r[i].score == lms[i].visibility)
      && (lms[i].visibility.None? ==> r[i].score == lms[i].presence)
  {
    if |lms| == 0 then [] else seq(|lms|, i requires 0 <= i < |lms| => ToKeypoint(lms[i], i))
  }

  /** Mirroring twice restores the horizontal coordinate: the landmark
      position can be recovered from its keypoint. */
  lemma ConvertMirrorRoundTrip(lms: seq<Landmark>, i: nat)
    requires i < |lms|
    ensures 1.0 - ConvertLandmarks(lms)[i].x == lms[i].x
    ensures ConvertLandmarks(lms)[i].y == lms[i].y
  {
  }

  /** The interior-angle reflection of `calculateAngle`: the absolute bearing
      difference, reflected as `360 - angle` when it exceeds 180 degrees. */
  function InteriorAngle(diff: real): (angle: real)
    ensures -360.0 <= diff <= 360.0 ==> 0.0 <= angle <= 180.0
    ensures Abs(diff) <= 180.0 ==> angle == Abs(diff)
    ensures Abs(diff) > 180.0 ==> angle == 360.0 - Abs(diff)
  {
    var angle := Abs(diff);
    if angle > 180.0 then 360.0 - angle else angle
  }

  /** Turning the difference around does not change the interior angle. */
  lemma InteriorAngleSymmetric(diff: real)
    ensures InteriorAngle(-diff) == InteriorAngle(diff)
  {
  }

  /** `calculateAngle(A, B, C)`, the angle at vertex B. `bearing(dy, dx)`
      stands for `Math.atan2(dy, dx) * 180 / Math.PI`, the direction of the
      ray (dx, dy) in degrees, which the model does not compute. */
  function CalculateAngle(bearing: (real, real) -> real, a: Landmark, b: Landmark, c: Landmark): (angle: real)
    ensures var turn := bearing(c.y - b.y, c.x - b.x) - bearing(a.y - b.y, a.x - b.x);
      && (Abs(turn) <= 180.0 ==> angle == Abs(turn))
      && (Abs(turn) > 180.0 ==> angle == 360.0 - Abs(turn))
  {
    InteriorAngle(bearing(c.y - b.y, c.x - b.x) - bearing(a.y - b.y, a.x - b.x))
  }

  /** With `atan2` in its range [-180, 180] degrees (-180 itself arises for
      a negative zero `dy`), the angle lies in [0, 180]. */
  lemma CalculateAngleRange(bearing: (real, real) -> real, a: Landmark, b: Landmark, c: Landmark)
    requires -180.0 <= bearing(c.y - b.y, c.x - b.x) <= 180.0
    requires -180.0 <= bearing(a.y - b.y, a.x - b.x) <= 180.0
    ensures 0.0 <= CalculateAngle(bearing, a, b, c) <= 180.0
  {
  }

  /** Swapping the two outer points gives the same angle. */
  lemma CalculateAngleSymmetric(bearing: (real, real) -> real, a: Landmark, b: Landmark, c: Landmark)
    ensures CalculateAngle(bearing, c, b, a) == CalculateAngle(bearing, a, b, c)
  {
    InteriorAngleSymmetric(bearing(c.y - b.y, c.x - b.x) - bearing(a.y - b.y, a.x - b.x));
  }

  /** A hip is too faint to centre on when it reports a visibility below 0.5;
      a missing visibility does not count as low. */
  predicate LowVisibility(lm: Landmark) {
    lm.visibility.Some? && lm.visibility.value < 0.5
  }

  /** The mid-point of the two hips. */
  function HipCentre(lms: seq<Landmark>): (real, real, real)
    requires |lms| >= PoseLandmarkCount
  {
    ((lms[LeftHip].x + lms[RightHip].x) / 2.0,
     (lms[LeftHip].y + lms[RightHip].y) / 2.0,
     (lms[LeftHip].z + lms[RightHip].z) / 2.0)
  }

  /** One landmark relative to `root`; like the source's object literal it
      keeps `visibility` and drops `presence`. */
  function Translate(lm: Landmark, root: (real, real, real)): Landmark {
    Landmark(lm.x - root.0, lm.y - root.1, lm.z - root.2, lm.visibility, None)
  }

  /** `normalizePose`: translate the pose so that the hip mid-point becomes
      the origin. */
  function NormalizePose(lms: seq<Landmark>): (r: seq<Landmark>)
    ensures |lms| < PoseLandmarkCount ==> r == []
    ensures |lms| >= PoseLandmarkCount && (LowVisibility(lms[LeftHip]) || LowVisibility(lms[RightHip])) ==> r == lms
    ensures |lms| >= PoseLandmarkCount && !LowVisibility(lms[LeftHip]) && !LowVisibility(lms[RightHip]) ==>
      && |r| == |lms|
      && (forall i :: 0 <= i < |r| ==>
            && r[i].visibility == lms[i].visibility
            && r[i].presence.None?
            && r[i].x == lms[i].x - HipCentre(lms).0
            && r[i].y == lms[i].y - HipCentre(lms).1
            && r[i].z == lms[i].z - HipCentre(lms).2)
      && r[LeftHip].x + r[RightHip].x == 0.0
      && r[LeftHip].y + r[RightHip].y == 0.0
      && r[LeftHip].z + r[RightHip].z == 0.0
  {
    if |lms| < PoseLandmarkCount then []
    else if LowVisibility(lms[LeftHip]) || LowVisibility(lms[RightHip]) then lms
    else
      var root := HipCentre(lms);
      seq(|lms|, i requires 0 <= i < |lms| => Translate(lms[i], root))
  }

  /** Normalisation keeps every displacement between two landmarks. */
  lemma NormalizeKeepsShape(lms: seq<Landmark>, i: nat, j: nat)
    requires i < |lms| && j < |lms| && |NormalizePose(lms)| == |lms|
    ensures NormalizePose(lms)[i].x - NormalizePose(lms)[j].x == lms[i].x - lms[j].x
    ensures NormalizePose(lms)[i].y - NormalizePose(lms)[j].y == lms[i].y - lms[j].y
    ensures NormalizePose(lms)[i].z - NormalizePose(lms)[j].z == lms[i].z - lms[j].z
  {
  }

  /** A normalised pose is already centred: normalising again changes nothing. */
  lemma NormalizeIdempotent(lms: seq<Landmark>)
    ensures NormalizePose(NormalizePose(lms)) == NormalizePose(lms)
  {
    var r := NormalizePose(lms);
    if |lms| >= PoseLandmarkCount && !LowVisibility(lms[LeftHip]) && !LowVisibility(lms[RightHip]) {
      assert !LowVisibility(r[LeftHip]) && !LowVisibility(r[RightHip]);
      assert HipCentre(r) == (0.0, 0.0, 0.0);
      var rr := NormalizePose(r);
      assert |rr| == |r|;
      forall i | 0 <= i < |r| ensures rr[i] == r[i] {
      }
    }
  }
}
