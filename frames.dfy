/** Animation frame extraction (`get_frame_data`, dae_parser.py:165-188)
    and the conversion of one 4x4 transform into the position and rotation
    the file stores (`at`, `to_quaternion`, `to_position`,
    dae_parser.py:216-278). */
module Frames {
  import opened Common
  import opened Py
  import opened XmlTree

  /** One animated bone: its key-frame time stamps and its 4x4 transforms
      (16 floats each, row-major). */
  datatype BoneFrames = BoneFrames(inputs: seq<real>, outputs: seq<seq<real>>)

  /** The sources of one bone (dae_parser.py:173-181): children without an
      id are skipped; "matrix-input" floats are appended to the time stamps,
      "matrix-output" floats are cut into 16-float transforms and appended. */
  function ScanBoneSources(cs: seq<Element>, acc: BoneFrames): (r: Result<BoneFrames>)
    ensures r.Ok? ==> acc.inputs <= r.value.inputs && acc.outputs <= r.value.outputs
    decreases |cs|
  {
    if cs == [] then Ok(acc)
    else
      var source := cs[0];
      match Attribute(source, "id")
      case None => ScanBoneSources(cs[1..], acc)
      case Some(id) =>
        if EndsWith(id, "matrix-input") then
          var values :- ChildFloats(source, "float_array");
          ScanBoneSources(cs[1..], acc.(inputs := acc.inputs + values))
        else if EndsWith(id, "matrix-output") then
          var values :- ChildFloats(source, "float_array");
          ScanBoneSources(cs[1..], acc.(outputs := acc.outputs + Chunks(values, 16)))
        else ScanBoneSources(cs[1..], acc)
  }

  /** The frames of every child of the animation element, in document order;
      the first child whose sources fail stops the scan. */
  function BonesFrames(bones: seq<Element>): (r: Result<seq<BoneFrames>>)
    ensures r.Ok? <==> forall i :: 0 <= i < |bones| ==> ScanBoneSources(bones[i].children, BoneFrames([], [])).Ok?
    ensures r.Ok? ==> |r.value| == |bones|
    ensures r.Ok? ==> forall i :: 0 <= i < |bones| ==> Ok(r.value[i]) == ScanBoneSources(bones[i].children, BoneFrames([], []))
    ensures r.Err? ==>
      exists i :: 0 <= i < |bones| && Err(r.error) == ScanBoneSources(bones[i].children, BoneFrames([], [])) &&
                  forall j :: 0 <= j < i ==> ScanBoneSources(bones[j].children, BoneFrames([], [])).Ok?
    decreases |bones|
  {
    if bones == [] then Ok([])
    else
      var first := ScanBoneSources(bones[0].children, BoneFrames([], []));
      if first.Err? then Err(first.error)
      else
        var rest := BonesFrames(bones[1..]);
        assert forall i :: 1 <= i < |bones| ==> bones[i] == bones[1..][i - 1];
        if rest.Err? then
          var i :| 0 <= i < |bones| - 1 && Err(rest.error) == ScanBoneSources(bones[1..][i].children, BoneFrames([], [])) &&
            forall j :: 0 <= j < i ==> ScanBoneSources(bones[1..][j].children, BoneFrames([], [])).Ok?;
          assert Err(rest.error) == ScanBoneSources(bones[i + 1].children, BoneFrames([], []));
          rest
        else
          Ok([first.value] + rest.value)
  }

  /** `get_frame_data(root)`: the bones are the children of the first
      `animation` of `library_animations`; a missing one fails. */
  function FrameData(root: Element): (r: Result<seq<BoneFrames>>)
    ensures Walk(root, ["library_animations", "animation"]) == Ok(None) ==> r == Err(NoneValue)
  {
    var animation :- Walk(root, ["library_animations", "animation"]);
    if animation.None? then Err(NoneValue)
    else BonesFrames(animation.value.children)
  }

  /** `at(x, y)`: the index of column x, row y in a row-major 4x4 matrix. */
  function At4(x: int, y: int): (r: int)
    ensures 0 <= x < 4 && 0 <= y < 4 ==> 0 <= r < 16
  {
    4 * y + x
  }

  /** `to_position(mat)`: the translation column, with 1.0 appended. */
  function ToPosition(mat: seq<real>): (r: Result<seq<real>>)
    ensures r.Ok? <==> |mat| >= 12
    ensures r.Err? ==> r.error == IndexOutOfRange
    ensures r.Ok? ==> r.value == [mat[3], mat[7], mat[11], 1.0]
  {
    var tx :- At(mat, At4(3, 0));
    var ty :- At(mat, At4(3, 1));
    var tz :- At(mat, At4(3, 2));
    Ok([tx, ty, tz, 1.0])
  }

  /** The branch `to_quaternion` takes: 0 when the trace is positive,
      otherwise 1, 2 or 3 for the largest of the three diagonal entries. */
  function Pivot(m0: real, m5: real, m10: real): (p: nat)
    ensures p < 4
  {
    if m0 + m5 + m10 > 0.0 then 0
    else if m0 > m5 && m0 > m10 then 1
    else if m5 > m10 then 2
    else 3
  }

  /** The argument of `math.sqrt` in the branch taken. */
  function Radicand(m0: real, m5: real, m10: real): real
  {
    match Pivot(m0, m5, m10)
    case 0 => m0 + m5 + m10 + 1.0
    case 1 => 1.0 + m0 - m5 - m10
    case 2 => 1.0 + m5 - m0 - m10
    case _ => 1.0 + m10 - m0 - m5
  }

  /** Whatever the diagonal, the branch chosen takes the square root of a
      number of at least 1: the pivot is the largest term. */
  lemma RadicandAtLeastOne(m0: real, m5: real, m10: real)
    ensures Radicand(m0, m5, m10) >= 1.0
  {
  }

  /** `to_quaternion(mat)`: (w, x, y, z). `math.sqrt` is the parameter
      sqrt; it never sees a negative argument (RadicandAtLeastOne), so only
      the division by twice the root can fail. */
  function ToQuaternion(mat: seq<real>, sqrt: real -> real): (r: Result<seq<real>>)
    ensures |mat| < 11 ==> r == Err(IndexOutOfRange)
    ensures r.Err? ==> r.error == IndexOutOfRange || r.error == ZeroDivision
    ensures r.Ok? ==> |r.value| == 4
    ensures |mat| >= 11 && (forall x: real :: x >= 1.0 ==> sqrt(x) > 0.0) ==> r.Ok?
  {
    var m0 :- At(mat, At4(0, 0));
    var m5 :- At(mat, At4(1, 1));
    var m10 :- At(mat, At4(2, 2));
    RadicandAtLeastOne(m0, m5, m10);
    var m1, m2, m4, m6, m8, m9 := mat[At4(1, 0)], mat[At4(2, 0)], mat[At4(0, 1)], mat[At4(2, 1)], mat[At4(0, 2)], mat[At4(1, 2)];
    var d := sqrt(Radicand(m0, m5, m10)) * 2.0;
    if d == 0.0 then Err(ZeroDivision)
    else
      match Pivot(m0, m5, m10)
      case 0 => Ok([d / 4.0, (m6 - m9) / d, (m8 - m2) / d, (m1 - m4) / d])
      case 1 => Ok([(m6 - m9) / d, d / 4.0, (m4 + m1) / d, (m8 + m2) / d])
      case 2 => Ok([(m8 - m2) / d, (m4 + m1) / d, d / 4.0, (m9 + m6) / d])
      case _ => Ok([(m1 - m4) / d, (m8 + m2) / d, (m9 + m6) / d, d / 4.0])
  }

  /** The quaternion is the rotation of the matrix in the first branch: with
      an exact square root, w is half the root of trace + 1 and
      4w * (x, y, z) are the antisymmetric differences. */
  lemma QuaternionTraceBranch(mat: seq<real>, sqrt: real -> real)
    requires |mat| >= 11 && mat[0] + mat[5] + mat[10] > 0.0
    requires forall x: real :: x >= 1.0 ==> sqrt(x) > 0.0
    ensures var q := ToQuaternion(mat, sqrt).value;
      && q[0] == sqrt(mat[0] + mat[5] + mat[10] + 1.0) / 2.0
      && 4.0 * q[0] * q[1] == mat[6] - mat[9]
      && 4.0 * q[0] * q[2] == mat[8] - mat[2]
      && 4.0 * q[0] * q[3] == mat[1] - mat[4]
  {
  }

  /** The identity transform is the identity rotation. */
  lemma IdentityQuaternion(sqrt: real -> real)
    requires sqrt(4.0) == 2.0
    ensures ToQuaternion([1.0, 0.0, 0.0, 0.0, 0.0, 1.0, 0.0, 0.0, 0.0, 0.0, 1.0, 0.0, 0.0, 0.0, 0.0, 1.0], sqrt)
      == Ok([1.0, 0.0, 0.0, 0.0])
  {
  }
}
