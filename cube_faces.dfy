/**
 * The face-button registry of the cube (src/cubeFaces.js).
 *
 * `CubeFaces` keeps the list `faces` of buttons attached to the cube: `createImageButton`
 * appends one, `getFace` finds the first with a given name, `updateFaceLabel` relabels it
 * and `setVisible` shows or hides them all. `createFaceLabels` defers the creation of the
 * two side buttons by a timer; here the timer is a counter of pending creations and an
 * explicit step that runs one.
 */
module CubeFacesModel {
  import opened Options

  datatype Vec3 = Vec3(x: real, y: real, z: real)

  /**
   * The `a-image` of a button: position and rotation (degrees) in the cube's local units,
   * its size, its `visible` attribute and the text value written onto it, if any.
   */
  datatype Button = Button(position: Vec3, rotation: Vec3, size: real, visible: bool, text: Option<string>)

  /** An entry of `faces`: `{ name, element, label }`, the label called `caption` here (`label` is a Dafny keyword). */
  datatype Face = Face(name: string, caption: string, button: Button)

  /** An entry of the static `faceConfig`: a face, its label and its offset from the centre. */
  datatype FaceSpec = FaceSpec(name: string, caption: string, offset: Vec3)

  /** The six faces of the cube with their labels and offsets. */
  const FaceConfig: seq<FaceSpec> := [
    FaceSpec("front", "About\nMe", Vec3(0.0, 0.0, 0.1)),
    FaceSpec("back", "Portfolio", Vec3(0.0, 0.0, -0.1)),
    FaceSpec("right", "WhatsApp", Vec3(0.1, 0.0, 0.0)),
    FaceSpec("left", "LinkedIn", Vec3(-0.1, 0.0, 0.0)),
    FaceSpec("top", "Instagram", Vec3(0.0, 0.1, 0.0)),
    FaceSpec("bottom", "Metaverse", Vec3(0.0, -0.1, 0.0))]

  /** Distance of the side buttons from the cube's origin, and their size, in local units. */
  const SideDistance: real := 16.0
  const ButtonSize: real := 24.0

  /** `faceConfig` names six faces, no two alike. */
  lemma FaceConfigDistinct()
    ensures |FaceConfig| == 6
    ensures forall i, j :: 0 <= i < j < |FaceConfig| ==> FaceConfig[i].name != FaceConfig[j].name
  {
    var n := seq(6, i requires 0 <= i < 6 => FaceConfig[i].name);
    assert n == ["front", "back", "right", "left", "top", "bottom"];
    assert n[0][0] == 'f' && n[1][0] == 'b' && n[2][0] == 'r' && n[3][0] == 'l' && n[4][0] == 't' && n[5][0] == 'b';
    assert |n[1]| != |n[5]|;
  }

  // ---------------------------------------------------------------------------
  // Operations on the list

  /** `faces.find(f => f.name === name)`, as the position of the first match. */
  function Find(faces: seq<Face>, name: string): (r: Option<nat>)
    ensures r.Some? ==> r.value < |faces| && faces[r.value].name == name
    ensures r.Some? ==> forall k :: 0 <= k < r.value ==> faces[k].name != name
    ensures r.None? ==> forall k :: 0 <= k < |faces| ==> faces[k].name != name
    decreases |faces|
  {
    if faces == [] then None
    else if faces[0].name == name then Some(0)
    else match Find(faces[1..], name)
      case None => None
      case Some(k) => Some(k + 1)
  }

  /** A freshly created button: visible, with no text value. */
  function NewFace(name: string, caption: string, position: Vec3, rotation: Vec3, size: real): Face
  {
    Face(name, caption, Button(position, rotation, size, true, None))
  }

  /** `updateFaceLabel(name, caption)` on the list. */
  function Relabeled(faces: seq<Face>, name: string, caption: string): seq<Face>
  {
    match Find(faces, name)
    case None => faces
    case Some(i) => faces[i := faces[i].(caption := caption, button := faces[i].button.(text := Some(caption)))]
  }

  /** `setVisible(visible)` on the list. */
  function WithVisibility(faces: seq<Face>, visible: bool): seq<Face>
  {
    seq(|faces|, k requires 0 <= k < |faces| => faces[k].(button := faces[k].button.(visible := visible)))
  }

  /** The left and right buttons `createFaceLabels` makes once its timer fires. */
  function SideButtons(): seq<Face>
  {
    [NewFace("left", "Vendetta", Vec3(-SideDistance, 0.0, 0.0), Vec3(0.0, -90.0, 0.0), ButtonSize),
     NewFace("right", "Net", Vec3(SideDistance, 0.0, 0.0), Vec3(0.0, 90.0, 0.0), ButtonSize)]
  }

  // ---------------------------------------------------------------------------
  // What the operations promise

  /** Relabelling a name that is not in the list changes nothing. */
  lemma RelabelMissing(faces: seq<Face>, name: string, caption: string)
    requires forall k :: 0 <= k < |faces| ==> faces[k].name != name
    ensures Relabeled(faces, name, caption) == faces
  {
  }

  /**
   * Relabelling a present name changes the label (and the shown text) of the first face
   * with that name and nothing else: not its name, its button's placement or visibility,
   * and no other face.
   */
  lemma RelabelPresent(faces: seq<Face>, name: string, caption: string, i: nat)
    requires i < |faces| && faces[i].name == name
    requires forall k :: 0 <= k < i ==> faces[k].name != name
    ensures var r := Relabeled(faces, name, caption);
      && r[i].name == name && r[i].caption == caption && r[i].button.text == Some(caption)
      && r[i].button.(text := None) == faces[i].button.(text := None)
      && forall k :: 0 <= k < |faces| && k != i ==> r[k] == faces[k]
  {
  }

  /** After relabelling, the same name finds the same position, now with the new label. */
  lemma RelabelThenFind(faces: seq<Face>, name: string, caption: string)
    ensures Find(Relabeled(faces, name, caption), name) == Find(faces, name)
    ensures Find(faces, name).Some? ==>
      Relabeled(faces, name, caption)[Find(faces, name).value].caption == caption
  {
    var r := Relabeled(faces, name, caption);
    assert forall k :: 0 <= k < |faces| ==> r[k].name == faces[k].name;
  }

  /** `setVisible(v)` gives every face visibility `v` and changes no name, label or placement. */
  lemma VisibilityOnlyTouchesVisible(faces: seq<Face>, visible: bool)
    ensures var r := WithVisibility(faces, visible);
      forall k :: 0 <= k < |faces| ==>
        && r[k].button.visible == visible
        && r[k].name == faces[k].name && r[k].caption == faces[k].caption
        && r[k].button.(visible := faces[k].button.visible) == faces[k].button
  {
  }

  /** Appending a face keeps every earlier match and finds the new one only as a last resort. */
  lemma {:induction false} FindAppend(faces: seq<Face>, f: Face, name: string)
    ensures Find(faces + [f], name) ==
      if Find(faces, name).Some? then Find(faces, name)
      else if f.name == name then Some(|faces|) else None
    decreases |faces|
  {
    if faces != [] {
      assert (faces + [f])[1..] == faces[1..] + [f];
      FindAppend(faces[1..], f, name);
    }
  }

  /** Once the side buttons exist, `getFace('left')` and `getFace('right')` both succeed. */
  lemma SideButtonsFound(faces: seq<Face>)
    ensures Find(faces + SideButtons(), "left").Some?
    ensures Find(faces + SideButtons(), "right").Some?
  {
    var l, r := SideButtons()[0], SideButtons()[1];
    assert faces + SideButtons() == (faces + [l]) + [r];
    FindAppend(faces, l, "left");
    FindAppend(faces + [l], r, "left");
    FindAppend(faces, l, "right");
    FindAppend(faces + [l], r, "right");
  }

  // ---------------------------------------------------------------------------
  // The source class, updated in place

  class CubeFaces {
    var faces: seq<Face>
    /** How many `createFaceLabels` timers are still waiting to run. */
    var deferred: nat
    const faceConfig: seq<FaceSpec>

    constructor ()
      ensures faces == [] && deferred == 0 && faceConfig == FaceConfig
    {
      faces := [];
      deferred := 0;
      faceConfig := FaceConfig;
    }

    /** Arms the deferred creation of the two side buttons; nothing is created yet. */
    method CreateFaceLabels()
      modifies this
      ensures faces == old(faces) && deferred == old(deferred) + 1
    {
      deferred := deferred + 1;
    }

    /** The event loop runs one pending `createFaceLabels` timer: left, then right. */
    method FireDeferredLabels()
      modifies this
      ensures old(deferred) == 0 ==> faces == old(faces) && deferred == 0
      ensures old(deferred) > 0 ==> faces == old(faces) + SideButtons() && deferred == old(deferred) - 1
    {
      if deferred == 0 {
        return;
      }
      deferred := deferred - 1;
      CreateImageButton("left", "Vendetta", Vec3(-SideDistance, 0.0, 0.0), Vec3(0.0, -90.0, 0.0), ButtonSize);
      CreateImageButton("right", "Net", Vec3(SideDistance, 0.0, 0.0), Vec3(0.0, 90.0, 0.0), ButtonSize);
    }

    /** Appends one button, keeping every earlier entry. */
    method CreateImageButton(name: string, caption: string, position: Vec3, rotation: Vec3, size: real)
      modifies this`faces
      ensures faces == old(faces) + [NewFace(name, caption, position, rotation, size)]
    {
      faces := faces + [NewFace(name, caption, position, rotation, size)];
    }

    /** The first face called `name`, if any. */
    function GetFace(name: string): (r: Option<Face>)
      reads this
      ensures r.Some? <==> exists k :: 0 <= k < |faces| && faces[k].name == name
      ensures r.Some? ==> r.value.name == name
      ensures r.Some? ==> exists i :: (0 <= i < |faces| && faces[i] == r.value &&
                                        forall k :: 0 <= k < i ==> faces[k].name != name)
    {
      match Find(faces, name)
      case None => None
      case Some(i) => Some(faces[i])
    }

    method UpdateFaceLabel(faceName: string, newLabel: string)
      modifies this`faces
      ensures faces == Relabeled(old(faces), faceName, newLabel)
    {
      var found := Find(faces, faceName);
      if found.Some? {
        var i := found.value;
        faces := faces[i := faces[i].(caption := newLabel, button := faces[i].button.(text := Some(newLabel)))];
      }
    }

    method SetVisible(visible: bool)
      modifies this`faces
      ensures faces == WithVisibility(old(faces), visible)
    {
      for i := 0 to |faces|
        invariant |faces| == |old(faces)|
        invariant forall k :: 0 <= k < i ==> faces[k] == old(faces)[k].(button := old(faces)[k].button.(visible := visible))
        invariant forall k :: i <= k < |faces| ==> faces[k] == old(faces)[k]
      {
        faces := faces[i := faces[i].(button := faces[i].button.(visible := visible))];
      }
    }
  }
}
