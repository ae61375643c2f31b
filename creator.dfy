/**
 * The screen creator's face: two eyes and a mouth, each a [height, width]
 * pair, and a mouth shape. The sidebar edits one entry at a time; the
 * creator, while the eyes are linked, copies an edited eye onto the other.
 *
 * The creator spots the edited eye by array identity. The sidebar always
 * builds a fresh array for the key it edits and reuses the others, so the
 * edited key is passed along explicitly (`None` when no array was rebuilt).
 */
module Creator {

  import opened Types

  /** A `[height, width]` pair. */
  datatype Dims = Dims(height: int, width: int)

  datatype MouthType = Arch | Ellipse

  datatype Theme = Dark | Light

  datatype FaceDetails = FaceDetails(rightEye: Dims, leftEye: Dims, mouth: Dims, mouthType: MouthType)

  datatype FaceKey = LeftEye | RightEye | Mouth

  /** The face the creator opens with. */
  const InitialFace := FaceDetails(Dims(-20, 100), Dims(-20, 100), Dims(50, 200), Arch)

  function Get(f: FaceDetails, key: FaceKey): Dims
  {
    match key
    case LeftEye => f.leftEye
    case RightEye => f.rightEye
    case Mouth => f.mouth
  }

  // ---------------------------------------------------------------------------
  // The sidebar.

  /** What a slider can supply: in its declared range and a multiple of 10 from its minimum. */
  predicate SliderValue(key: FaceKey, index: int, v: int)
  {
    var (lo, hi) :=
      if key == Mouth then (if index == 0 then (-120, 120) else (120, 240))
      else (if index == 0 then (-70, 70) else (80, 120));
    lo <= v <= hi && (v - lo) % 10 == 0
  }

  predicate DimsInRange(key: FaceKey, d: Dims)
  {
    SliderValue(key, 0, d.height) && SliderValue(key, 1, d.width)
  }

  /** Every entry lies where the sliders can put it. */
  predicate InRange(f: FaceDetails)
  {
    DimsInRange(LeftEye, f.leftEye) && DimsInRange(RightEye, f.rightEye) && DimsInRange(Mouth, f.mouth)
  }

  lemma InitialInRange()
    ensures InRange(InitialFace) && InitialFace.leftEye == InitialFace.rightEye
  {
  }

  function SetEntry(d: Dims, index: int, v: int): Dims
    requires index == 0 || index == 1
  {
    if index == 0 then d.(height := v) else d.(width := v)
  }

  /** `updateFaceDetails`: a copy of array `key` with entry `index` set to `v`, the rest of the face as it was. */
  function UpdateFaceDetails(f: FaceDetails, key: FaceKey, index: int, v: int): (r: FaceDetails)
    requires index == 0 || index == 1
    requires SliderValue(key, index, v)
    ensures index == 0 ==> Get(r, key).height == v && Get(r, key).width == Get(f, key).width
    ensures index == 1 ==> Get(r, key).width == v && Get(r, key).height == Get(f, key).height
    ensures forall k :: k != key ==> Get(r, k) == Get(f, k)
    ensures r.mouthType == f.mouthType
    ensures InRange(f) ==> InRange(r)
  {
    match key
    case LeftEye => f.(leftEye := SetEntry(f.leftEye, index, v))
    case RightEye => f.(rightEye := SetEntry(f.rightEye, index, v))
    case Mouth => f.(mouth := SetEntry(f.mouth, index, v))
  }

  /** The "Arch" and "Ellipse" buttons: only the shape changes. */
  function WithMouthType(f: FaceDetails, t: MouthType): (r: FaceDetails)
    ensures r.mouthType == t
    ensures forall k :: Get(r, k) == Get(f, k)
  {
    f.(mouthType := t)
  }

  /** The theme switch. */
  function ThemeFromSwitch(checked: bool): (t: Theme)
    ensures t == Dark <==> checked
  {
    if checked then Dark else Light
  }

  /** The switch shows `theme === 'dark'`, so flipping it from what it shows toggles the theme. */
  lemma ThemeSwitchRoundTrip(t: Theme)
    ensures ThemeFromSwitch(t == Dark) == t
    ensures ThemeFromSwitch(!(t == Dark)) != t
  {
  }

  // ---------------------------------------------------------------------------
  // The creator.

  /** What `handleFaceDetailChange` stores for the submitted face. */
  function LinkedFace(updated: FaceDetails, changed: Option<FaceKey>, linkEyes: bool): FaceDetails
  {
    if linkEyes && changed == Some(LeftEye) then updated.(rightEye := updated.leftEye)
    else if linkEyes && changed == Some(RightEye) then updated.(leftEye := updated.rightEye)
    else updated
  }

  /** While linked, editing one eye's entry sets both eyes to the edited eye. */
  lemma LinkedEyeEdit(f: FaceDetails, key: FaceKey, index: int, v: int)
    requires index == 0 || index == 1
    requires key != Mouth && SliderValue(key, index, v)
    ensures var r := LinkedFace(UpdateFaceDetails(f, key, index, v), Some(key), true);
      r.leftEye == r.rightEye && r.leftEye == SetEntry(Get(f, key), index, v)
      && r.mouth == f.mouth && r.mouthType == f.mouthType
  {
  }

  /** Unlinked, the submitted face is stored as given. */
  lemma UnlinkedStoresAsGiven(updated: FaceDetails, changed: Option<FaceKey>)
    ensures LinkedFace(updated, changed, false) == updated
  {
  }

  /** Linked eyes stay equal under every sidebar edit, and every edit stays in the sliders' ranges. */
  lemma SidebarEditKeepsInvariant(f: FaceDetails, key: FaceKey, index: int, v: int, linkEyes: bool)
    requires index == 0 || index == 1
    requires SliderValue(key, index, v)
    requires InRange(f) && (linkEyes ==> f.leftEye == f.rightEye)
    ensures var r := LinkedFace(UpdateFaceDetails(f, key, index, v), Some(key), linkEyes);
      InRange(r) && (linkEyes ==> r.leftEye == r.rightEye)
  {
  }

  class ScreenCreator {
    var theme: Theme
    var faceDetails: FaceDetails
    var linkEyes: bool

    /** Linked eyes are equal, and every entry is one the sliders can produce. */
    ghost predicate Valid()
      reads this
    {
      InRange(faceDetails) && (linkEyes ==> faceDetails.leftEye == faceDetails.rightEye)
    }

    constructor ()
      ensures Valid()
      ensures theme == Light && faceDetails == InitialFace && linkEyes
    {
      theme := Light;
      faceDetails := InitialFace;
      linkEyes := true;
    }

    /**
     * `handleFaceDetailChange`: while linked, an edited left eye is copied
     * to the right; otherwise an edited right eye to the left.
     */
    method HandleFaceDetailChange(updated: FaceDetails, changed: Option<FaceKey>)
      modifies this
      ensures faceDetails == LinkedFace(updated, changed, linkEyes)
      ensures linkEyes && changed == Some(LeftEye) ==> faceDetails.rightEye == updated.leftEye && faceDetails.leftEye == updated.leftEye
      ensures linkEyes && changed == Some(RightEye) ==> faceDetails.leftEye == updated.rightEye && faceDetails.rightEye == updated.rightEye
      ensures faceDetails.mouth == updated.mouth && faceDetails.mouthType == updated.mouthType
      ensures theme == old(theme) && linkEyes == old(linkEyes)
    {
      var face := updated;
      if linkEyes {
        if changed == Some(LeftEye) {
          face := face.(rightEye := face.leftEye);
        } else if changed == Some(RightEye) {
          face := face.(leftEye := face.rightEye);
        }
      }
      faceDetails := face;
    }

    /** A slider move, through the sidebar and the creator: the invariant is kept. */
    method SliderChange(key: FaceKey, index: int, v: int)
      requires Valid()
      requires index == 0 || index == 1
      requires SliderValue(key, index, v)
      modifies this
      ensures Valid()
      ensures faceDetails == LinkedFace(UpdateFaceDetails(old(faceDetails), key, index, v), Some(key), linkEyes)
      ensures theme == old(theme) && linkEyes == old(linkEyes)
    {
      SidebarEditKeepsInvariant(faceDetails, key, index, v, linkEyes);
      HandleFaceDetailChange(UpdateFaceDetails(faceDetails, key, index, v), Some(key));
    }

    /** A mouth-shape button: no array is rebuilt, so nothing is copied. */
    method MouthTypeChange(t: MouthType)
      requires Valid()
      modifies this
      ensures Valid()
      ensures faceDetails == WithMouthType(old(faceDetails), t)
      ensures theme == old(theme) && linkEyes == old(linkEyes)
    {
      HandleFaceDetailChange(WithMouthType(faceDetails, t), None);
    }

    method HandleThemeChange(checked: bool)
      modifies this
      ensures theme == ThemeFromSwitch(checked)
      ensures faceDetails == old(faceDetails) && linkEyes == old(linkEyes)
    {
      theme := ThemeFromSwitch(checked);
    }

    /** `handleLinkEyesChange`: linking copies the right eye onto the left; unlinking changes no face detail. */
    method HandleLinkEyesChange(value: bool)
      requires Valid()
      modifies this
      ensures Valid()
      ensures linkEyes == value
      ensures value ==> faceDetails == old(faceDetails).(leftEye := old(faceDetails).rightEye)
      ensures !value ==> faceDetails == old(faceDetails)
      ensures theme == old(theme)
    {
      if value {
        faceDetails := faceDetails.(leftEye := faceDetails.rightEye);
        linkEyes := true;
      } else {
        linkEyes := false;
      }
    }
  }
}
