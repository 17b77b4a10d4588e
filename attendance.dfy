/**
 * Values shared by the two attendance-capture components (the `Login` and
 * `PunchIn` Angular components): the records they keep in their lists, the
 * employee records fetched from the directory, the outcomes of the browser
 * calls they make, and the log of user-visible effects.
 */
module Attendance {

  datatype Option<+T> = None | Some(value: T)

  /** Distance (exclusive) under which a live descriptor matches an enrolled one. */
  const MatchThreshold: real := 0.4

  /** Minimum gap, in milliseconds, between two "Face Not Recognized" warnings. */
  const WarningGapMs: int := 10000

  /** Value the navigation countdown is (re)started from, in seconds. */
  const CountdownStart: int := 5

  /**
   * A JavaScript value of an employee record field. Records come from a JSON
   * directory, so a field may be missing, null, a number or a string.
   */
  datatype JsValue = Undefined | Null | Num(n: real) | Str(s: string)

  /** JavaScript truthiness (NaN is not a value of this model). */
  predicate Truthy(v: JsValue) {
    match v
    case Undefined => false
    case Null => false
    case Num(n) => n != 0.0
    case Str(s) => s != ""
  }

  /** JavaScript `a || b`. */
  function Or(a: JsValue, b: JsValue): JsValue {
    if Truthy(a) then a else b
  }

  /** An employee record as the directory returns it. */
  datatype EmployeeRecord = EmployeeRecord(
    id: JsValue,
    employeeId: JsValue,
    name: string,
    email: JsValue,
    phone: JsValue,
    mobile: JsValue,
    image: string)

  /**
   * An enrolled employee: the `{id, name, descriptor}` entry pushed for each
   * reference photo in which a face was found. The descriptor vector itself
   * is not kept: every detection tick supplies the distances from the live
   * face to each enrolled descriptor.
   */
  datatype EmployeeDescriptor = EmployeeDescriptor(id: JsValue, name: string)

  /** `location` of a punch: `{lat: number | null, long: number | null}`. */
  datatype PunchLocation = PunchLocation(lat: Option<real>, long: Option<real>)

  /** One attendance event. */
  datatype Punch = Punch(timestamp: string, image: string, location: PunchLocation)

  /** One successful location poll of a work session. */
  datatype LocationLog = LocationLog(timestamp: string, lat: real, long: real)

  /**
   * The `location` text of the stored profile: `"<lat>, <long>"` when both
   * coordinates are truthy, the empty string otherwise.
   */
  datatype ProfileLocation = NoLocation | LatLong(lat: real, long: real)

  /** The record written to the `punchInUser` slot of localStorage. */
  datatype UserProfile = UserProfile(
    name: string,
    email: JsValue,
    mobile: JsValue,
    employeeId: JsValue,
    location: ProfileLocation,
    punchedTime: string)

  /**
   * Outcome of one `detectSingleFace(...).withFaceLandmarks().withFaceDescriptor()`
   * call on the video frame. `Face` carries the Euclidean distance from the
   * live descriptor to each enrolled descriptor, in enrolment order;
   * `DetectionFailed` is a rejected detection promise.
   */
  datatype Detection = NoFace | Face(distances: seq<real>) | DetectionFailed

  /** Outcome of one `navigator.geolocation.getCurrentPosition` call. */
  datatype Fix = Position(lat: real, long: real) | PositionError

  datatype Tab = Admin | User

  datatype Severity = Success | Info | Warn

  /**
   * Effects outside the component, in order: toasts (each kind carries
   * what its text shows; `Summary` and `Detail` give the text),
   * localStorage writes, navigation and position requests.
   */
  datatype Event =
    | CameraDenied
    | FaceDetected(name: string)
    | FaceNotRecognized
    | PunchedIn(timestamp: string)
    | LocationDenied
    | LocationTracked(lat: real, long: real)
    | TrackingFailed
    | SessionEnded
      /** `localStorage.setItem('punchInUser', JSON.stringify(profile))` */
    | StoreProfile(profile: UserProfile)
      /** `router.navigate(['/home'])` */
    | NavigateHome
      /** a one-shot position request made for a punch with this snapshot */
    | PositionRequested(imageData: string)
  {
    predicate IsToast() {
      !(StoreProfile? || NavigateHome? || PositionRequested?)
    }

    function Level(): Severity
      requires IsToast()
    {
      match this
      case FaceDetected(_) => Success
      case PunchedIn(_) => Success
      case LocationTracked(_, _) => Info
      case SessionEnded => Info
      case _ => Warn
    }

    function Summary(): string
      requires IsToast()
    {
      match this
      case CameraDenied => "Warning"
      case FaceDetected(_) => "Face Detected"
      case FaceNotRecognized => "Face Not Recognized"
      case PunchedIn(_) => "Punch-In Successful"
      case LocationDenied => "Warning"
      case LocationTracked(_, _) => "Location Tracked"
      case TrackingFailed => "Location Tracking Error"
      case SessionEnded => "Session Ended"
    }

    /** The detail text; the coordinates of `LocationTracked` are rendered by JavaScript, not here. */
    function Detail(): string
      requires IsToast() && !LocationTracked?
    {
      match this
      case CameraDenied => "WebCam permission denied"
      case FaceDetected(name) => "Name: " + name + "!"
      case FaceNotRecognized => "Your face does not match any employee record."
      case PunchedIn(timestamp) => "You punched in at " + timestamp
      case LocationDenied => "Location permission denied"
      case TrackingFailed => "Unable to access location."
      case SessionEnded => "Your 4-hour session has ended automatically."
    }
  }

  /** The punch recorded for a position fix. */
  function PunchAt(timestamp: string, imageData: string, lat: real, long: real): Punch {
    Punch(timestamp, imageData, PunchLocation(Some(lat), Some(long)))
  }

  /** JavaScript `list.pop()` on a list: the last element goes, if there is one. */
  function DropLast<T>(s: seq<T>): (r: seq<T>)
    ensures s == [] ==> r == []
    ensures s != [] ==> s == r + [s[|s| - 1]]
  {
    if s == [] then [] else s[..|s| - 1]
  }

  /** Dropping the last element undoes appending one. */
  lemma DropLastUndoesAppend<T>(s: seq<T>, x: T)
    ensures DropLast(s + [x]) == s
  {
    assert (s + [x])[..|s|] == s;
  }
}
