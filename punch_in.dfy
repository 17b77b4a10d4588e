/**
 * The `PunchIn` component: the camera page of the attendance flow. A
 * one-second detection interval matches the camera's face against the
 * enrolled employees; a match leads to a punch, a stored profile and a
 * work session that polls the position. A punch can be retaken.
 *
 * Every handler is one method, run atomically, and browser outcomes are
 * parameters, as in the `Login` component. Each call of `detectFace`
 * schedules an interval whose handle is a local constant, so only the
 * number of running detection intervals is kept; a match clears the one
 * that ticked, and nothing else ever clears one.
 */
module PunchInComponent {
  import opened Attendance
  import Matching
  import Enrollment
  import RateLimit
  import ProfileSlot

  class PunchIn {
    var punchData: seq<Punch>
    var latitude: Option<real>
    var longitude: Option<real>
    var isFaceDetected: bool
    var cameraPermission: bool
    var locationPermission: bool
    var sessionActive: bool
    var locationLogs: seq<LocationLog>
    var employees: seq<EmployeeRecord>
    var employeeDescriptors: seq<EmployeeDescriptor>
    var isLoadingDescriptors: bool
    var detectedEmployee: Option<EmployeeDescriptor>
    var lastFaceNotRecognizedTime: int
    var detectedUser: string
    /** The video element holds a camera stream. */
    var videoStreaming: bool

    /** Detection intervals scheduled and not cleared. */
    var detectionIntervals: nat
    /** The interval held in `locationInterval` is scheduled. */
    var locationInterval: bool
    /** Location intervals whose handle was overwritten and which still run. */
    var strayLocationIntervals: nat
    /** The timeout held in `sessionTimer` is scheduled. */
    var sessionTimer: bool
    /** Session timeouts whose handle was overwritten and which are still pending. */
    var straySessionTimers: nat

    /** Toasts, localStorage writes and position requests, in order. */
    ghost var events: seq<Event>

    /**
     * A face marked detected comes with the employee it matched (a retake
     * drops the mark but keeps the employee), and the location poll held
     * in `locationInterval` runs only in an active session.
     * It is an invariant every handler keeps; the handlers' other
     * postconditions do not depend on it.
     */
    ghost predicate Valid()
      reads this
    {
      && (isFaceDetected ==> detectedEmployee.Some?)
      && (locationInterval ==> sessionActive)
    }

    constructor ()
      ensures Valid()
      ensures punchData == [] && latitude == None && longitude == None
      ensures !isFaceDetected && cameraPermission && locationPermission && !sessionActive
      ensures locationLogs == [] && employees == [] && employeeDescriptors == [] && isLoadingDescriptors
      ensures detectedEmployee == None && lastFaceNotRecognizedTime == 0 && detectedUser == ""
      ensures !videoStreaming && detectionIntervals == 0
      ensures !locationInterval && !sessionTimer && strayLocationIntervals == 0 && straySessionTimers == 0
      ensures events == []
    {
      punchData, latitude, longitude := [], None, None;
      isFaceDetected, cameraPermission, locationPermission, sessionActive := false, true, true, false;
      locationLogs, employees, employeeDescriptors, isLoadingDescriptors := [], [], [], true;
      detectedEmployee, lastFaceNotRecognizedTime, detectedUser := None, 0, "";
      videoStreaming, detectionIntervals := false, 0;
      locationInterval, sessionTimer, strayLocationIntervals, straySessionTimers := false, false, 0, 0;
      events := [];
    }

    /**
     * `loadEmployeeDescriptors`: `directory` is the employee list fetched
     * (None when the request fails, which leaves the load unfinished) and
     * `found[k]` whether a face was detected in the photo of the k-th
     * employee. Entries are appended; earlier ones are kept.
     */
    method LoadEmployeeDescriptors(directory: Option<seq<EmployeeRecord>>, found: seq<bool>)
      requires Valid()
      requires directory.Some? ==> |found| == |directory.value|
      modifies this`isLoadingDescriptors, this`employees, this`employeeDescriptors
      ensures Valid()
      ensures directory.None? ==>
        isLoadingDescriptors && employees == old(employees) && employeeDescriptors == old(employeeDescriptors)
      ensures directory.Some? ==>
        && !isLoadingDescriptors && employees == directory.value
        && employeeDescriptors == old(employeeDescriptors) + Enrollment.Enrolled(directory.value, found)
    {
      isLoadingDescriptors := true;
      if directory.None? {
        return;
      }
      employees := directory.value;
      for k := 0 to |employees|
        invariant employees == directory.value
        invariant employeeDescriptors == old(employeeDescriptors) + Enrollment.Enrolled(employees[..k], found[..k])
      {
        if found[k] {
          employeeDescriptors := employeeDescriptors + [Enrollment.DescriptorOf(employees[k])];
        }
        Enrollment.EnrolledAppend(employees[..k], found[..k], [employees[k]], [found[k]]);
        assert employees[..k + 1] == employees[..k] + [employees[k]];
        assert found[..k + 1] == found[..k] + [found[k]];
      }
      assert employees[..|employees|] == employees && found[..|found|] == found;
      isLoadingDescriptors := false;
    }

    /**
     * The outcome of `startVideo`'s camera request: with the camera, the
     * stream is attached and `detectFace` schedules one more detection
     * interval; without it, the permission flag drops and a warning shows.
     */
    method StartVideo(granted: bool)
      requires Valid()
      modifies this`videoStreaming, this`detectionIntervals, this`cameraPermission, this`events
      ensures Valid()
      ensures granted ==>
        && videoStreaming && detectionIntervals == old(detectionIntervals) + 1
        && cameraPermission == old(cameraPermission) && events == old(events)
      ensures !granted ==>
        && !cameraPermission && events == old(events) + [CameraDenied]
        && videoStreaming == old(videoStreaming) && detectionIntervals == old(detectionIntervals)
    {
      if granted {
        videoStreaming := true;
        detectionIntervals := detectionIntervals + 1;
      } else {
        cameraPermission := false;
        events := events + [CameraDenied];
      }
    }

    /**
     * One tick of one detection interval; `snapshot` is what
     * `captureSnapshot` returns. A rejected detection ends the tick with
     * no effect and the interval keeps running.
     */
    method DetectTick(detection: Detection, now: int, snapshot: string)
      requires Valid()
      requires detectionIntervals > 0
      requires detection.Face? ==> |detection.distances| == |employeeDescriptors|
      modifies this`detectionIntervals, this`isFaceDetected, this`detectedEmployee,
        this`lastFaceNotRecognizedTime, this`videoStreaming, this`detectedUser, this`events
      ensures Valid()
      // a failed detection, or a face while one is already detected: nothing changes
      ensures detection.DetectionFailed? || (detection.Face? && old(isFaceDetected)) ==>
        unchanged(this)
      // no face: the detection is cleared
      ensures detection.NoFace? ==>
        && detectionIntervals == old(detectionIntervals) && !isFaceDetected && detectedEmployee == None
        && lastFaceNotRecognizedTime == old(lastFaceNotRecognizedTime) && videoStreaming == old(videoStreaming)
        && detectedUser == old(detectedUser) && events == old(events)
      // a face matching nobody: detection cleared, rate-limited warning
      ensures (detection.Face? && !old(isFaceDetected) && Matching.NoCandidate(detection.distances)) ==>
        && detectionIntervals == old(detectionIntervals) && !isFaceDetected && detectedEmployee == None
        && lastFaceNotRecognizedTime == RateLimit.NextWarningTime(old(lastFaceNotRecognizedTime), now)
        && events == old(events) + (if RateLimit.ShouldWarn(old(lastFaceNotRecognizedTime), now) then [FaceNotRecognized] else [])
        && videoStreaming == old(videoStreaming) && detectedUser == old(detectedUser)
      // a match: this interval stops, the stream is released, the employee is held and the position requested
      ensures (detection.Face? && !old(isFaceDetected) && !Matching.NoCandidate(detection.distances)) ==>
        && detectionIntervals == old(detectionIntervals) - 1 && !videoStreaming && isFaceDetected
        && (exists i :: Matching.IsEarliestNearest(detection.distances, i)
                       && detectedEmployee == Some(employeeDescriptors[i]))
        && detectedUser == "User: " + detectedEmployee.value.name
        && events == old(events) + [PositionRequested(snapshot), FaceDetected(detectedEmployee.value.name)]
        && lastFaceNotRecognizedTime == old(lastFaceNotRecognizedTime)
    {
      match detection
      case DetectionFailed =>
      case NoFace =>
        isFaceDetected, detectedEmployee := false, None;
      case Face(distances) =>
        if !isFaceDetected {
          var bestMatch := Matching.FindBestMatch(employeeDescriptors, distances);
          if bestMatch.Some? {
            isFaceDetected, detectedEmployee := true, bestMatch;
            detectionIntervals := detectionIntervals - 1;
            events := events + [PositionRequested(snapshot)];
            StopVideo();
            events := events + [FaceDetected(bestMatch.value.name)];
            detectedUser := "User: " + bestMatch.value.name;
          } else {
            isFaceDetected, detectedEmployee := false, None;
            if RateLimit.ShouldWarn(lastFaceNotRecognizedTime, now) {
              events := events + [FaceNotRecognized];
              lastFaceNotRecognizedTime := now;
            }
          }
        }
    }

    /** `stopVideo`: releases the stream; detection intervals keep running. */
    method StopVideo()
      modifies this`videoStreaming
      ensures !videoStreaming
    {
      videoStreaming := false;
    }

    /** The session was started: both timers scheduled, overwritten live ones counted as stray. */
    ghost predicate SessionStarted(wasPolling: bool, strayPolls: nat, wasTiming: bool, strayTimeouts: nat)
      reads this
    {
      && sessionActive && locationInterval && sessionTimer
      && strayLocationIntervals == strayPolls + (if wasPolling then 1 else 0)
      && straySessionTimers == strayTimeouts + (if wasTiming then 1 else 0)
    }

    /**
     * The success callback of `requestLocationAndSave(imageData)`: one punch
     * at the reported position is appended, the profile is stored and the
     * session starts. No navigation follows.
     */
    method PunchPositionFound(imageData: string, lat: real, long: real, timestamp: string)
      requires Valid()
      modifies this`latitude, this`longitude, this`punchData, this`sessionActive,
        this`locationInterval, this`strayLocationIntervals, this`sessionTimer, this`straySessionTimers,
        this`events
      ensures Valid()
      ensures latitude == Some(lat) && longitude == Some(long)
      ensures punchData == old(punchData) + [PunchAt(timestamp, imageData, lat, long)]
      ensures events == old(events) + [PunchedIn(timestamp)]
        + ProfileSlot.SlotWrites(ProfileSlot.ProfileFor(employees, detectedEmployee, lat, long, timestamp))
      ensures SessionStarted(old(locationInterval), old(strayLocationIntervals), old(sessionTimer), old(straySessionTimers))
    {
      RecordPunch(imageData, lat, long, timestamp);
      StartSession();
    }

    /**
     * The bookkeeping of a successful punch: the position, the punch, the
     * success toast and the profile of the detected employee, if the
     * directory has one.
     */
    method RecordPunch(imageData: string, lat: real, long: real, timestamp: string)
      modifies this`latitude, this`longitude, this`punchData, this`events
      ensures latitude == Some(lat) && longitude == Some(long)
      ensures punchData == old(punchData) + [PunchAt(timestamp, imageData, lat, long)]
      ensures events == old(events) + [PunchedIn(timestamp)]
        + ProfileSlot.SlotWrites(ProfileSlot.ProfileFor(employees, detectedEmployee, lat, long, timestamp))
    {
      latitude, longitude := Some(lat), Some(long);
      punchData := punchData + [PunchAt(timestamp, imageData, lat, long)];
      events := events + [PunchedIn(timestamp)];
      events := events + ProfileSlot.SlotWrites(ProfileSlot.ProfileFor(employees, detectedEmployee, lat, long, timestamp));
    }

    /**
     * The error callback of `requestLocationAndSave`: no punch, no session;
     * a warning shows and the permission flag drops.
     */
    method PunchPositionFailed()
      requires Valid()
      modifies this`locationPermission, this`events
      ensures Valid()
      ensures !locationPermission && events == old(events) + [LocationDenied]
    {
      events := events + [LocationDenied];
      locationPermission := false;
    }

    /**
     * `startSession`: marks the session active and schedules the 10-second
     * location poll and the one-hour session timeout, overwriting the
     * handles of any earlier ones without clearing them.
     */
    method StartSession()
      requires Valid()
      modifies this`sessionActive, this`locationInterval, this`strayLocationIntervals,
        this`sessionTimer, this`straySessionTimers
      ensures Valid()
      ensures SessionStarted(old(locationInterval), old(strayLocationIntervals), old(sessionTimer), old(straySessionTimers))
    {
      sessionActive := true;
      if locationInterval {
        strayLocationIntervals := strayLocationIntervals + 1;
      }
      locationInterval := true;
      if sessionTimer {
        straySessionTimers := straySessionTimers + 1;
      }
      sessionTimer := true;
    }

    /** The position callbacks of `trackUserLocation`: a fix is logged; a failure only warns. */
    method TrackUserLocation(fix: Fix, timestamp: string)
      requires Valid()
      modifies this`locationLogs, this`events
      ensures Valid()
      ensures fix.Position? ==>
        && locationLogs == old(locationLogs) + [LocationLog(timestamp, fix.lat, fix.long)]
        && events == old(events) + [LocationTracked(fix.lat, fix.long)]
      ensures fix.PositionError? ==> locationLogs == old(locationLogs) && events == old(events) + [TrackingFailed]
    {
      match fix
      case Position(lat, long) =>
        locationLogs := locationLogs + [LocationLog(timestamp, lat, long)];
        events := events + [LocationTracked(lat, long)];
      case PositionError =>
        events := events + [TrackingFailed];
    }

    /**
     * `endSession`: clears the held location poll and ends the session,
     * whatever its state; the session timeout is not cleared, and every
     * call shows "Session Ended".
     */
    method EndSession()
      requires Valid()
      modifies this`locationInterval, this`sessionActive, this`events
      ensures Valid()
      ensures !locationInterval && !sessionActive && events == old(events) + [SessionEnded]
      ensures sessionTimer == old(sessionTimer) && straySessionTimers == old(straySessionTimers)
    {
      locationInterval := false;
      sessionActive := false;
      events := events + [SessionEnded];
    }

    /** A session timeout fires: the held one, or a stray one when `stray`; it ends the session. */
    method SessionTimeout(stray: bool)
      requires Valid()
      requires if stray then straySessionTimers > 0 else sessionTimer
      modifies this`sessionTimer, this`straySessionTimers, this`locationInterval, this`sessionActive, this`events
      ensures Valid()
      ensures stray ==> straySessionTimers == old(straySessionTimers) - 1 && sessionTimer == old(sessionTimer)
      ensures !stray ==> !sessionTimer && straySessionTimers == old(straySessionTimers)
      ensures !locationInterval && !sessionActive && events == old(events) + [SessionEnded]
    {
      if stray {
        straySessionTimers := straySessionTimers - 1;
      } else {
        sessionTimer := false;
      }
      EndSession();
    }

    /**
     * `retakePunchIn`: drops the detection mark, the position and the last
     * punch (nothing when there is none); the matched employee is kept.
     * The camera request it makes answers as `StartVideo`.
     */
    method RetakePunchIn()
      requires Valid()
      modifies this`detectedUser, this`isFaceDetected, this`latitude, this`longitude, this`punchData
      ensures Valid()
      ensures detectedUser == "" && !isFaceDetected && latitude == None && longitude == None
      ensures punchData == DropLast(old(punchData))
    {
      detectedUser := "";
      isFaceDetected := false;
      latitude, longitude := None, None;
      punchData := DropLast(punchData);
    }
  }
}
