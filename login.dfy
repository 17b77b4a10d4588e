/**
 * The `Login` component: an admin tab and a user tab; on the user tab a
 * one-second detection interval matches the camera's face against the
 * enrolled employees, and a match leads to a punch, a stored profile, a
 * five-second countdown to the home page and a work session that polls
 * the position.
 *
 * Every handler is one method, run atomically. Browser outcomes (camera
 * permission, detection, position, clock readings, snapshots, timestamps)
 * are parameters. A timer is a flag saying whether the timer whose handle
 * the field holds is still scheduled; where the component overwrites a
 * handle without clearing it, a count records the timers left running.
 */
module LoginComponent {
  import opened Attendance
  import Matching
  import Enrollment
  import RateLimit
  import ProfileSlot

  class Login {
    var punchData: seq<Punch>
    var latitude: Option<real>
    var longitude: Option<real>
    var isFaceDetected: bool
    var cameraPermission: bool
    var locationPermission: bool
    var sessionActive: bool
    var locationLogs: seq<LocationLog>
    var employees: seq<EmployeeRecord>
    var employeeDescriptors: seq<EmployeeDescriptor>
    var isLoadingDescriptors: bool
    var detectedEmployee: Option<EmployeeDescriptor>
    var lastFaceNotRecognizedTime: int
    var detectedUser: string
    var navigatingToHome: bool
    var navigationCountdown: int
    var showSignIn: bool
    var showAdminLogin: bool
    var activeTab: Tab
    /** The video element holds a camera stream. */
    var videoStreaming: bool

    /** `faceDetectionInterval` is non-null (its interval is scheduled). */
    var faceDetectionInterval: bool
    /** The interval held in `countdownInterval` is scheduled. */
    var countdownInterval: bool
    /** Countdown intervals whose handle was overwritten and which still run. */
    var strayCountdowns: nat
    /** The interval held in `locationInterval` is scheduled. */
    var locationInterval: bool
    /** Location intervals whose handle was overwritten and which still run. */
    var strayLocationIntervals: nat
    /** The timeout held in `sessionTimer` is scheduled. */
    var sessionTimer: bool
    /** Session timeouts whose handle was overwritten and which are still pending. */
    var straySessionTimers: nat

    /** Toasts, localStorage writes, navigation and position requests, in order. */
    ghost var events: seq<Event>

    /**
     * A face is marked detected exactly when an employee is held, and the
     * location poll held in `locationInterval` runs only in an active session.
     * It is an invariant every handler keeps; the handlers' other
     * postconditions do not depend on it.
     */
    ghost predicate Valid()
      reads this
    {
      && (isFaceDetected <==> detectedEmployee.Some?)
      && (locationInterval ==> sessionActive)
    }

    constructor ()
      ensures Valid()
      ensures punchData == [] && latitude == None && longitude == None
      ensures !isFaceDetected && cameraPermission && locationPermission && !sessionActive
      ensures locationLogs == [] && employees == [] && employeeDescriptors == [] && isLoadingDescriptors
      ensures detectedEmployee == None && lastFaceNotRecognizedTime == 0 && detectedUser == ""
      ensures !navigatingToHome && navigationCountdown == CountdownStart
      ensures !showSignIn && showAdminLogin && activeTab == Admin && !videoStreaming
      ensures !faceDetectionInterval && !countdownInterval && !locationInterval && !sessionTimer
      ensures strayCountdowns == 0 && strayLocationIntervals == 0 && straySessionTimers == 0
      ensures events == []
    {
      punchData, latitude, longitude := [], None, None;
      isFaceDetected, cameraPermission, locationPermission, sessionActive := false, true, true, false;
      locationLogs, employees, employeeDescriptors, isLoadingDescriptors := [], [], [], true;
      detectedEmployee, lastFaceNotRecognizedTime, detectedUser := None, 0, "";
      navigatingToHome, navigationCountdown := false, CountdownStart;
      showSignIn, showAdminLogin, activeTab, videoStreaming := false, true, Admin, false;
      faceDetectionInterval, countdownInterval, locationInterval, sessionTimer := false, false, false, false;
      strayCountdowns, strayLocationIntervals, straySessionTimers := 0, 0, 0;
      events := [];
    }

    /** `switchToAdminTab`: refused while a face is detected; otherwise resets to the admin tab. */
    method SwitchToAdminTab()
      requires Valid()
      modifies this`faceDetectionInterval, this`videoStreaming, this`activeTab, this`showAdminLogin,
        this`showSignIn, this`countdownInterval, this`navigatingToHome, this`navigationCountdown,
        this`isFaceDetected, this`detectedEmployee, this`detectedUser
      ensures Valid()
      ensures old(isFaceDetected) ==> unchanged(this)
      ensures !old(isFaceDetected) ==>
        && activeTab == Admin && showAdminLogin && !showSignIn
        && !navigatingToHome && navigationCountdown == CountdownStart
        && !isFaceDetected && detectedEmployee == None && detectedUser == ""
        && !faceDetectionInterval && !countdownInterval && !videoStreaming
    {
      if isFaceDetected {
        return;
      }
      faceDetectionInterval := false;
      StopVideo();
      activeTab, showAdminLogin, showSignIn := Admin, true, false;
      countdownInterval := false;
      navigatingToHome, navigationCountdown := false, CountdownStart;
      isFaceDetected, detectedEmployee, detectedUser := false, None, "";
    }

    /**
     * `switchToUserTab`: cancels detection and resets the capture state,
     * punches included. A running countdown is left alone. The video start
     * and descriptor load it schedules 100 ms later arrive as `StartVideo`
     * and `LoadEmployeeDescriptors`.
     */
    method SwitchToUserTab()
      requires Valid()
      modifies this`faceDetectionInterval, this`activeTab, this`showAdminLogin, this`showSignIn,
        this`isFaceDetected, this`detectedEmployee, this`punchData, this`navigatingToHome,
        this`navigationCountdown, this`detectedUser
      ensures Valid()
      ensures !faceDetectionInterval && activeTab == User && !showAdminLogin && !showSignIn
      ensures !isFaceDetected && detectedEmployee == None && punchData == []
      ensures !navigatingToHome && navigationCountdown == CountdownStart && detectedUser == ""
    {
      faceDetectionInterval := false;
      activeTab, showAdminLogin, showSignIn := User, false, false;
      isFaceDetected, detectedEmployee := false, None;
      punchData := [];
      navigatingToHome, navigationCountdown := false, CountdownStart;
      detectedUser := "";
    }

    /**
     * `loadEmployeeDescriptors`: `directory` is the employee list fetched
     * (None when the request fails, which leaves the load unfinished) and
     * `found[k]` whether a face was detected in the photo of the k-th
     * employee. Entries are appended; earlier ones are kept.
     */
    method LoadEmployeeDescriptors(directory: Option<seq<EmployeeRecord>>, found: seq<bool>)
      requires Valid()
      requires directory.Some? ==> |found| == |directory.value|
      modifies this`isLoadingDescriptors, this`employees, this`employeeDescriptors
      ensures Valid()
      ensures directory.None? ==>
        isLoadingDescriptors && employees == old(employees) && employeeDescriptors == old(employeeDescriptors)
      ensures directory.Some? ==>
        && !isLoadingDescriptors && employees == directory.value
        && employeeDescriptors == old(employeeDescriptors) + Enrollment.Enrolled(directory.value, found)
    {
      isLoadingDescriptors := true;
      if directory.None? {
        return;
      }
      employees := directory.value;
      for k := 0 to |employees|
        invariant employees == directory.value
        invariant employeeDescriptors == old(employeeDescriptors) + Enrollment.Enrolled(employees[..k], found[..k])
      {
        if found[k] {
          employeeDescriptors := employeeDescriptors + [Enrollment.DescriptorOf(employees[k])];
        }
        Enrollment.EnrolledAppend(employees[..k], found[..k], [employees[k]], [found[k]]);
        assert employees[..k + 1] == employees[..k] + [employees[k]];
        assert found[..k + 1] == found[..k] + [found[k]];
      }
      assert employees[..|employees|] == employees && found[..|found|] == found;
      isLoadingDescriptors := false;
    }

    /**
     * The outcome of `startVideo`'s camera request: with the camera, the
     * stream is attached and `detectFace` (re)schedules the detection
     * interval; without it, the permission flag drops and a warning shows.
     */
    method StartVideo(granted: bool)
      requires Valid()
      modifies this`videoStreaming, this`faceDetectionInterval, this`cameraPermission, this`events
      ensures Valid()
      ensures granted ==>
        videoStreaming && faceDetectionInterval && cameraPermission == old(cameraPermission) && events == old(events)
      ensures !granted ==>
        && !cameraPermission && events == old(events) + [CameraDenied]
        && videoStreaming == old(videoStreaming) && faceDetectionInterval == old(faceDetectionInterval)
    {
      if granted {
        videoStreaming := true;
        faceDetectionInterval := true;
      } else {
        cameraPermission := false;
        events := events + [CameraDenied];
      }
    }

    /** `stopVideo`: cancels detection and releases the stream. */
    method StopVideo()
      modifies this`faceDetectionInterval, this`videoStreaming
      ensures !faceDetectionInterval && !videoStreaming
    {
      faceDetectionInterval := false;
      videoStreaming := false;
    }

    /**
     * One tick of the detection interval. `videoPresent` says whether the
     * video element exists; `snapshot` is what `captureSnapshot` returns.
     */
    method DetectTick(videoPresent: bool, detection: Detection, now: int, snapshot: string)
      requires Valid()
      requires faceDetectionInterval
      requires detection.Face? ==> |detection.distances| == |employeeDescriptors|
      modifies this`faceDetectionInterval, this`isFaceDetected, this`detectedEmployee,
        this`lastFaceNotRecognizedTime, this`videoStreaming, this`detectedUser, this`events
      ensures Valid()
      // off the user tab, without video, or when detection fails: only the interval is cancelled
      ensures !videoPresent || old(activeTab) != User || detection.DetectionFailed? ==>
        && !faceDetectionInterval
        && isFaceDetected == old(isFaceDetected) && detectedEmployee == old(detectedEmployee)
        && lastFaceNotRecognizedTime == old(lastFaceNotRecognizedTime) && videoStreaming == old(videoStreaming)
        && detectedUser == old(detectedUser) && events == old(events)
      // no face: the detection is cleared and the interval keeps running
      ensures videoPresent && activeTab == User && detection.NoFace? ==>
        && faceDetectionInterval && !isFaceDetected && detectedEmployee == None
        && lastFaceNotRecognizedTime == old(lastFaceNotRecognizedTime) && videoStreaming == old(videoStreaming)
        && detectedUser == old(detectedUser) && events == old(events)
      // a face while one is already detected: nothing changes
      ensures videoPresent && activeTab == User && detection.Face? && old(isFaceDetected) ==>
        unchanged(this)
      // a face matching nobody: detection cleared, rate-limited warning
      ensures (videoPresent && activeTab == User && detection.Face? && !old(isFaceDetected)
               && Matching.NoCandidate(detection.distances)) ==>
        && faceDetectionInterval && !isFaceDetected && detectedEmployee == None
        && lastFaceNotRecognizedTime == RateLimit.NextWarningTime(old(lastFaceNotRecognizedTime), now)
        && events == old(events) + (if RateLimit.ShouldWarn(old(lastFaceNotRecognizedTime), now) then [FaceNotRecognized] else [])
        && videoStreaming == old(videoStreaming) && detectedUser == old(detectedUser)
      // a match: detection stops, the employee is held and the punch's position is requested
      ensures (videoPresent && activeTab == User && detection.Face? && !old(isFaceDetected)
               && !Matching.NoCandidate(detection.distances)) ==>
        && !faceDetectionInterval && !videoStreaming && isFaceDetected
        && (exists i :: Matching.IsEarliestNearest(detection.distances, i)
                       && detectedEmployee == Some(employeeDescriptors[i]))
        && detectedUser == "User: " + detectedEmployee.value.name
        && events == old(events) + [PositionRequested(snapshot), FaceDetected(detectedEmployee.value.name)]
        && lastFaceNotRecognizedTime == old(lastFaceNotRecognizedTime)
    {
      if !videoPresent || activeTab != User {
        faceDetectionInterval := false;
        return;
      }
      match detection
      case DetectionFailed =>
        faceDetectionInterval := false;
      case NoFace =>
        isFaceDetected, detectedEmployee := false, None;
      case Face(distances) =>
        if !isFaceDetected {
          var bestMatch := Matching.FindBestMatch(employeeDescriptors, distances);
          if bestMatch.Some? {
            isFaceDetected, detectedEmployee := true, bestMatch;
            faceDetectionInterval := false;
            events := events + [PositionRequested(snapshot)];
            StopVideo();
            events := events + [FaceDetected(bestMatch.value.name)];
            detectedUser := "User: " + bestMatch.value.name;
          } else {
            isFaceDetected, detectedEmployee := false, None;
            if RateLimit.ShouldWarn(lastFaceNotRecognizedTime, now) {
              events := events + [FaceNotRecognized];
              lastFaceNotRecognizedTime := now;
            }
          }
        }
    }

    /** The session was started: both timers scheduled, overwritten live ones counted as stray. */
    ghost predicate SessionStarted(wasPolling: bool, strayPolls: nat, wasTiming: bool, strayTimeouts: nat)
      reads this
    {
      && sessionActive && locationInterval && sessionTimer
      && strayLocationIntervals == strayPolls + (if wasPolling then 1 else 0)
      && straySessionTimers == strayTimeouts + (if wasTiming then 1 else 0)
    }

    /**
     * The success callback of `requestLocationAndSave(imageData)`: one punch
     * at the reported position is appended, the profile is stored, the
     * countdown to the home page starts (overwriting the handle of any
     * running one) and so does the session.
     */
    method PunchPositionFound(imageData: string, lat: real, long: real, timestamp: string)
      requires Valid()
      modifies this`latitude, this`longitude, this`punchData, this`navigatingToHome,
        this`navigationCountdown, this`countdownInterval, this`strayCountdowns, this`sessionActive,
        this`locationInterval, this`strayLocationIntervals, this`sessionTimer, this`straySessionTimers,
        this`events
      ensures Valid()
      ensures latitude == Some(lat) && longitude == Some(long)
      ensures punchData == old(punchData) + [PunchAt(timestamp, imageData, lat, long)]
      ensures events == old(events) + [PunchedIn(timestamp)]
        + ProfileSlot.SlotWrites(ProfileSlot.ProfileFor(employees, detectedEmployee, lat, long, timestamp))
      ensures navigatingToHome && navigationCountdown == CountdownStart && countdownInterval
      ensures strayCountdowns == old(strayCountdowns) + (if old(countdownInterval) then 1 else 0)
      ensures SessionStarted(old(locationInterval), old(strayLocationIntervals), old(sessionTimer), old(straySessionTimers))
    {
      RecordPunch(imageData, lat, long, timestamp);
      StartCountdown();
      StartSession();
    }

    /**
     * The bookkeeping of a successful punch: the position, the punch, the
     * success toast and the profile of the detected employee, if the
     * directory has one.
     */
    method RecordPunch(imageData: string, lat: real, long: real, timestamp: string)
      modifies this`latitude, this`longitude, this`punchData, this`events
      ensures latitude == Some(lat) && longitude == Some(long)
      ensures punchData == old(punchData) + [PunchAt(timestamp, imageData, lat, long)]
      ensures events == old(events) + [PunchedIn(timestamp)]
        + ProfileSlot.SlotWrites(ProfileSlot.ProfileFor(employees, detectedEmployee, lat, long, timestamp))
    {
      latitude, longitude := Some(lat), Some(long);
      punchData := punchData + [PunchAt(timestamp, imageData, lat, long)];
      events := events + [PunchedIn(timestamp)];
      events := events + ProfileSlot.SlotWrites(ProfileSlot.ProfileFor(employees, detectedEmployee, lat, long, timestamp));
    }

    /**
     * The navigation countdown of a successful punch: restarts at five and
     * schedules a new one-second interval, overwriting the handle of any
     * running one without clearing it.
     */
    method StartCountdown()
      modifies this`navigatingToHome, this`navigationCountdown, this`countdownInterval, this`strayCountdowns
      ensures navigatingToHome && navigationCountdown == CountdownStart && countdownInterval
      ensures strayCountdowns == old(strayCountdowns) + (if old(countdownInterval) then 1 else 0)
    {
      navigatingToHome, navigationCountdown := true, CountdownStart;
      if countdownInterval {
        strayCountdowns := strayCountdowns + 1;
      }
      countdownInterval := true;
    }

    /**
     * The error callback of `requestLocationAndSave`: no punch, no session;
     * the permission flag drops and a warning shows.
     */
    method PunchPositionFailed()
      requires Valid()
      modifies this`locationPermission, this`events
      ensures Valid()
      ensures !locationPermission && events == old(events) + [LocationDenied]
    {
      events := events + [LocationDenied];
      locationPermission := false;
    }

    /** One tick of a countdown interval: counts down, and at zero clears the held interval and goes home. */
    method CountdownTick()
      requires Valid()
      requires countdownInterval || strayCountdowns > 0
      modifies this`navigationCountdown, this`countdownInterval, this`events
      ensures Valid()
      ensures navigationCountdown == old(navigationCountdown) - 1
      ensures navigationCountdown <= 0 ==> !countdownInterval && events == old(events) + [NavigateHome]
      ensures navigationCountdown > 0 ==> countdownInterval == old(countdownInterval) && events == old(events)
    {
      navigationCountdown := navigationCountdown - 1;
      if navigationCountdown <= 0 {
        countdownInterval := false;
        events := events + [NavigateHome];
      }
    }

    /**
     * `startSession`: marks the session active and schedules the 10-second
     * location poll and the one-hour session timeout, overwriting the
     * handles of any earlier ones without clearing them.
     */
    method StartSession()
      requires Valid()
      modifies this`sessionActive, this`locationInterval, this`strayLocationIntervals,
        this`sessionTimer, this`straySessionTimers
      ensures Valid()
      ensures SessionStarted(old(locationInterval), old(strayLocationIntervals), old(sessionTimer), old(straySessionTimers))
    {
      sessionActive := true;
      if locationInterval {
        strayLocationIntervals := strayLocationIntervals + 1;
      }
      locationInterval := true;
      if sessionTimer {
        straySessionTimers := straySessionTimers + 1;
      }
      sessionTimer := true;
    }

    /** The position callbacks of `trackUserLocation`: a fix is logged; a failure only warns. */
    method TrackUserLocation(fix: Fix, timestamp: string)
      requires Valid()
      modifies this`locationLogs, this`events
      ensures Valid()
      ensures fix.Position? ==>
        && locationLogs == old(locationLogs) + [LocationLog(timestamp, fix.lat, fix.long)]
        && events == old(events) + [LocationTracked(fix.lat, fix.long)]
      ensures fix.PositionError? ==> locationLogs == old(locationLogs) && events == old(events) + [TrackingFailed]
    {
      match fix
      case Position(lat, long) =>
        locationLogs := locationLogs + [LocationLog(timestamp, lat, long)];
        events := events + [LocationTracked(lat, long)];
      case PositionError =>
        events := events + [TrackingFailed];
    }

    /**
     * `endSession`: clears the held location poll and ends the session,
     * whatever its state; the session timeout is not cleared, and every
     * call shows "Session Ended".
     */
    method EndSession()
      requires Valid()
      modifies this`locationInterval, this`sessionActive, this`events
      ensures Valid()
      ensures !locationInterval && !sessionActive && events == old(events) + [SessionEnded]
      ensures sessionTimer == old(sessionTimer) && straySessionTimers == old(straySessionTimers)
    {
      locationInterval := false;
      sessionActive := false;
      events := events + [SessionEnded];
    }

    /** A session timeout fires: the held one, or a stray one when `stray`; it ends the session. */
    method SessionTimeout(stray: bool)
      requires Valid()
      requires if stray then straySessionTimers > 0 else sessionTimer
      modifies this`sessionTimer, this`straySessionTimers, this`locationInterval, this`sessionActive, this`events
      ensures Valid()
      ensures stray ==> straySessionTimers == old(straySessionTimers) - 1 && sessionTimer == old(sessionTimer)
      ensures !stray ==> !sessionTimer && straySessionTimers == old(straySessionTimers)
      ensures !locationInterval && !sessionActive && events == old(events) + [SessionEnded]
    {
      if stray {
        straySessionTimers := straySessionTimers - 1;
      } else {
        sessionTimer := false;
      }
      EndSession();
    }

    /**
     * `ngOnDestroy`: clears the detection, countdown, location and session
     * timers the fields hold and releases the stream; stray timers survive.
     */
    method NgOnDestroy()
      requires Valid()
      modifies this`faceDetectionInterval, this`countdownInterval, this`locationInterval,
        this`sessionTimer, this`videoStreaming
      ensures Valid()
      ensures !faceDetectionInterval && !countdownInterval && !locationInterval && !sessionTimer && !videoStreaming
    {
      faceDetectionInterval := false;
      countdownInterval := false;
      locationInterval := false;
      sessionTimer := false;
      StopVideo();
    }
  }
}
