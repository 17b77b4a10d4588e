/**
 * Short runs of the two components, each stating in its postcondition
 * what the run leaves behind. Every punch follows the load of the
 * descriptors, the camera and a matching detection tick, as in the
 * components. The runs show the handlers composing: a retake undoes a
 * punch but not the session it started, a punch after a retake leaves a
 * location poll and a session timeout running, `endSession` is not
 * idempotent, and the countdown reaches the home page on its fifth tick.
 */
module Scenarios {
  import opened Attendance
  import Enrollment
  import LoginComponent
  import PunchInComponent

  /** The only employee of the directory in these runs. */
  const Alice := EmployeeRecord(Num(1.0), Str("E001"), "Alice", Str("alice@example.com"), Str("555-0100"), Undefined, "alice.jpg")

  /** A live face at distance 0.1 from Alice's enrolled descriptor. */
  const AliceFace := Face([0.1])

  /** `PunchIn` after Alice is enrolled, the camera granted and her face matched. */
  method MatchedPunchIn(snapshot: string) returns (p: PunchInComponent.PunchIn)
    ensures fresh(p) && p.Valid()
    ensures p.isFaceDetected && p.detectedEmployee == Some(Enrollment.DescriptorOf(Alice))
    ensures p.employeeDescriptors == [Enrollment.DescriptorOf(Alice)] && p.detectionIntervals == 0
    ensures p.punchData == [] && !p.sessionActive && !p.locationInterval && !p.sessionTimer
    ensures p.strayLocationIntervals == 0 && p.straySessionTimers == 0
  {
    p := new PunchInComponent.PunchIn();
    p.LoadEmployeeDescriptors(Some([Alice]), [true]);
    assert Enrollment.Enrolled([Alice], [true]) == [Enrollment.DescriptorOf(Alice)];
    p.StartVideo(true);
    assert AliceFace.distances[0] < MatchThreshold;
    p.DetectTick(AliceFace, 20000, snapshot);
  }

  /** A punch followed by a retake: no punch is left, but the session keeps running. */
  method PunchThenRetake(snapshot: string, lat: real, long: real, timestamp: string)
    returns (p: PunchInComponent.PunchIn)
    ensures p.punchData == [] && p.latitude == None && p.longitude == None && !p.isFaceDetected
    ensures p.sessionActive && p.locationInterval && p.sessionTimer
    ensures fresh(p) && p.Valid() && p.employeeDescriptors == [Enrollment.DescriptorOf(Alice)]
    ensures p.strayLocationIntervals == 0 && p.straySessionTimers == 0
  {
    p := MatchedPunchIn(snapshot);
    p.PunchPositionFound(snapshot, lat, long, timestamp);
    DropLastUndoesAppend([], PunchAt(timestamp, snapshot, lat, long));
    p.RetakePunchIn();
  }

  /**
   * A punch, a retake, a second match and a second punch: the second
   * `startSession` overwrote the handles of the first session's poll and
   * timeout, which are still scheduled.
   */
  method RetakeAndPunchAgain(snapshot: string, lat: real, long: real, timestamp: string)
    returns (p: PunchInComponent.PunchIn)
    ensures fresh(p) && p.Valid() && p.sessionActive
    ensures p.locationInterval && p.strayLocationIntervals == 1
    ensures p.sessionTimer && p.straySessionTimers == 1
    ensures p.punchData == [PunchAt(timestamp, snapshot, lat, long)]
  {
    p := PunchThenRetake(snapshot, lat, long, timestamp);
    p.StartVideo(true);
    p.DetectTick(AliceFace, 40000, snapshot);
    p.PunchPositionFound(snapshot, lat, long, timestamp);
  }

  /** After two sessions, ending the session leaves the first session's poll running. */
  method SecondPunchLeavesPollRunning(snapshot: string, lat: real, long: real, timestamp: string)
    returns (p: PunchInComponent.PunchIn)
    ensures !p.sessionActive && !p.locationInterval && p.strayLocationIntervals == 1
    ensures p.sessionTimer && p.straySessionTimers == 1
  {
    p := RetakeAndPunchAgain(snapshot, lat, long, timestamp);
    p.EndSession();
  }

  /**
   * After two sessions, both pending timeouts fire: each ends the session
   * again, so "Session Ended" shows twice in a row.
   */
  method EndSessionTwice(snapshot: string, lat: real, long: real, timestamp: string)
    returns (p: PunchInComponent.PunchIn)
    ensures !p.sessionActive && !p.sessionTimer && p.straySessionTimers == 0
    ensures |p.events| >= 2 && p.events[|p.events| - 2..] == [SessionEnded, SessionEnded]
  {
    p := RetakeAndPunchAgain(snapshot, lat, long, timestamp);
    p.SessionTimeout(false);
    p.SessionTimeout(true);
  }

  /** `Login` after the user tab is opened, Alice enrolled, the camera granted and her face matched. */
  method MatchedLogin(snapshot: string) returns (l: LoginComponent.Login)
    ensures fresh(l) && l.Valid()
    ensures l.isFaceDetected && !l.countdownInterval && l.strayCountdowns == 0
  {
    l := new LoginComponent.Login();
    l.SwitchToUserTab();
    l.LoadEmployeeDescriptors(Some([Alice]), [true]);
    assert Enrollment.Enrolled([Alice], [true]) == [Enrollment.DescriptorOf(Alice)];
    l.StartVideo(true);
    assert AliceFace.distances[0] < MatchThreshold;
    l.DetectTick(true, AliceFace, 20000, snapshot);
  }

  /** After a punch on the login page, the fifth countdown tick goes home and clears the countdown. */
  method CountdownGoesHome(snapshot: string, lat: real, long: real, timestamp: string)
    returns (l: LoginComponent.Login)
    ensures l.navigationCountdown == 0 && !l.countdownInterval && l.strayCountdowns == 0
    ensures |l.events| > 0 && l.events[|l.events| - 1] == NavigateHome
  {
    l := MatchedLogin(snapshot);
    l.PunchPositionFound(snapshot, lat, long, timestamp);
    l.CountdownTick();
    l.CountdownTick();
    l.CountdownTick();
    l.CountdownTick();
    l.CountdownTick();
  }

  /**
   * `ngOnInit` and `initFaceRecognition` both load the descriptors: every
   * enrolled employee is then listed twice.
   */
  method LoadTwice(directory: seq<EmployeeRecord>, found: seq<bool>) returns (l: LoginComponent.Login)
    requires |found| == |directory|
    ensures !l.isLoadingDescriptors
    ensures l.employeeDescriptors == Enrollment.Enrolled(directory, found) + Enrollment.Enrolled(directory, found)
  {
    l := new LoginComponent.Login();
    l.LoadEmployeeDescriptors(Some(directory), found);
    l.LoadEmployeeDescriptors(Some(directory), found);
  }
}
