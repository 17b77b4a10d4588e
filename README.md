# Attendance capture: a Dafny model of the `Login` and `PunchIn` components

The web punch-in system records attendance from the browser. A camera frame
is matched against the faces of enrolled employees. A match records a punch
carrying the snapshot, the position and a timestamp. It stores the matched
employee's profile in localStorage and starts a work session. The session
polls the position every ten seconds until a one-hour timeout ends it. On
the login page a five-second countdown also sends the user to the home page.
The logic lives twice, in two near-identical Angular components: `Login`
(admin and user tabs, countdown, teardown) and `PunchIn` (retake, no
countdown).

The model has one class per component: `LoginComponent.Login` and
`PunchInComponent.PunchIn`. Their fields are the component's fields, and
every handler and timer callback is a method run atomically. Each method's
`modifies` clause names exactly the fields the handler assigns. Browser
outcomes are method parameters:

- the camera permission;
- the detection result: no face, a face given as its distances to the enrolled descriptors, or a failed detection;
- the geolocation fix or error;
- clock readings, snapshots and timestamps.

A timer is a flag saying that the timer whose handle a field holds is still
scheduled. Where the code overwrites a handle without clearing the timer, a
`stray…` count keeps the timers left running. `PunchIn` keeps its detection
intervals in local constants, so it only counts them. Toasts, localStorage
writes, navigation to the home page and the position request made for a
punch go, in order, into a ghost `events` log. The position requests of the
location poll are not logged; only their outcome is.

Pure modules shared by both classes:

- `Attendance`: records, JavaScript truthiness and `||`, the event kinds and their toast texts;
- `Matching`: `findBestMatch` and what it promises;
- `Enrollment`: what one load of the descriptors appends;
- `RateLimit`: the "Face Not Recognized" warning over a run of ticks;
- `ProfileSlot`: the `punchInUser` record.

`Scenarios` composes handlers into short runs.

Ending a session is not idempotent, and it does not stop every timer:

- `endSession` has no guard, so each call shows "Session Ended";
- it leaves the session timeout scheduled;
- `startSession` overwrites the location-poll and session-timeout handles without clearing the old timers, so a punch after a retake leaves a poll that no later call stops and a second timeout that ends the session again.

## Model

| member | source | states |
|---|---|---|
| Attendance.DropLast | src/app/features/punch-in/punch-in.ts:434 | `pop` removes the last punch: the old list is the result plus that element; an empty list stays empty |
| Attendance.DropLastUndoesAppend | src/app/features/punch-in/punch-in.ts:434 | popping right after a push gives back the list as it was before the push |
| Matching.FindBestMatch | src/app/features/login/login.ts:285-298 | returns nothing exactly when no distance is under 0.4; otherwise returns the entry under 0.4 that no entry beats, and every earlier entry is strictly farther |
| Matching.EarliestNearestUnique | src/app/features/punch-in/punch-in.ts:200-213 | at most one index meets the matcher's promise, so its answer is determined |
| Matching.EarliestNearestExists | src/app/features/punch-in/punch-in.ts:200-213 | when some distance is under 0.4, an index meeting the promise exists |
| Matching.DoubledListSameMatch | src/app/features/login/login.ts:135-151 | with the enrolled list duplicated, as two descriptor loads leave it, an index is the match of the doubled list iff it is the match of the original |
| Enrollment.Enrolled | src/app/features/login/login.ts:171-189 | one entry per employee whose photo yielded a face; there are never more entries than employees |
| Enrollment.EnrolledAppend | src/app/features/login/login.ts:171-189 | enrolment keeps directory order: enrolling a concatenated directory gives the two enrolments concatenated |
| Enrollment.EnrolledExactly | src/app/features/login/login.ts:179-185 | every employee whose photo yielded a face has an entry, and every entry comes from such an employee |
| Enrollment.EnrolledAll | src/app/features/punch-in/punch-in.ts:105-123 | when every photo yields a face, the k-th entry is the k-th employee's |
| RateLimit.WarningsAreTicks | src/app/features/login/login.ts:259-268 | every warning is shown at the clock reading of some no-match tick |
| RateLimit.WarningsSpaced | src/app/features/login/login.ts:259-268 | each warning comes more than 10000 ms after the starting clock, and any two warnings are more than 10000 ms apart |
| RateLimit.AtMostOneWarningPerWindow | src/app/features/punch-in/punch-in.ts:180-189 | no-match ticks that all fall within one 10000 ms window show at most one warning |
| RateLimit.FirstTwoWarnings | src/app/features/punch-in/punch-in.ts:180-189 | the first two warnings of a run, if there are two, fall on ticks more than 10000 ms apart |
| RateLimit.WarnsAfterGap | src/app/features/punch-in/punch-in.ts:180-189 | a run of no-match ticks whose last reading is more than 10000 ms after the starting clock shows at least one warning, whatever the readings before it |
| ProfileSlot.FindEmployee | src/app/features/punch-in/punch-in.ts:264 | finds nothing iff no record's `id` or `employeeId` equals the id; otherwise the first matching record |
| ProfileSlot.ProfileOf | src/app/features/punch-in/punch-in.ts:266-273 | the name, email and punch time are copied; mobile is the phone when truthy, else the mobile; the employee id is `employeeId` when truthy, else `id`; there is a location iff both coordinates are non-zero, and it carries them |
| ProfileSlot.ProfileFor | src/app/features/punch-in/punch-in.ts:263-278 | a record is written iff an employee is detected and some record matches its id; it is built from the first match |
| ProfileSlot.EnrolledEmployeeGetsProfile | src/app/features/login/login.ts:348-363 | an employee enrolled from the directory still held always gets a stored profile, built from its own record or from an earlier record whose `id` or `employeeId` equals that id |
| LoginComponent.Login.constructor | src/app/features/login/login.ts:41-72 | the initial field values, with no timer scheduled and nothing logged |
| LoginComponent.Login.SwitchToAdminTab | src/app/features/login/login.ts:85-108 | nothing changes while a face is detected; otherwise admin tab, sign-in hidden, no navigation, countdown at 5, detection cleared, detection and countdown timers cancelled, stream released |
| LoginComponent.Login.SwitchToUserTab | src/app/features/login/login.ts:110-133 | user tab, detection timer cancelled, detection cleared, punches emptied, countdown at 5; the running countdown is untouched |
| LoginComponent.Login.LoadEmployeeDescriptors | src/app/features/login/login.ts:159-193 | a failed directory fetch leaves the load unfinished; otherwise the directory is kept and its enrolled entries are appended after the existing ones |
| LoginComponent.Login.StartVideo | src/app/features/login/login.ts:196-223 | with the camera, the stream is attached and a detection interval is held; without it, the permission drops and one warning shows |
| LoginComponent.Login.StopVideo | src/app/features/login/login.ts:392-411 | the detection interval is cancelled and the stream released |
| LoginComponent.Login.DetectTick | src/app/features/login/login.ts:223-281 | off the user tab, without video, or when detection fails: only the interval is cancelled. No face: detection cleared. A face while one is detected: nothing changes. No match: detection cleared and the warning rate-limited. A match: interval cancelled, stream released, the earliest nearest employee held, position requested, then "Face Detected" |
| LoginComponent.Login.PunchPositionFound | src/app/features/login/login.ts:323-377 | exactly one punch with the reported position is appended; then the toast and the profile write, the countdown restarted at 5, and a session started |
| LoginComponent.Login.RecordPunch | src/app/features/login/login.ts:324-363 | the position is kept, one punch appended, then the success toast and the profile of the first matching record |
| LoginComponent.Login.StartCountdown | src/app/features/login/login.ts:364-373 | navigation pending, countdown at 5, a new countdown held; an overwritten running one is counted as stray |
| LoginComponent.Login.PunchPositionFailed | src/app/features/login/login.ts:378-386 | no punch and no session: one warning, and the location permission drops |
| LoginComponent.Login.CountdownTick | src/app/features/login/login.ts:367-373 | the countdown decreases by one; at zero or below, the held countdown is cancelled and the page navigates home |
| LoginComponent.Login.StartSession | src/app/features/login/login.ts:414-445 | the session is active with both timers held; overwritten running ones are counted as stray |
| LoginComponent.Login.TrackUserLocation | src/app/features/login/login.ts:447-476 | a fix appends exactly one location log with its coordinates and an info toast; an error only warns |
| LoginComponent.Login.EndSession | src/app/features/login/login.ts:478-495 | the session is inactive and the held poll cancelled; the session timeout is not; each call logs one "Session Ended" |
| LoginComponent.Login.SessionTimeout | src/app/features/login/login.ts:435-442 | the held or a stray timeout fires once and ends the session |
| LoginComponent.Login.NgOnDestroy | src/app/features/login/login.ts:505-525 | the held detection, countdown, location and session timers are cancelled and the stream released |
| PunchInComponent.PunchIn.constructor | src/app/features/punch-in/punch-in.ts:48-68 | the initial field values, with no interval scheduled and nothing logged |
| PunchInComponent.PunchIn.LoadEmployeeDescriptors | src/app/features/punch-in/punch-in.ts:93-127 | a failed directory fetch leaves the load unfinished; otherwise the directory is kept and its enrolled entries are appended |
| PunchInComponent.PunchIn.StartVideo | src/app/features/punch-in/punch-in.ts:129-146 | with the camera, the stream is attached and one more detection interval runs; without it, the permission drops and one warning shows |
| PunchInComponent.PunchIn.DetectTick | src/app/features/punch-in/punch-in.ts:152-196 | a failed detection, or a face while one is detected: nothing changes. No face: detection cleared. No match: detection cleared and the warning rate-limited. A match: the ticking interval stops, the stream is released, the earliest nearest employee is held, the position is requested, then "Face Detected" |
| PunchInComponent.PunchIn.StopVideo | src/app/features/punch-in/punch-in.ts:299-305 | the stream is released; detection intervals keep running |
| PunchInComponent.PunchIn.PunchPositionFound | src/app/features/punch-in/punch-in.ts:238-286 | exactly one punch with the reported position is appended, the toast and profile write follow, and a session starts; no navigation |
| PunchInComponent.PunchIn.RecordPunch | src/app/features/punch-in/punch-in.ts:239-278 | the position is kept, one punch appended, then the success toast and the profile of the first matching record |
| PunchInComponent.PunchIn.PunchPositionFailed | src/app/features/punch-in/punch-in.ts:287-295 | no punch and no session: one warning, and the location permission drops |
| PunchInComponent.PunchIn.StartSession | src/app/features/punch-in/punch-in.ts:321-352 | the session is active with both timers held; the overwritten poll and timeout are counted as stray |
| PunchInComponent.PunchIn.TrackUserLocation | src/app/features/punch-in/punch-in.ts:354-383 | a fix appends exactly one location log with its coordinates; an error leaves the logs unchanged and warns |
| PunchInComponent.PunchIn.EndSession | src/app/features/punch-in/punch-in.ts:385-402 | the session is inactive and the held poll cancelled; the session timeout is not; each call logs one "Session Ended" |
| PunchInComponent.PunchIn.SessionTimeout | src/app/features/punch-in/punch-in.ts:342-349 | the held or a stray timeout fires once and ends the session |
| PunchInComponent.PunchIn.RetakePunchIn | src/app/features/punch-in/punch-in.ts:429-442 | the detection mark, user label and position are cleared and the last punch, if any, is dropped; the matched employee is kept |
| Scenarios.MatchedPunchIn | src/app/features/punch-in/punch-in.ts:159-175 | after one employee is enrolled, the camera granted and a face at distance 0.1 detected, that employee is held and the detection interval is gone |
| Scenarios.PunchThenRetake | src/app/features/punch-in/punch-in.ts:429-434 | after a match, a punch followed by a retake leaves no punch, but the session it started keeps running |
| Scenarios.RetakeAndPunchAgain | src/app/features/punch-in/punch-in.ts:321-352 | a punch, a retake, a second match and a second punch leave one punch, and the first session's poll and timeout still scheduled beside the held ones |
| Scenarios.SecondPunchLeavesPollRunning | src/app/features/punch-in/punch-in.ts:329 | after that, ending the session leaves one location poll and both timeouts scheduled |
| Scenarios.EndSessionTwice | src/app/features/punch-in/punch-in.ts:385-402 | after that, the two pending timeouts each end the session, and "Session Ended" shows twice in a row |
| Scenarios.MatchedLogin | src/app/features/login/login.ts:237-254 | after the user tab is opened, one employee enrolled, the camera granted and a face matched, a face is detected and no countdown runs |
| Scenarios.CountdownGoesHome | src/app/features/login/login.ts:364-373 | after a punch, the fifth countdown tick navigates home and leaves no countdown running |
| Scenarios.LoadTwice | src/app/features/login/login.ts:135-151 | loading the descriptors twice lists every enrolled employee twice |

## Left out

- Face recognition: model loading, face detection and the Euclidean distance between descriptors are library calls on floating-point data. A detection arrives as its outcome, with the distances as exact reals.
- The camera, the canvas and the stream tracks: `captureSnapshot` is an opaque string parameter, and holding a stream is one flag.
- `navigator.geolocation`, `Date`, `performance.now` and console logging: fixes, clock readings and timestamps are parameters; the logging is dropped.
- Number formatting: the profile's `"lat, long"` text and the "Lat: …, Long: …" detail of the location toast are kept as their coordinates, not as strings.
- Async interleaving: each tick and each callback runs atomically, and the model does not order callbacks that the browser may run in any order.
- `switchToUserTab` starts the video and the descriptor load after a 100 ms timeout; those arrive as separate `StartVideo` and `LoadEmployeeDescriptors` calls.
- `retakePunchIn`'s camera request arrives as a separate `StartVideo` call, and clearing the canvas is drawing only.
- Exceptions other than a rejected detection or fetch: in the code, an exception thrown after some fields were assigned would leave those assignments in place. The model does not capture this.
- LoginComponent.Login.StopVideo: releases the stream even when the video element is missing, where the code has nothing to release.
- LoginComponent.Login.DetectTick: an exception thrown by the matcher, the snapshot or the position request inside the tick would also cancel the interval; only a rejected detection is modelled.
- The web-worker timer (`timerWorker`): it is never started, and the components only terminate it.
- `downloadPunchData` and `downloadLocationLogs`: file downloads through Blob and DOM links.
- `login`, `signin`, `adminLogin`, `backToHomePage` and `confirmBackToHome`: navigation and a confirmation dialog only.
- The other files of the repository are not part of this model: the employee service, registration, user management, home, routes and bootstrapping.
