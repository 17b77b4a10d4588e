/**
 * The profile written to localStorage after a successful punch: the first
 * directory record whose `id` or `employeeId` strictly equals the matched
 * employee's id, reshaped into the `punchInUser` record.
 */
module ProfileSlot {
  import opened Attendance
  import Enrollment

  /** `e.id === id || e.employeeId === id` */
  predicate RecordMatches(e: EmployeeRecord, id: JsValue) {
    e.id == id || e.employeeId == id
  }

  /** `i` is the index `employees.find` stops at. */
  predicate IsFirstMatch(employees: seq<EmployeeRecord>, id: JsValue, i: int) {
    && 0 <= i < |employees|
    && RecordMatches(employees[i], id)
    && forall j :: 0 <= j < i ==> !RecordMatches(employees[j], id)
  }

  /** `employees.find(e => e.id === id || e.employeeId === id)`, as an index. */
  function FindEmployee(employees: seq<EmployeeRecord>, id: JsValue): (found: Option<nat>)
    ensures found.None? <==> forall j :: 0 <= j < |employees| ==> !RecordMatches(employees[j], id)
    ensures found.Some? ==> IsFirstMatch(employees, id, found.value)
    decreases |employees|
  {
    if employees == [] then None
    else if RecordMatches(employees[0], id) then Some(0)
    else match FindEmployee(employees[1..], id)
      case None => None
      case Some(k) => Some(k + 1)
  }

  /** `lat && long ? `${lat}, ${long}` : ''` */
  function LocationText(lat: real, long: real): ProfileLocation {
    if Truthy(Num(lat)) && Truthy(Num(long)) then LatLong(lat, long) else NoLocation
  }

  /** The `userData` record built from a directory record. */
  function ProfileOf(e: EmployeeRecord, lat: real, long: real, punchedTime: string): (p: UserProfile)
    ensures p.name == e.name && p.email == e.email && p.punchedTime == punchedTime
    ensures Truthy(e.phone) ==> p.mobile == e.phone
    ensures !Truthy(e.phone) ==> p.mobile == e.mobile
    ensures Truthy(e.employeeId) ==> p.employeeId == e.employeeId
    ensures !Truthy(e.employeeId) ==> p.employeeId == e.id
    ensures p.location.LatLong? <==> lat != 0.0 && long != 0.0
    ensures p.location.LatLong? ==> p.location.lat == lat && p.location.long == long
  {
    UserProfile(e.name, e.email, Or(e.phone, e.mobile), Or(e.employeeId, e.id), LocationText(lat, long), punchedTime)
  }

  /**
   * The record stored for a punch, if any: nothing unless an employee was
   * detected and some directory record matches its id; otherwise the record
   * built from the first matching one.
   */
  function ProfileFor(employees: seq<EmployeeRecord>, detected: Option<EmployeeDescriptor>,
                      lat: real, long: real, punchedTime: string): (slot: Option<UserProfile>)
    ensures slot.Some? <==>
      detected.Some? && exists i :: 0 <= i < |employees| && RecordMatches(employees[i], detected.value.id)
    ensures slot.Some? ==>
      exists i :: IsFirstMatch(employees, detected.value.id, i) && slot.value == ProfileOf(employees[i], lat, long, punchedTime)
  {
    if detected.None? then None
    else match FindEmployee(employees, detected.value.id)
      case None => None
      case Some(i) => Some(ProfileOf(employees[i], lat, long, punchedTime))
  }

  /** The localStorage write a punch makes, if it finds a record. */
  function SlotWrites(slot: Option<UserProfile>): seq<Event> {
    match slot
    case None => []
    case Some(p) => [StoreProfile(p)]
  }

  /**
   * An employee enrolled from the directory currently held is always found
   * again: its profile is stored, taken from it or from an earlier record
   * carrying the same id.
   */
  lemma EnrolledEmployeeGetsProfile(employees: seq<EmployeeRecord>, k: int, lat: real, long: real, punchedTime: string)
    requires 0 <= k < |employees|
    ensures var slot := ProfileFor(employees, Some(Enrollment.DescriptorOf(employees[k])), lat, long, punchedTime);
      slot.Some? && exists i :: 0 <= i <= k && slot.value == ProfileOf(employees[i], lat, long, punchedTime)
  {
    var id := employees[k].id;
    assert RecordMatches(employees[k], id);
    var found := FindEmployee(employees, id);
    assert found.Some? && found.value <= k;
  }
}
