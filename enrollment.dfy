/**
 * What one run of `loadEmployeeDescriptors` adds to `employeeDescriptors`:
 * one entry per employee whose reference photo yielded a face, in directory
 * order. Employees whose photo has no face, or whose fetch or detection
 * throws, are skipped.
 */
module Enrollment {
  import opened Attendance

  /** The `{id, name}` part of the entry pushed for an employee. */
  function DescriptorOf(e: EmployeeRecord): EmployeeDescriptor {
    EmployeeDescriptor(e.id, e.name)
  }

  /** Number of employees whose photo yielded a face. */
  function CountFound(found: seq<bool>): nat {
    if found == [] then 0 else (if found[0] then 1 else 0) + CountFound(found[1..])
  }

  /**
   * Entries pushed for `employees`, where `found[k]` says whether a face was
   * detected in the photo of `employees[k]`.
   */
  function Enrolled(employees: seq<EmployeeRecord>, found: seq<bool>): (enrolled: seq<EmployeeDescriptor>)
    requires |found| == |employees|
    ensures |enrolled| == CountFound(found) <= |employees|
    decreases |employees|
  {
    if employees == [] then []
    else (if found[0] then [DescriptorOf(employees[0])] else []) + Enrolled(employees[1..], found[1..])
  }

  /** Enrolment keeps directory order: it distributes over concatenation. */
  lemma {:induction false} EnrolledAppend(a: seq<EmployeeRecord>, fa: seq<bool>, b: seq<EmployeeRecord>, fb: seq<bool>)
    requires |fa| == |a| && |fb| == |b|
    ensures Enrolled(a + b, fa + fb) == Enrolled(a, fa) + Enrolled(b, fb)
    decreases |a|
  {
    if a == [] {
      assert a + b == b && fa + fb == fb;
    } else {
      assert (a + b)[1..] == a[1..] + b;
      assert (fa + fb)[1..] == fa[1..] + fb;
      EnrolledAppend(a[1..], fa[1..], b, fb);
    }
  }

  /**
   * Exactly the employees whose photo yielded a face are enrolled: every such
   * employee has an entry, and every entry belongs to such an employee.
   */
  lemma {:induction false} EnrolledExactly(employees: seq<EmployeeRecord>, found: seq<bool>)
    requires |found| == |employees|
    ensures forall k :: 0 <= k < |employees| && found[k] ==> DescriptorOf(employees[k]) in Enrolled(employees, found)
    ensures forall d :: d in Enrolled(employees, found) ==>
      exists k :: 0 <= k < |employees| && found[k] && d == DescriptorOf(employees[k])
    decreases |employees|
  {
    if employees != [] {
      var rest := Enrolled(employees[1..], found[1..]);
      EnrolledExactly(employees[1..], found[1..]);
      forall k | 1 <= k < |employees| && found[k]
        ensures DescriptorOf(employees[k]) in Enrolled(employees, found)
      {
        assert employees[1..][k - 1] == employees[k] && found[1..][k - 1] == found[k];
      }
      forall d | d in rest
        ensures exists k :: 0 <= k < |employees| && found[k] && d == DescriptorOf(employees[k])
      {
        var k :| 0 <= k < |employees[1..]| && found[1..][k] && d == DescriptorOf(employees[1..][k]);
        assert found[k + 1] && d == DescriptorOf(employees[k + 1]);
      }
    }
  }

  /** When every photo yields a face, every employee is enrolled, one entry each, in order. */
  lemma {:induction false} EnrolledAll(employees: seq<EmployeeRecord>, found: seq<bool>)
    requires |found| == |employees|
    requires forall k :: 0 <= k < |found| ==> found[k]
    ensures |Enrolled(employees, found)| == |employees|
    ensures forall k :: 0 <= k < |employees| ==> Enrolled(employees, found)[k] == DescriptorOf(employees[k])
    decreases |employees|
  {
    if employees != [] {
      EnrolledAll(employees[1..], found[1..]);
    }
  }
}
