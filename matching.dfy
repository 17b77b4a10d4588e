/**
 * The matcher of both components (`findBestMatch`): the enrolled descriptor
 * nearest to the live one, provided it is strictly under the threshold,
 * the earliest one winning ties.
 */
module Matching {
  import opened Attendance

  /** No enrolled descriptor is within the threshold. */
  predicate NoCandidate(distances: seq<real>) {
    forall j :: 0 <= j < |distances| ==> distances[j] >= MatchThreshold
  }

  /**
   * Index `i` is the answer the matcher promises: under the threshold, no
   * entry strictly closer, and every earlier entry strictly farther.
   */
  predicate IsEarliestNearest(distances: seq<real>, i: int) {
    && 0 <= i < |distances|
    && distances[i] < MatchThreshold
    && (forall j :: 0 <= j < |distances| ==> distances[i] <= distances[j])
    && (forall j :: 0 <= j < i ==> distances[i] < distances[j])
  }

  /**
   * `findBestMatch`: scans the enrolled descriptors in order with a running
   * minimum that starts at the threshold and is replaced only by a strictly
   * smaller distance. `distances[k]` is the distance to `descriptors[k]`.
   */
  method FindBestMatch(descriptors: seq<EmployeeDescriptor>, distances: seq<real>)
    returns (best: Option<EmployeeDescriptor>)
    requires |distances| == |descriptors|
    ensures best.None? <==> NoCandidate(distances)
    ensures best.Some? ==> exists i :: IsEarliestNearest(distances, i) && best.value == descriptors[i]
  {
    var minDistance := MatchThreshold;
    best := None;
    ghost var at := 0;
    for k := 0 to |descriptors|
      invariant minDistance <= MatchThreshold
      invariant forall j :: 0 <= j < k ==> minDistance <= distances[j]
      invariant best.None? ==> minDistance == MatchThreshold
      invariant best.Some? ==> at < k && distances[at] == minDistance < MatchThreshold
      invariant best.Some? ==> best.value == descriptors[at]
      invariant best.Some? ==> forall j :: 0 <= j < at ==> minDistance < distances[j]
    {
      var distance := distances[k];
      if distance < minDistance {
        minDistance := distance;
        best := Some(descriptors[k]);
        at := k;
      }
    }
    if best.Some? {
      assert IsEarliestNearest(distances, at);
    }
  }

  /** The matcher's answer is determined: at most one index satisfies the promise. */
  lemma EarliestNearestUnique(distances: seq<real>, i: int, j: int)
    requires IsEarliestNearest(distances, i) && IsEarliestNearest(distances, j)
    ensures i == j
  {
  }

  /** Whenever some entry is under the threshold, an answer exists. */
  lemma {:induction false} EarliestNearestExists(distances: seq<real>) returns (i: nat)
    requires !NoCandidate(distances)
    ensures IsEarliestNearest(distances, i)
    decreases |distances|
  {
    var n := |distances| - 1;
    var prefix := distances[..n];
    if NoCandidate(prefix) {
      i := n;
      assert distances[n] < MatchThreshold by {
        var j :| 0 <= j < |distances| && distances[j] < MatchThreshold;
        if j < n { assert prefix[j] == distances[j]; }
      }
      forall j | 0 <= j < n ensures distances[n] < distances[j] {
        assert prefix[j] == distances[j];
      }
    } else {
      var p := EarliestNearestExists(prefix);
      assert prefix[p] == distances[p];
      forall j | 0 <= j < n ensures distances[j] == prefix[j] {}
      if distances[n] < distances[p] {
        i := n;
      } else {
        i := p;
      }
    }
  }

  /** An index of the second copy has an earlier twin at the same distance. */
  lemma SecondCopyTwin(distances: seq<real>, k: int)
    ensures |distances| <= k < 2 * |distances| ==>
      (distances + distances)[k - |distances|] == (distances + distances)[k]
  {
  }

  /**
   * Enrolling the same employees twice (the list doubled, each copy at the
   * same distance) does not change which entry is matched: the first copy
   * always wins.
   */
  lemma DoubledListSameMatch(distances: seq<real>, i: int)
    ensures IsEarliestNearest(distances + distances, i) <==> IsEarliestNearest(distances, i)
  {
    var n := |distances|;
    var doubled := distances + distances;
    if IsEarliestNearest(doubled, i) {
      SecondCopyTwin(distances, i);
      assert i < n;
      assert doubled[i] == distances[i];
      forall j | 0 <= j < n ensures distances[i] <= distances[j] {
        assert doubled[j] == distances[j];
      }
      forall j | 0 <= j < i ensures distances[i] < distances[j] {
        assert doubled[j] == distances[j];
      }
      assert IsEarliestNearest(distances, i);
    }
    if IsEarliestNearest(distances, i) {
      assert doubled[i] == distances[i];
      forall j | 0 <= j < |doubled| ensures doubled[i] <= doubled[j] {
        if j >= n { assert doubled[j] == distances[j - n]; }
      }
      forall j | 0 <= j < i ensures doubled[i] < doubled[j] {
        assert doubled[j] == distances[j];
      }
      assert IsEarliestNearest(doubled, i);
    }
  }
}
