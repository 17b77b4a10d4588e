/**
 * The "Face Not Recognized" warning of a detection tick that finds a face
 * matching nobody: it is shown only when more than `WarningGapMs` have passed
 * since the last one shown, and only showing it moves the clock.
 */
module RateLimit {
  import opened Attendance

  predicate ShouldWarn(last: int, now: int) {
    now - last > WarningGapMs
  }

  /** `lastFaceNotRecognizedTime` after a no-match tick at `now`. */
  function NextWarningTime(last: int, now: int): int {
    if ShouldWarn(last, now) then now else last
  }

  /**
   * The clock readings at which warnings are shown over a run of no-match
   * ticks read at `ticks`, starting from `last`.
   */
  function Warnings(last: int, ticks: seq<int>): seq<int>
    decreases |ticks|
  {
    if ticks == [] then []
    else if ShouldWarn(last, ticks[0]) then [ticks[0]] + Warnings(ticks[0], ticks[1..])
    else Warnings(last, ticks[1..])
  }

  /** Every warning is shown at the reading of one of the ticks. */
  lemma {:induction false} WarningsAreTicks(last: int, ticks: seq<int>)
    ensures forall t :: t in Warnings(last, ticks) ==> t in ticks
    decreases |ticks|
  {
    if ticks != [] {
      WarningsAreTicks(if ShouldWarn(last, ticks[0]) then ticks[0] else last, ticks[1..]);
    }
  }

  /**
   * Warnings are spaced: each comes more than `WarningGapMs` after the
   * starting clock, and any two more than `WarningGapMs` apart, in order.
   */
  lemma {:induction false} WarningsSpaced(last: int, ticks: seq<int>)
    ensures forall k :: 0 <= k < |Warnings(last, ticks)| ==> Warnings(last, ticks)[k] - last > WarningGapMs
    ensures forall j, k :: 0 <= j < k < |Warnings(last, ticks)| ==>
      Warnings(last, ticks)[k] - Warnings(last, ticks)[j] > WarningGapMs
    decreases |ticks|
  {
    if ticks != [] {
      if ShouldWarn(last, ticks[0]) {
        WarningsSpaced(ticks[0], ticks[1..]);
        var w := Warnings(ticks[0], ticks[1..]);
        assert Warnings(last, ticks) == [ticks[0]] + w;
      } else {
        WarningsSpaced(last, ticks[1..]);
      }
    }
  }

  /** All ticks of a run fall within one window of `WarningGapMs`: at most one warning. */
  lemma AtMostOneWarningPerWindow(last: int, ticks: seq<int>, start: int)
    requires forall k :: 0 <= k < |ticks| ==> start <= ticks[k] <= start + WarningGapMs
    ensures |Warnings(last, ticks)| <= 1
  {
    FirstTwoWarnings(last, ticks);
  }

  /**
   * The first two warnings of a run, if there are two, are ticks far apart
   * (the guarded form lets a caller use it where two warnings are impossible).
   */
  lemma FirstTwoWarnings(last: int, ticks: seq<int>)
    ensures var w := Warnings(last, ticks);
      |w| >= 2 ==> w[0] in ticks && w[1] in ticks && w[1] - w[0] > WarningGapMs
  {
    WarningsSpaced(last, ticks);
    WarningsAreTicks(last, ticks);
  }

  /**
   * Starting from the clock `last`, a run whose final tick comes more than
   * `WarningGapMs` after `last` shows at least one warning, whatever the
   * readings before it: if none of them warned, the clock is still `last`.
   */
  lemma {:induction false} WarnsAfterGap(last: int, ticks: seq<int>)
    requires ticks != [] && ticks[|ticks| - 1] - last > WarningGapMs
    ensures |Warnings(last, ticks)| >= 1
    decreases |ticks|
  {
    if !ShouldWarn(last, ticks[0]) {
      assert |ticks| > 1;
      WarnsAfterGap(last, ticks[1..]);
    }
  }
}
