/** The availability-timing rules of DoctorsController: the minute whitelist, the
    bounded start/end check with its morning and evening wrappers, and the
    validation block of CreateOnPost that collects their messages and copies the
    common-day times to the weekend. */
module TimingRules {
  import opened Platform
  import opened Models

  /** The bool result and the out errorMessage of a Verify* helper. */
  datatype Verdict = Verdict(ok: bool, errorMessage: string)

  datatype DateTimeRelation = IsEarlier | IsSame | IsLater

  function CompareDateTime(dt1: DateTime, dt2: DateTime): (r: DateTimeRelation)
    ensures r == IsEarlier <==> dt1.ticks < dt2.ticks
    ensures r == IsSame <==> dt1 == dt2
    ensures r == IsLater <==> dt1.ticks > dt2.ticks
  {
    var result := Compare(dt1, dt2);
    if result == 0 then IsSame
    else if result > 0 then IsLater
    else IsEarlier
  }

  /** The minute strings VerifyMinutes accepts, in its array's order. */
  const Minutes: seq<string> := ["00", "15", "30", "45"]

  /** VerifyMinutes: all four minute strings of the timings are on the whitelist.
      Only the strings are looked at, never the DateTime values. */
  function VerifyMinutes(timings: Timings): (r: Verdict)
    ensures r.ok <==> forall m :: m in [timings.morningStartMinute, timings.morningEndMinute,
                                        timings.eveningStartMinute, timings.eveningEndMinute]
                                  ==> m.Some? && m.value in Minutes
    ensures r.errorMessage == if r.ok then "" else "Invalid Minutes"
  {
    if (timings.morningStartMinute.Some? && timings.morningStartMinute.value in Minutes)
       && (timings.morningEndMinute.Some? && timings.morningEndMinute.value in Minutes)
       && (timings.eveningStartMinute.Some? && timings.eveningStartMinute.value in Minutes)
       && (timings.eveningEndMinute.Some? && timings.eveningEndMinute.value in Minutes)
    then Verdict(true, "")
    else Verdict(false, "Invalid Minutes")
  }

  /** The three messages of VerifyTimings for the label msg. */
  function StartMessage(msg: string): string { "Invalid " + msg + " Start Time" }
  function EndMessage(msg: string): string { "Invalid " + msg + " End Time" }
  function OrderMessage(msg: string): string { msg + " Start time should not be greater than " + msg + " End Time" }

  /** VerifyTimings: the window is accepted when the start is not before the minimum,
      the end is not after the maximum, and (as written) the start is strictly LATER
      than the end. Both bounds are clock times on the date of `now`. */
  function VerifyTimings(startTime: DateTime, endTime: DateTime, msg: string, now: DateTime,
                         minHour: nat, maxHour: nat, minMinute: nat := 0, maxMinute: nat := 0): (r: Verdict)
    requires minHour < 24 && maxHour < 24 && minMinute < 60 && maxMinute < 60
    ensures r.ok <==> r.errorMessage == ""
    ensures r.ok <==> AtClock(now, minHour, minMinute).ticks <= startTime.ticks
                      && endTime.ticks <= AtClock(now, maxHour, maxMinute).ticks
                      && endTime.ticks < startTime.ticks
  {
    var minTime := AtClock(now, minHour, minMinute);
    var maxTime := AtClock(now, maxHour, maxMinute);
    if CompareDateTime(startTime, minTime) != IsEarlier then
      if CompareDateTime(endTime, maxTime) != IsLater then
        if CompareDateTime(startTime, endTime) == IsLater then Verdict(true, "")
        else Verdict(false, OrderMessage(msg))
      else Verdict(false, EndMessage(msg))
    else Verdict(false, StartMessage(msg))
  }

  /** VerifyMorningTiming: the morning window against 00:00 and 14:00 today. */
  function VerifyMorningTiming(timings: Timings, now: DateTime, textToAdd: string := "Morning"): (r: Verdict)
    ensures r.ok <==> r.errorMessage == ""
    ensures !r.ok ==> r.errorMessage in {StartMessage(textToAdd), EndMessage(textToAdd), OrderMessage(textToAdd)}
  {
    VerifyTimings(timings.morningStartTime, timings.morningEndTime, textToAdd, now, 0, 14)
  }

  /** VerifyEveningTiming: the evening window against 14:00 and 23:45 today. */
  function VerifyEveningTiming(timings: Timings, now: DateTime, textToAdd: string := "Evening"): (r: Verdict)
    ensures r.ok <==> r.errorMessage == ""
    ensures !r.ok ==> r.errorMessage in {StartMessage(textToAdd), EndMessage(textToAdd), OrderMessage(textToAdd)}
  {
    VerifyTimings(timings.eveningStartTime, timings.eveningEndTime, textToAdd, now, 14, 23, maxMinute := 45)
  }

  /** The one message VerifyTimings returns, decided in a fixed order: start bound,
      end bound, then the ordering test. */
  lemma VerifyTimingsOrder(startTime: DateTime, endTime: DateTime, msg: string, now: DateTime,
                           minHour: nat, maxHour: nat, minMinute: nat, maxMinute: nat)
    requires minHour < 24 && maxHour < 24 && minMinute < 60 && maxMinute < 60
    ensures var r := VerifyTimings(startTime, endTime, msg, now, minHour, maxHour, minMinute, maxMinute);
            var minTime := AtClock(now, minHour, minMinute);
            var maxTime := AtClock(now, maxHour, maxMinute);
            if startTime.ticks < minTime.ticks then r == Verdict(false, StartMessage(msg))
            else if endTime.ticks > maxTime.ticks then r == Verdict(false, EndMessage(msg))
            else if startTime.ticks <= endTime.ticks then r == Verdict(false, OrderMessage(msg))
            else r == Verdict(true, "")
  {
  }

  /** As written, a window whose start is at or before its end is always refused. */
  lemma StartNotAfterEndRefused(startTime: DateTime, endTime: DateTime, msg: string, now: DateTime,
                                minHour: nat, maxHour: nat, minMinute: nat, maxMinute: nat)
    requires minHour < 24 && maxHour < 24 && minMinute < 60 && maxMinute < 60
    requires startTime.ticks <= endTime.ticks
    ensures !VerifyTimings(startTime, endTime, msg, now, minHour, maxHour, minMinute, maxMinute).ok
  {
  }

  /** The morning check in clock terms: start at or after 00:00 today, end at or
      before 14:00 today, end strictly before start. */
  lemma MorningBounds(timings: Timings, now: DateTime, textToAdd: string)
    ensures VerifyMorningTiming(timings, now, textToAdd).ok <==>
              Date(now).ticks <= timings.morningStartTime.ticks
              && timings.morningEndTime.ticks <= Date(now).ticks + 14 * TicksPerHour
              && timings.morningEndTime.ticks < timings.morningStartTime.ticks
  {
  }

  /** The evening check in clock terms: start at or after 14:00 today, end at or
      before 23:45 today, end strictly before start. */
  lemma EveningBounds(timings: Timings, now: DateTime, textToAdd: string)
    ensures VerifyEveningTiming(timings, now, textToAdd).ok <==>
              Date(now).ticks + 14 * TicksPerHour <= timings.eveningStartTime.ticks
              && timings.eveningEndTime.ticks <= Date(now).ticks + 23 * TicksPerHour + 45 * TicksPerMinute
              && timings.eveningEndTime.ticks < timings.eveningStartTime.ticks
  {
  }

  /** A conventional morning, 08:00 to 10:00 today, is refused with the ordering message. */
  lemma ConventionalMorningRefused(now: DateTime)
    ensures var t := NewTimings().(morningStartTime := AtClock(now, 8, 0), morningEndTime := AtClock(now, 10, 0));
            VerifyMorningTiming(t, now) == Verdict(false, OrderMessage("Morning"))
  {
  }

  /** An inverted morning, 10:00 to 08:00 today, is accepted. */
  lemma InvertedMorningAccepted(now: DateTime)
    ensures var t := NewTimings().(morningStartTime := AtClock(now, 10, 0), morningEndTime := AtClock(now, 8, 0));
            VerifyMorningTiming(t, now) == Verdict(true, "")
  {
  }

  /** Nothing bounds a morning start from above: 20:00 to 13:00 today passes the morning check. */
  lemma MorningStartUnboundedAbove(now: DateTime)
    ensures var t := NewTimings().(morningStartTime := AtClock(now, 20, 0), morningEndTime := AtClock(now, 13, 0));
            VerifyMorningTiming(t, now).ok
  {
  }

  /** The date part takes part in the comparison: the same clock times pass or fail
      according to the day they are on. */
  lemma DatePartMatters(now: DateTime)
    ensures var today := NewTimings().(morningStartTime := AtClock(now, 10, 0), morningEndTime := AtClock(now, 9, 0));
            var endTomorrow := today.(morningEndTime := DateTime(AtClock(now, 9, 0).ticks + TicksPerDay));
            VerifyMorningTiming(today, now).ok
            && VerifyMorningTiming(endTomorrow, now) == Verdict(false, EndMessage("Morning"))
  {
  }

  /** The messages of the failed checks, in the order the checks ran. */
  function Failures(checks: seq<Verdict>): (messages: seq<string>)
    ensures |messages| <= |checks|
    ensures messages == [] <==> forall i :: 0 <= i < |checks| ==> checks[i].ok
  {
    if checks == [] then []
    else (if checks[0].ok then [] else [checks[0].errorMessage]) + Failures(checks[1..])
  }

  /** Failures of two checks: their messages, each present when its check failed. */
  lemma FailuresOfTwo(first: Verdict, second: Verdict)
    ensures Failures([first, second]) ==
              (if first.ok then [] else [first.errorMessage]) + (if second.ok then [] else [second.errorMessage])
  {
    assert [first, second][1..] == [second];
    assert [second][1..] == [];
  }

  /** The morning and evening checks of the common days. */
  function CommonDaysErrors(commonDays: Timings, now: DateTime): seq<string>
  {
    Failures([VerifyMorningTiming(commonDays, now), VerifyEveningTiming(commonDays, now)])
  }

  /** The morning and evening checks of the weekend, labelled for the weekend. */
  function WeekendErrors(weekends: Timings, now: DateTime): seq<string>
  {
    Failures([VerifyMorningTiming(weekends, now, "Weekend Morning"), VerifyEveningTiming(weekends, now, "Weekend Evening")])
  }

  /** The weekend timings after the four common-day clock times are copied into them. */
  function CopyTimes(commonDays: Timings, weekends: Timings): Timings
  {
    weekends.(morningStartTime := commonDays.morningStartTime, morningEndTime := commonDays.morningEndTime,
              eveningStartTime := commonDays.eveningStartTime, eveningEndTime := commonDays.eveningEndTime)
  }

  /** What CreateOnPost's validation block ends in: a null reference it dereferenced
      (the exception is caught and the form is shown again), or the error list and the
      availability as it then stands. */
  datatype TimingsCheck = Crashed | Checked(errors: seq<string>, availability: Availability)

  /** The validation block of CreateOnPost, as a function of the submitted availability. */
  function CheckTimings(a: Availability, now: DateTime): (r: TimingsCheck)
    ensures r.Crashed? <==> a.commonDays.None?
                            || (VerifyMinutes(a.commonDays.value).ok && a.isAvailableOnWeekend && a.weekends.None?)
    ensures r.Checked? ==> r.availability.(weekends := a.weekends) == a
  {
    if a.commonDays.None? then Crashed
    else
      var commonDays := a.commonDays.value;
      if !VerifyMinutes(commonDays).ok then Checked([VerifyMinutes(commonDays).errorMessage], a)
      else
        var common := CommonDaysErrors(commonDays, now);
        if !a.isAvailableOnWeekend then Checked(common, a)
        else if a.weekends.None? then Crashed
        else if a.weekendSameAsCommon && common == [] then
          Checked([], a.(weekends := Some(CopyTimes(commonDays, a.weekends.value))))
        else Checked(common + WeekendErrors(a.weekends.value, now), a)
  }

  /** One `if (!Verify...) { lstErrors.Add(errorMessage); isTimingsValid = false; }` step. */
  method AddIfFailed(v: Verdict, lstErrors: seq<string>, isTimingsValid: bool)
    returns (errors: seq<string>, valid: bool)
    ensures errors == lstErrors + if v.ok then [] else [v.errorMessage]
    ensures valid == (isTimingsValid && v.ok)
  {
    errors, valid := lstErrors, isTimingsValid;
    if !v.ok {
      errors := errors + [v.errorMessage];
      valid := false;
    }
  }

  /** The validation block of CreateOnPost, appending to the error list, clearing the
      valid flag and copying the weekend times in place, step by step as the source does. */
  method ValidateTimings(a: Availability, now: DateTime) returns (r: TimingsCheck, isTimingsValid: bool)
    ensures r == CheckTimings(a, now)
    ensures r.Checked? ==> (isTimingsValid <==> r.errors == [])
  {
    if a.commonDays.None? {
      return Crashed, false;
    }
    var commonDays := a.commonDays.value;
    var availability := a;
    isTimingsValid := true;
    var lstErrors: seq<string> := [];
    var v := VerifyMinutes(commonDays);
    var errorMessage := v.errorMessage;
    if v.ok {
      var morning, evening := VerifyMorningTiming(commonDays, now), VerifyEveningTiming(commonDays, now);
      FailuresOfTwo(morning, evening);
      lstErrors, isTimingsValid := AddIfFailed(morning, lstErrors, isTimingsValid);
      lstErrors, isTimingsValid := AddIfFailed(evening, lstErrors, isTimingsValid);
      assert lstErrors == CommonDaysErrors(commonDays, now);
      assert isTimingsValid <==> lstErrors == [];
      if availability.isAvailableOnWeekend {
        if availability.weekends.None? {
          return Crashed, false;
        }
        var weekends := availability.weekends.value;
        if availability.weekendSameAsCommon && isTimingsValid {
          weekends := weekends.(morningStartTime := commonDays.morningStartTime);
          weekends := weekends.(morningEndTime := commonDays.morningEndTime);
          weekends := weekends.(eveningStartTime := commonDays.eveningStartTime);
          weekends := weekends.(eveningEndTime := commonDays.eveningEndTime);
          assert weekends == CopyTimes(commonDays, a.weekends.value);
          availability := availability.(weekends := Some(weekends));
        } else {
          var weekendMorning := VerifyMorningTiming(weekends, now, "Weekend Morning");
          var weekendEvening := VerifyEveningTiming(weekends, now, "Weekend Evening");
          FailuresOfTwo(weekendMorning, weekendEvening);
          var common := lstErrors;
          lstErrors, isTimingsValid := AddIfFailed(weekendMorning, lstErrors, isTimingsValid);
          lstErrors, isTimingsValid := AddIfFailed(weekendEvening, lstErrors, isTimingsValid);
          assert lstErrors == common + WeekendErrors(weekends, now);
        }
      }
    } else {
      lstErrors := lstErrors + [errorMessage];
      isTimingsValid := false;
    }
    r := Checked(lstErrors, availability);
  }

  /** A minute string off the whitelist gives exactly ["Invalid Minutes"]; no bound
      check runs and nothing is copied. */
  lemma InvalidMinutesShortCircuits(a: Availability, now: DateTime)
    requires a.commonDays.Some? && !VerifyMinutes(a.commonDays.value).ok
    ensures CheckTimings(a, now) == Checked(["Invalid Minutes"], a)
  {
  }

  /** The error list never holds more than four entries. */
  lemma AtMostFourErrors(a: Availability, now: DateTime)
    ensures CheckTimings(a, now).Checked? ==> |CheckTimings(a, now).errors| <= 4
  {
  }

  /** With valid minutes the checks do not stop at the first failure: when every
      check fails, all four messages are listed, in the order morning, evening,
      weekend morning, weekend evening. */
  lemma EveryFailureListedInOrder(a: Availability, now: DateTime)
    requires a.commonDays.Some? && VerifyMinutes(a.commonDays.value).ok
    requires a.isAvailableOnWeekend && a.weekends.Some?
    requires !VerifyMorningTiming(a.commonDays.value, now).ok && !VerifyEveningTiming(a.commonDays.value, now).ok
    requires !VerifyMorningTiming(a.weekends.value, now, "Weekend Morning").ok
    requires !VerifyEveningTiming(a.weekends.value, now, "Weekend Evening").ok
    ensures CheckTimings(a, now) == Checked([VerifyMorningTiming(a.commonDays.value, now).errorMessage,
                                             VerifyEveningTiming(a.commonDays.value, now).errorMessage,
                                             VerifyMorningTiming(a.weekends.value, now, "Weekend Morning").errorMessage,
                                             VerifyEveningTiming(a.weekends.value, now, "Weekend Evening").errorMessage], a)
  {
    FailuresOfTwo(VerifyMorningTiming(a.commonDays.value, now), VerifyEveningTiming(a.commonDays.value, now));
    FailuresOfTwo(VerifyMorningTiming(a.weekends.value, now, "Weekend Morning"),
                  VerifyEveningTiming(a.weekends.value, now, "Weekend Evening"));
  }

  /** The error list is empty exactly when every check that runs passes. */
  lemma NoErrorsIffEveryCheckPasses(a: Availability, now: DateTime)
    requires CheckTimings(a, now).Checked?
    ensures CheckTimings(a, now).errors == [] <==>
              var c := a.commonDays.value;
              VerifyMinutes(c).ok && VerifyMorningTiming(c, now).ok && VerifyEveningTiming(c, now).ok
              && (a.isAvailableOnWeekend && !a.weekendSameAsCommon ==>
                    VerifyMorningTiming(a.weekends.value, now, "Weekend Morning").ok
                    && VerifyEveningTiming(a.weekends.value, now, "Weekend Evening").ok)
  {
    var c := a.commonDays.value;
    if VerifyMinutes(c).ok {
      FailuresOfTwo(VerifyMorningTiming(c, now), VerifyEveningTiming(c, now));
      if a.isAvailableOnWeekend {
        FailuresOfTwo(VerifyMorningTiming(a.weekends.value, now, "Weekend Morning"),
                      VerifyEveningTiming(a.weekends.value, now, "Weekend Evening"));
      }
    }
  }

  /** Weekend same as common, with valid common days: the four weekend times become
      the common times, the weekend is not checked, and nothing else changes. */
  lemma WeekendCopiedFromCommon(a: Availability, now: DateTime)
    requires a.commonDays.Some? && VerifyMinutes(a.commonDays.value).ok
    requires CommonDaysErrors(a.commonDays.value, now) == []
    requires a.isAvailableOnWeekend && a.weekendSameAsCommon && a.weekends.Some?
    ensures CheckTimings(a, now).Checked? && CheckTimings(a, now).errors == []
    ensures var b := CheckTimings(a, now).availability;
            var c := a.commonDays.value;
            b.weekends.Some?
            && b.weekends.value.morningStartTime == c.morningStartTime && b.weekends.value.morningEndTime == c.morningEndTime
            && b.weekends.value.eveningStartTime == c.eveningStartTime && b.weekends.value.eveningEndTime == c.eveningEndTime
            && b.weekends.value.morningStartMinute == a.weekends.value.morningStartMinute
            && b.weekends.value.eveningStartMinute == a.weekends.value.eveningStartMinute
            && b.(weekends := a.weekends) == a
  {
  }

  /** Weekend same as common, but the common days failed: the weekend is still checked,
      under the weekend labels, after the common-day messages. */
  lemma WeekendCheckedWhenCommonFails(a: Availability, now: DateTime)
    requires a.commonDays.Some? && VerifyMinutes(a.commonDays.value).ok
    requires CommonDaysErrors(a.commonDays.value, now) != []
    requires a.isAvailableOnWeekend && a.weekendSameAsCommon && a.weekends.Some?
    ensures CheckTimings(a, now) ==
              Checked(CommonDaysErrors(a.commonDays.value, now)
                      + Failures([VerifyMorningTiming(a.weekends.value, now, "Weekend Morning"),
                                  VerifyEveningTiming(a.weekends.value, now, "Weekend Evening")]), a)
  {
  }

  /** Weekend availability off: the weekend timings are neither checked nor touched. */
  lemma WeekendOffUntouched(a: Availability, now: DateTime)
    requires a.commonDays.Some? && !a.isAvailableOnWeekend
    ensures CheckTimings(a, now).Checked? && CheckTimings(a, now).availability == a
  {
  }

  /** The validation block changes at most the four weekend clock times. */
  lemma OnlyWeekendTimesChange(a: Availability, now: DateTime)
    requires CheckTimings(a, now).Checked?
    ensures var b := CheckTimings(a, now).availability;
            b.(weekends := a.weekends) == a
            && (b.weekends != a.weekends ==> a.weekends.Some? && b.weekends == Some(CopyTimes(a.commonDays.value, a.weekends.value)))
  {
  }

  /** A record that passed RequireWhenAvailableOnWeekend and has common days never
      reaches a null weekend in the validation block. */
  lemma ModelValidNeverCrashes(a: Availability, now: DateTime)
    requires a.commonDays.Some?
    requires RequireWhenAvailableOnWeekend(a, a.weekends) == Success
    ensures CheckTimings(a, now).Checked?
  {
  }
}
