/** The records of DrAvail.Models that the core reads and writes: an availability
    with its common-day and weekend timings, the two conditional-required
    validation attributes on it, and the doctor fields the controllers use. */
module Models {
  import opened Platform

  datatype ContactPreference = Always | EmergencyOnly | Never

  /** Availability.Timings. The hour and minute strings are form inputs that are
      not stored; the four DateTime values are the stored clock times. */
  datatype Timings = Timings(
    morningStartHour: Option<string>, morningStartMinute: Option<string>, morningStartTime: DateTime,
    morningEndHour: Option<string>, morningEndMinute: Option<string>, morningEndTime: DateTime,
    eveningStartHour: Option<string>, eveningStartMinute: Option<string>, eveningStartTime: DateTime,
    eveningEndHour: Option<string>, eveningEndMinute: Option<string>, eveningEndTime: DateTime)

  /** An Availability record. Reference-typed properties that the framework may leave
      null are options. */
  datatype Availability = Availability(
    id: int,
    availabilityType: Option<string>,
    status: Option<string>,
    commonDays: Option<Timings>,
    isAvailableOnWeekend: bool,
    weekendSameAsCommon: bool,
    weekends: Option<Timings>,
    currentStartDateTime: Option<DateTime>,
    currentEndDateTime: Option<DateTime>,
    contactPreference: ContactPreference,
    hospitalId: Option<int>)

  /** new Availability.Timings(): every string null, every time DateTime.MinValue. */
  function NewTimings(): (t: Timings)
    ensures t.morningStartMinute.None? && t.morningEndMinute.None?
    ensures t.eveningStartMinute.None? && t.eveningEndMinute.None?
    ensures t.morningStartTime == t.morningEndTime == t.eveningStartTime == t.eveningEndTime == MinValue
  {
    Timings(None, None, MinValue, None, None, MinValue, None, None, MinValue, None, None, MinValue)
  }

  /** new Availability(): the property initialisers, everything else at its default. */
  function NewAvailability(): (a: Availability)
    ensures a.status == Some("Available")
    ensures !a.isAvailableOnWeekend && !a.weekendSameAsCommon
    ensures a.contactPreference == Always
    ensures a.availabilityType.None? && a.commonDays.None? && a.weekends.None?
    ensures a.currentStartDateTime.None? && a.currentEndDateTime.None?
  {
    Availability(0, None, Some("Available"), None, false, false, None, None, None, Always, None)
  }

  /** The outcome of a ValidationAttribute: ValidationResult.Success or a ValidationResult with a message. */
  datatype ValidationResult = Success | Failure(errorMessage: string)

  /** RequireWhenCurrentAttribute.IsValid for the property memberName holding value:
      a date is required unless the availability is of a "Common" type. */
  function RequireWhenCurrent(a: Availability, value: Option<DateTime>, memberName: string): (r: ValidationResult)
    ensures r.Failure? ==> value.None? && r.errorMessage == memberName + " is required"
    ensures value.Some? ==> r == Success
  {
    if !IsNullOrEmpty(a.availabilityType) && Contains(a.availabilityType.value, "Common") then Success
    else if value.None? then Failure(memberName + " is required")
    else Success
  }

  /** RequireWhenAvailableOnWeekendAttribute.IsValid for the Weekends property holding value. */
  function RequireWhenAvailableOnWeekend(a: Availability, value: Option<Timings>): (r: ValidationResult)
    ensures r.Failure? ==> a.isAvailableOnWeekend && value.None? && r.errorMessage == "Weekend timing is required"
    ensures !a.isAvailableOnWeekend || value.Some? ==> r == Success
  {
    if !a.isAvailableOnWeekend then Success
    else if value.None? then Failure("Weekend timing is required")
    else Success
  }

  /** A "Common" availability passes RequireWhenCurrent whatever the value. */
  lemma CommonNeedsNoCurrentDates(a: Availability, value: Option<DateTime>, memberName: string)
    requires a.availabilityType.Some? && Contains(a.availabilityType.value, "Common")
    ensures RequireWhenCurrent(a, value, memberName) == Success
  {
  }

  /** Any other availability fails RequireWhenCurrent exactly when the value is null,
      and the message names the property. */
  lemma CurrentDateRequired(a: Availability, value: Option<DateTime>, memberName: string)
    requires IsNullOrEmpty(a.availabilityType) || !Contains(a.availabilityType.value, "Common")
    ensures RequireWhenCurrent(a, value, memberName).Failure? <==> value.None?
    ensures value.None? ==> RequireWhenCurrent(a, value, memberName).errorMessage == memberName + " is required"
  {
  }

  /** Weekend timings are required exactly when weekend availability is on. */
  lemma WeekendTimingsRequired(a: Availability, value: Option<Timings>)
    ensures RequireWhenAvailableOnWeekend(a, value).Failure? <==> a.isAvailableOnWeekend && value.None?
    ensures RequireWhenAvailableOnWeekend(a, value).Failure? ==>
              RequireWhenAvailableOnWeekend(a, value).errorMessage == "Weekend timing is required"
  {
  }

  /** The type stamped on a saved common availability, RegNumber + "_Common". */
  function CommonType(regNumber: string): (t: string)
    ensures Contains(t, "Common")
  {
    ContainsSuffix(regNumber + "_", "Common");
    assert (regNumber + "_") + "Common" == regNumber + "_Common";
    regNumber + "_Common"
  }

  /** Whatever the registration number, a stamped common availability never needs
      its current start and end dates. */
  lemma StampedNeedsNoCurrentDates(a: Availability, regNumber: string, value: Option<DateTime>, memberName: string)
    ensures RequireWhenCurrent(a.(availabilityType := Some(CommonType(regNumber))), value, memberName) == Success
  {
  }

  /** A fresh Availability passes the weekend check but, having no type yet,
      fails the current-date check on both current dates. */
  lemma NewAvailabilityValidation()
    ensures RequireWhenAvailableOnWeekend(NewAvailability(), NewAvailability().weekends) == Success
    ensures RequireWhenCurrent(NewAvailability(), NewAvailability().currentStartDateTime, "CurrentStartDateTime").Failure?
    ensures RequireWhenCurrent(NewAvailability(), NewAvailability().currentEndDateTime, "CurrentEndDateTime").Failure?
  {
  }

  /** The Doctor fields the controllers use. OwnerID, the owning account's user id,
      is read and set by the controllers but not declared in the Doctor.cs shown. */
  datatype Doctor = Doctor(
    id: int,
    ownerId: Option<string>,
    name: string,
    regNumber: string,
    isVerified: bool,
    emailId: string,
    commonAvailability: Option<Availability>)
}
