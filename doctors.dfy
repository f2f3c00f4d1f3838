/** DoctorsController: who sees which doctor (Index, Details), the verification-status
    rules of Edit and of the approve/reject decision (DetailsOnPost), and CreateOnPost,
    over a doctors table keyed by id. */
module Doctors {
  import opened Platform
  import opened Models
  import opened TimingRules

  /** The signed-in user, or nobody. */
  datatype Viewer = Anonymous | SignedIn(userId: string, isAdmin: bool) {
    /** UserManager.GetUserId(User): null for an anonymous viewer. */
    function UserId(): Option<string>
    {
      if SignedIn? then Some(userId) else None
    }

    /** User.IsInRole(Constants.AdministratorsRole). */
    predicate IsAdministrator()
    {
      SignedIn? && isAdmin
    }
  }

  /** The Where filter Index applies for the viewer: anonymous viewers get the verified
      doctors, signed-in non-administrators the verified ones and their own,
      administrators every doctor. */
  predicate ShownInIndex(viewer: Viewer, d: Doctor): (shown: bool)
    ensures d.isVerified ==> shown
    ensures shown && !d.isVerified ==> viewer.IsAdministrator() || (viewer.SignedIn? && d.ownerId == viewer.UserId())
  {
    if viewer.SignedIn? then viewer.isAdmin || d.isVerified || d.ownerId == Some(viewer.userId)
    else d.isVerified
  }

  /** Index's search string: a new search string wins, otherwise the current filter is kept. */
  function SearchString(currentFilter: Option<string>, searchString: Option<string>): Option<string>
  {
    if searchString.Some? then searchString else currentFilter
  }

  predicate MatchesSearch(search: Option<string>, d: Doctor)
  {
    IsNullOrEmpty(search) || Contains(d.name, search.value)
  }

  /** The doctors Index lists, before ordering by name and paging. */
  function Index(doctors: map<int, Doctor>, viewer: Viewer, currentFilter: Option<string>, searchString: Option<string>)
    : (shown: map<int, Doctor>)
    ensures forall id :: id in shown ==> id in doctors && shown[id] == doctors[id]
  {
    var search := SearchString(currentFilter, searchString);
    map id | id in doctors && MatchesSearch(search, doctors[id]) && ShownInIndex(viewer, doctors[id]) :: doctors[id]
  }

  /** Index lists an unverified doctor only to a signed-in administrator or to its owner. */
  lemma IndexHidesUnverified(doctors: map<int, Doctor>, viewer: Viewer, currentFilter: Option<string>,
                             searchString: Option<string>, id: int)
    requires id in Index(doctors, viewer, currentFilter, searchString)
    requires !doctors[id].isVerified
    ensures viewer.IsAdministrator() || (viewer.SignedIn? && doctors[id].ownerId == viewer.UserId())
  {
  }

  /** With no search string, Index lists for an anonymous viewer exactly the verified
      doctors, for a signed-in non-administrator exactly the verified ones and their own,
      and for an administrator every doctor. */
  lemma IndexListsExactly(doctors: map<int, Doctor>, viewer: Viewer, id: int)
    requires id in doctors
    ensures var shown := Index(doctors, viewer, None, None);
            && (viewer.Anonymous? ==> (id in shown <==> doctors[id].isVerified))
            && (viewer.SignedIn? && !viewer.isAdmin ==>
                  (id in shown <==> doctors[id].isVerified || doctors[id].ownerId == Some(viewer.userId)))
            && (viewer.IsAdministrator() ==> id in shown)
  {
  }

  /** Details GET. Without an id a signed-in user sees the page of (the first of) their
      own doctors; with an id, an unverified doctor is forbidden to everyone who is
      neither an administrator nor its owner. */
  function Details(id: Option<int>, viewer: Viewer, doctors: map<int, Doctor>): (r: ActionResult)
    ensures r == NotFound <==> (id.None? && viewer.Anonymous?) || (id.Some? && id.value !in doctors)
    ensures r == Forbid <==> id.Some? && id.value in doctors && !viewer.IsAdministrator()
                             && viewer.UserId() != doctors[id.value].ownerId && !doctors[id.value].isVerified
    ensures r in {NotFound, Forbid, ViewPage}
  {
    if id.None? then
      if viewer.SignedIn? then ViewPage else NotFound
    else if id.value !in doctors then NotFound
    else
      var doctor := doctors[id.value];
      if !viewer.IsAdministrator() && viewer.UserId() != doctor.ownerId && !doctor.isVerified then Forbid
      else ViewPage
  }

  /** For a signed-in viewer, Details shows a doctor exactly when Index would list it. */
  lemma DetailsAgreesWithIndex(doctors: map<int, Doctor>, viewer: Viewer, id: int)
    requires id in doctors && viewer.SignedIn?
    ensures Details(Some(id), viewer, doctors) == ViewPage <==> id in Index(doctors, viewer, None, None)
  {
  }

  /** For an anonymous viewer the two disagree on an unverified doctor without an owner:
      Details compares the null user id with the null owner and shows it, Index hides it. */
  lemma OwnerlessDoctorShownToAnonymousInDetailsOnly(d: Doctor)
    requires !d.isVerified && d.ownerId.None?
    ensures Details(Some(d.id), Anonymous, map[d.id := d]) == ViewPage
    ensures d.id !in Index(map[d.id := d], Anonymous, None, None)
  {
  }

  /** Edit POST's verification rule: a verified doctor edited by a user who may not
      approve goes back to unverified; nothing else about the posted doctor changes. */
  function VerifiedAfterEdit(posted: Doctor, authorize: (Doctor, Operation) -> bool): (d: Doctor)
    ensures d.isVerified <==> posted.isVerified && authorize(posted, Approve)
    ensures d.(isVerified := posted.isVerified) == posted
  {
    if posted.isVerified && !authorize(posted, Approve) then posted.(isVerified := false) else posted
  }

  /** An edit never sets IsVerified unless it was posted set; an approver's edit keeps
      the posted status (so an approver may verify a stored unverified doctor by posting
      it verified); anyone else's edit leaves the doctor unverified. */
  lemma EditVerificationRules(posted: Doctor, authorize: (Doctor, Operation) -> bool)
    ensures VerifiedAfterEdit(posted, authorize).isVerified ==> posted.isVerified
    ensures authorize(posted, Approve) ==> VerifiedAfterEdit(posted, authorize) == posted
    ensures !authorize(posted, Approve) ==> !VerifiedAfterEdit(posted, authorize).isVerified
  {
  }

  /** Editing twice changes nothing more than editing once. */
  lemma EditIdempotent(posted: Doctor, authorize: (Doctor, Operation) -> bool)
    ensures VerifiedAfterEdit(VerifiedAfterEdit(posted, authorize), authorize) == VerifiedAfterEdit(posted, authorize)
  {
  }

  /** The operation DetailsOnPost asks authorization for. */
  function Decision(status: bool): (op: Operation)
    ensures op == Approve <==> status
    ensures op == Reject <==> !status
  {
    if status then Approve else Reject
  }

  const ApprovalMessage: string := "<h3>Congratulations!</h3><br> Your account got approved"
  const RejectionPrefix: string := "Your account is rejected. Please review and update your profile <br> Reject Reason: <br>"

  /** The body of the notification DetailsOnPost sends. */
  function DecisionMessage(status: bool, rejectReason: string): (m: string)
    ensures status ==> m == ApprovalMessage
    ensures !status ==> |rejectReason| <= |m| && m[|m| - |rejectReason|..] == rejectReason
  {
    if status then ApprovalMessage else RejectionPrefix + rejectReason
  }

  /** The notification handed to DoctorService.SendEmail: recipient, subject operation, body. */
  datatype Notification = Notification(recipient: string, subject: Operation, body: string)

  /** The doctor CreateOnPost adds: the submitted one under the key the database
      assigns, owned by the current user, with its checked availability stamped common. */
  function CreatedDoctor(posted: Doctor, userId: Option<string>, checked: Availability, newId: int): (d: Doctor)
    ensures d.commonAvailability.Some? && d.commonAvailability.value.availabilityType.Some?
    ensures Contains(d.commonAvailability.value.availabilityType.value, "Common")
    ensures d.id == newId && d.ownerId == userId
    ensures d.name == posted.name && d.regNumber == posted.regNumber && d.isVerified == posted.isVerified
  {
    posted.(id := newId, ownerId := userId,
            commonAvailability := Some(checked.(availabilityType := Some(CommonType(posted.regNumber)))))
  }

  /** The outcome of CreateOnPost's validation block for the submitted doctor. */
  function CreateCheck(posted: Doctor, now: DateTime): TimingsCheck
  {
    if posted.commonAvailability.None? then Crashed else CheckTimings(posted.commonAvailability.value, now)
  }

  /** A created doctor never needs current start or end dates. */
  lemma CreatedDoctorNeedsNoCurrentDates(posted: Doctor, userId: Option<string>, checked: Availability, newId: int,
                                         value: Option<DateTime>, memberName: string)
    ensures var a := CreatedDoctor(posted, userId, checked, newId).commonAvailability.value;
            RequireWhenCurrent(a, value, memberName) == Success
  {
  }

  /** The controller over the doctors table (Context.Doctors), keyed by id. */
  class DoctorsController {
    var doctors: map<int, Doctor>

    /** Every row is stored under its own id. */
    ghost predicate Valid()
      reads this
    {
      forall id :: id in doctors ==> doctors[id].id == id
    }

    constructor (doctors: map<int, Doctor>)
      requires forall id :: id in doctors ==> doctors[id].id == id
      ensures Valid() && this.doctors == doctors
    {
      this.doctors := doctors;
    }

    /** CreateOnPost: model-state and Create checks, then the timing validation; the
        doctor is added only when the error list is empty. A null reference met during
        validation is caught and the form is shown again. */
    method CreateOnPost(posted: Doctor, modelStateValid: bool, authorize: (Doctor, Operation) -> bool,
                        userId: Option<string>, now: DateTime, newId: int)
      returns (result: ActionResult, errorList: seq<string>)
      requires Valid() && newId !in doctors
      modifies this
      ensures Valid()
      ensures !modelStateValid ==> result == ViewPage && errorList == [] && doctors == old(doctors)
      ensures modelStateValid && !authorize(posted, Create) ==>
                result == Forbid && errorList == [] && doctors == old(doctors)
      ensures modelStateValid && authorize(posted, Create) ==>
                var check := CreateCheck(posted, now);
                && (check.Crashed? ==> result == ViewPage && errorList == [] && doctors == old(doctors))
                && (check.Checked? && check.errors != [] ==>
                      result == ViewPage && errorList == check.errors && doctors == old(doctors))
                && (check.Checked? && check.errors == [] ==>
                      result == RedirectToAction("Index") && errorList == []
                      && doctors == old(doctors)[newId := CreatedDoctor(posted, userId, check.availability, newId)])
    {
      errorList := [];
      if !modelStateValid {
        return ViewPage, errorList;
      }
      if !authorize(posted, Create) {
        return Forbid, errorList;
      }
      var doctor := posted.(ownerId := userId);
      if doctor.commonAvailability.None? {
        return ViewPage, errorList;
      }
      var check, isTimingsValid := ValidateTimings(doctor.commonAvailability.value, now);
      if check.Crashed? {
        return ViewPage, errorList;
      }
      if !isTimingsValid {
        return ViewPage, check.errors;
      }
      var availability := check.availability.(availabilityType := Some(CommonType(doctor.regNumber)));
      doctor := doctor.(commonAvailability := Some(availability));
      doctors := doctors[newId := doctor.(id := newId)];
      return RedirectToAction("Index"), errorList;
    }

    /** Edit POST: after the id, model-state and Update checks, the posted doctor is
        written back with VerifiedAfterEdit's status. Context.Update tracks a doctor whose
        key is still the unset 0 as a new row, so it is inserted under the key the
        database assigns (newId); writing back any other doctor that no longer exists
        ends in NotFound. */
    method Edit(id: int, posted: Doctor, modelStateValid: bool, authorize: (Doctor, Operation) -> bool, newId: int)
      returns (result: ActionResult)
      requires Valid() && newId !in doctors
      modifies this
      ensures Valid()
      ensures id != posted.id ==> result == NotFound && doctors == old(doctors)
      ensures id == posted.id && !modelStateValid ==> result == ViewPage && doctors == old(doctors)
      ensures id == posted.id && modelStateValid && !authorize(posted, Update) ==>
                result == Forbid && doctors == old(doctors)
      ensures id == posted.id && modelStateValid && authorize(posted, Update) ==>
                if id == 0 then
                  result == RedirectToAction("Index")
                  && doctors == old(doctors)[newId := VerifiedAfterEdit(posted, authorize).(id := newId)]
                else if id in old(doctors) then
                  result == RedirectToAction("Index") && doctors == old(doctors)[id := VerifiedAfterEdit(posted, authorize)]
                else result == NotFound && doctors == old(doctors)
    {
      if id != posted.id {
        return NotFound;
      }
      if modelStateValid {
        if !authorize(posted, Update) {
          return Forbid;
        }
        var doctor := posted;
        if doctor.isVerified {
          var canApprove := authorize(doctor, Approve);
          if !canApprove {
            doctor := doctor.(isVerified := false);
          }
        }
        if doctor.id == 0 {
          doctors := doctors[newId := doctor.(id := newId)];
          return RedirectToAction("Index");
        }
        if doctor.id !in doctors {
          return NotFound;
        }
        doctors := doctors[doctor.id := doctor];
        return RedirectToAction("Index");
      }
      return ViewPage;
    }

    /** DetailsOnPost: the approve/reject decision. When the decision's operation is
        authorized, IsVerified becomes status and the owner is notified. */
    method DetailsOnPost(id: Option<int>, status: bool, rejectReason: string, authorize: (Doctor, Operation) -> bool)
      returns (result: ActionResult, notification: Option<Notification>)
      requires Valid()
      modifies this
      ensures Valid()
      ensures id.None? || id.value !in old(doctors) ==>
                result == NotFound && notification.None? && doctors == old(doctors)
      ensures id.Some? && id.value in old(doctors) ==>
                var doctor := old(doctors)[id.value];
                if !authorize(doctor, Decision(status)) then
                  result == Forbid && notification.None? && doctors == old(doctors)
                else
                  && result == RedirectToAction("Index")
                  && doctors == old(doctors)[id.value := doctor.(isVerified := status)]
                  && notification == Some(Notification(doctor.emailId, Decision(status), DecisionMessage(status, rejectReason)))
    {
      if id.None? || id.value !in doctors {
        return NotFound, None;
      }
      var doctor := doctors[id.value];
      var operation := Decision(status);
      if !authorize(doctor, operation) {
        return Forbid, None;
      }
      doctor := doctor.(isVerified := status);
      doctors := doctors[id.value := doctor];
      notification := Some(Notification(doctor.emailId, operation, DecisionMessage(status, rejectReason)));
      result := RedirectToAction("Index");
    }
  }
}
