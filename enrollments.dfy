/** The course-enrollment workflow: a signed-in user asks to join a course
    (app/api/enrollments/route.ts), anyone may ask whether a user holds an
    active enrollment (app/api/enrollments/check/route.ts), and an
    administrator lists, approves and rejects requests
    (app/api/admin/enrollments/). */
module Enrollments {

  import opened Common
  import opened Text
  import Tables

  datatype EnrollmentStatus = Pending | Approved | Rejected

  function StatusName(s: EnrollmentStatus): string {
    match s
    case Pending => "PENDING"
    case Approved => "APPROVED"
    case Rejected => "REJECTED"
  }

  /** `enrolledAt` is the time of the insert, in milliseconds. */
  datatype Enrollment = Enrollment(id: Id, userId: Id, courseId: Id, phoneNumber: string, status: EnrollmentStatus, enrolledAt: int)

  /** `status: { in: [PENDING, APPROVED] }`. */
  predicate IsActive(e: Enrollment) {
    e.status == Pending || e.status == Approved
  }

  predicate ActiveFor(e: Enrollment, userId: Id, courseId: Id) {
    e.userId == userId && e.courseId == courseId && IsActive(e)
  }

  /** The rule the request handler enforces: at most one PENDING or APPROVED
      record per (user, course). */
  ghost predicate AtMostOneActive(rows: map<Id, Enrollment>) {
    forall a, b ::
      (a in rows && b in rows && IsActive(rows[a]) && IsActive(rows[b])
       && rows[a].userId == rows[b].userId && rows[a].courseId == rows[b].courseId) ==> a == b
  }

  ghost predicate WellFormed(rows: map<Id, Enrollment>, nextId: Id) {
    forall k :: k in rows ==> rows[k].id == k && k < nextId
  }

  const PendingExists := "You already have a pending enrollment for this course."
  const AlreadyEnrolled := "You are already enrolled in this course."

  datatype RequestReply = Created(enrollment: Enrollment) | RequestRefused(httpStatus: int, error: string)

  /** What the status check answers: `isEnrolled` and `status`. */
  datatype CheckReply = MissingParameters | NotEnrolled | Enrolled(enrollmentId: Id, status: EnrollmentStatus)

  /** The two admin actions answer with JSON, with a redirect to a path, or
      (a successful reject) with a redirect whose notice names the user and
      the course. */
  datatype AdminReply = Json(httpStatus: int, error: string) | Redirect(path: string) | RejectedNotice

  /** The status as the reject redirect spells it. */
  function LowerName(s: EnrollmentStatus): string {
    match s
    case Pending => "pending"
    case Approved => "approved"
    case Rejected => "rejected"
  }

  lemma LowerStatusName(s: EnrollmentStatus)
    ensures ToLower(StatusName(s)) == LowerName(s)
  {
    match s
    case Pending => LowerAsciiWord(StatusName(s), LowerName(s));
    case Approved => LowerAsciiWord(StatusName(s), LowerName(s));
    case Rejected => LowerAsciiWord(StatusName(s), LowerName(s));
  }

  /** Adding a record for a pair that has no active record keeps the rule. */
  lemma AddKeepsOneActive(rows: map<Id, Enrollment>, id: Id, e: Enrollment)
    requires AtMostOneActive(rows) && id !in rows
    requires forall k :: k in rows ==> !ActiveFor(rows[k], e.userId, e.courseId)
    ensures AtMostOneActive(rows[id := e])
  {
  }

  /** Making a record inactive keeps the rule. */
  lemma DeactivateKeepsOneActive(rows: map<Id, Enrollment>, id: Id, e: Enrollment)
    requires AtMostOneActive(rows) && id in rows && !IsActive(e)
    ensures AtMostOneActive(rows[id := e])
  {
  }

  /** Approval does not consult the previous status, so approving a rejected
      request while a newer one for the same course is pending leaves two
      active records for one (user, course). */
  lemma ApproveBreaksOneActive()
    ensures var before := map[0 := Enrollment(0, 7, 3, "254700000000", Rejected, 1000),
                              1 := Enrollment(1, 7, 3, "254700000000", Pending, 2000)];
      && AtMostOneActive(before)
      && !AtMostOneActive(before[0 := before[0].(status := Approved)])
  {
    var before := map[0 := Enrollment(0, 7, 3, "254700000000", Rejected, 1000),
                      1 := Enrollment(1, 7, 3, "254700000000", Pending, 2000)];
    var after := before[0 := before[0].(status := Approved)];
    assert IsActive(after[0]) && IsActive(after[1]) && after[0].userId == after[1].userId;
  }

  class EnrollmentTable {
    var rows: map<Id, Enrollment>
    var nextId: Id

    ghost predicate Valid()
      reads this
    {
      WellFormed(rows, nextId)
    }

    constructor ()
      ensures Valid() && rows == map[] && nextId == 0
    {
      rows := map[];
      nextId := 0;
    }

    /** Some record of the pair is PENDING or APPROVED. */
    predicate HasActive(userId: Id, courseId: Id)
      reads this
    {
      exists k :: k in rows && ActiveFor(rows[k], userId, courseId)
    }

    /** The `findFirst` both the request and the check make. */
    function FirstActive(userId: Id, courseId: Id): (r: Option<Id>)
      reads this
      requires Valid()
      ensures r.Some? ==> r.value in rows && ActiveFor(rows[r.value], userId, courseId)
      ensures r.None? <==> !HasActive(userId, courseId)
    {
      Tables.Find(rows, nextId, (e: Enrollment) => ActiveFor(e, userId, courseId))
    }

    /** POST /api/enrollments, at time `now`. */
    method Request(session: Session, courseId: Option<Id>, phoneNumber: Option<string>, now: int) returns (r: RequestReply)
      requires Valid()
      modifies this
      ensures Valid()
      ensures SignedInUser(session).None? ==> r == RequestRefused(401, "Unauthorized. Please log in.") && rows == old(rows)
      ensures SignedInUser(session).Some? && !(courseId.Some? && Present(phoneNumber)) ==>
                r == RequestRefused(400, "Missing required fields: courseId or phoneNumber") && rows == old(rows)
      ensures SignedInUser(session).Some? && courseId.Some? && Present(phoneNumber) && old(HasActive(SignedInUser(session).value, courseId.value)) ==>
                && rows == old(rows)
                && var first := old(rows)[old(FirstActive(SignedInUser(session).value, courseId.value)).value];
                   r == RequestRefused(400, if first.status == Pending then PendingExists else AlreadyEnrolled)
      ensures SignedInUser(session).Some? && courseId.Some? && Present(phoneNumber) && !old(HasActive(SignedInUser(session).value, courseId.value)) ==>
                && r == Created(Enrollment(old(nextId), SignedInUser(session).value, courseId.value, phoneNumber.value, Pending, now))
                && old(nextId) !in old(rows)
                && rows == old(rows)[old(nextId) := r.enrollment]
                && nextId == old(nextId) + 1
      ensures r.Created? <==> rows != old(rows)
      ensures r.RequestRefused? ==> nextId == old(nextId)
      ensures old(AtMostOneActive(rows)) ==> AtMostOneActive(rows)
    {
      var user := SignedInUser(session);
      if user.None? {
        return RequestRefused(401, "Unauthorized. Please log in.");
      }
      if !(courseId.Some? && Present(phoneNumber)) {
        return RequestRefused(400, "Missing required fields: courseId or phoneNumber");
      }
      var existing := FirstActive(user.value, courseId.value);
      if existing.Some? {
        var message := if rows[existing.value].status == Pending then PendingExists else AlreadyEnrolled;
        return RequestRefused(400, message);
      }
      var e := Enrollment(nextId, user.value, courseId.value, phoneNumber.value, Pending, now);
      if AtMostOneActive(rows) {
        AddKeepsOneActive(rows, nextId, e);
      }
      rows := rows[nextId := e];
      nextId := nextId + 1;
      return Created(e);
    }

    /** When the pair has an active record the refusal names its status; with
        the rule in force that record is the only one. */
    lemma RefusalNamesStatus(userId: Id, courseId: Id)
      requires Valid() && AtMostOneActive(rows) && HasActive(userId, courseId)
      ensures forall k :: k in rows && ActiveFor(rows[k], userId, courseId) ==> FirstActive(userId, courseId) == Some(k)
    {
    }

    /** GET /api/enrollments: the session user's records, newest first. */
    function UserEnrollments(session: Session): (r: Option<seq<Enrollment>>)
      reads this
      requires Valid()
      ensures r.None? <==> SignedInUser(session).None?
      ensures r.Some? ==>
        && (forall e :: e in r.value <==> e in rows.Values && e.userId == SignedInUser(session).value)
        && Tables.Distinct(r.value)
        && Tables.SortedBy(r.value, (e: Enrollment) => e.enrolledAt, false)
    {
      var user := SignedInUser(session);
      if user.None? then None
      else
        var p := (e: Enrollment) => e.userId == user.value;
        var key := (e: Enrollment) => e.enrolledAt;
        Tables.QueryContents(rows, nextId, (e: Enrollment) => e.id, p, key, false);
        Some(Tables.SortBy(Tables.Filter(Tables.InIdOrder(rows, nextId, (e: Enrollment) => e.id), p), key, false))
    }

    /** GET /api/enrollments/check: reads only. */
    function Check(userId: Option<Id>, courseId: Option<Id>): (r: CheckReply)
      reads this
      requires Valid()
      ensures r.MissingParameters? <==> userId.None? || courseId.None?
      ensures r.Enrolled? <==> userId.Some? && courseId.Some? && HasActive(userId.value, courseId.value)
      ensures r.Enrolled? ==> r.enrollmentId in rows && ActiveFor(rows[r.enrollmentId], userId.value, courseId.value)
                              && r.status == rows[r.enrollmentId].status
    {
      if userId.None? || courseId.None? then MissingParameters
      else
        match FirstActive(userId.value, courseId.value)
        case None => NotEnrolled
        case Some(k) => Enrolled(k, rows[k].status)
    }

    /** GET /api/admin/enrollments: every PENDING record, oldest first; the
        handler checks no role. */
    function PendingList(): (r: seq<Enrollment>)
      reads this
      requires Valid()
      ensures forall e :: e in r <==> e in rows.Values && e.status == Pending
      ensures Tables.Distinct(r)
      ensures Tables.SortedBy(r, (e: Enrollment) => e.enrolledAt, true)
    {
      var p := (e: Enrollment) => e.status == Pending;
      var key := (e: Enrollment) => e.enrolledAt;
      Tables.QueryContents(rows, nextId, (e: Enrollment) => e.id, p, key, true);
      Tables.SortBy(Tables.Filter(Tables.InIdOrder(rows, nextId, (e: Enrollment) => e.id), p), key, true)
    }

    /** POST /api/admin/enrollments/approve: the record becomes APPROVED
        whatever its status; an unknown id makes the update throw. */
    method Approve(session: Session, enrollmentId: Option<Id>) returns (r: AdminReply)
      requires Valid()
      modifies this
      ensures Valid() && nextId == old(nextId)
      ensures !IsAdmin(session) ==> r == Json(401, "Unauthorized") && rows == old(rows)
      ensures IsAdmin(session) && enrollmentId.None? ==> r == Json(400, "Enrollment ID is required") && rows == old(rows)
      ensures IsAdmin(session) && enrollmentId.Some? && enrollmentId.value !in old(rows) ==>
                r == Json(500, "Failed to approve enrollment") && rows == old(rows)
      ensures IsAdmin(session) && enrollmentId.Some? && enrollmentId.value in old(rows) ==>
                && r == Redirect("/admin/dashboard")
                && rows == old(rows)[enrollmentId.value := old(rows)[enrollmentId.value].(status := Approved)]
    {
      if !IsAdmin(session) {
        return Json(401, "Unauthorized");
      }
      if enrollmentId.None? {
        return Json(400, "Enrollment ID is required");
      }
      var k := enrollmentId.value;
      if k !in rows {
        return Json(500, "Failed to approve enrollment");
      }
      rows := rows[k := rows[k].(status := Approved)];
      return Redirect("/admin/dashboard");
    }

    /** POST /api/admin/enrollments/reject: only a PENDING record moves, to
        REJECTED; every refusal is a redirect to the admin page. */
    method Reject(session: Session, enrollmentId: Option<Id>) returns (r: AdminReply)
      requires Valid()
      modifies this
      ensures Valid() && nextId == old(nextId)
      ensures !IsAdmin(session) ==> r == Redirect("/login") && rows == old(rows)
      ensures IsAdmin(session) && enrollmentId.None? ==> r == Redirect("/admin?error=missing_enrollment_id") && rows == old(rows)
      ensures IsAdmin(session) && enrollmentId.Some? && enrollmentId.value !in old(rows) ==>
                r == Redirect("/admin?error=enrollment_not_found") && rows == old(rows)
      ensures IsAdmin(session) && enrollmentId.Some? && enrollmentId.value in old(rows) && old(rows)[enrollmentId.value].status != Pending ==>
                r == Redirect("/admin?error=already_" + LowerName(old(rows)[enrollmentId.value].status)) && rows == old(rows)
      ensures IsAdmin(session) && enrollmentId.Some? && enrollmentId.value in old(rows) && old(rows)[enrollmentId.value].status == Pending ==>
                && r == RejectedNotice
                && rows == old(rows)[enrollmentId.value := old(rows)[enrollmentId.value].(status := Rejected)]
      ensures old(AtMostOneActive(rows)) ==> AtMostOneActive(rows)
    {
      if !IsAdmin(session) {
        return Redirect("/login");
      }
      if enrollmentId.None? {
        return Redirect("/admin?error=missing_enrollment_id");
      }
      var k := enrollmentId.value;
      if k !in rows {
        return Redirect("/admin?error=enrollment_not_found");
      }
      var e := rows[k];
      if e.status != Pending {
        LowerStatusName(e.status);
        return Redirect("/admin?error=already_" + ToLower(StatusName(e.status)));
      }
      if AtMostOneActive(rows) {
        DeactivateKeepsOneActive(rows, k, e.(status := Rejected));
      }
      rows := rows[k := e.(status := Rejected)];
      return RejectedNotice;
    }
  }

  /** The workflow through the handlers' own contracts: a request, its
      rejection, a second request and then the approval of the first leave the
      user with two active records for one course. */
  method ApproveAfterRejectScenario(admin: Session, user: Session) returns (t: EnrollmentTable)
    requires IsAdmin(admin) && SignedInUser(user).Some?
    ensures t.Valid() && !AtMostOneActive(t.rows)
  {
    t := new EnrollmentTable();
    var first := t.Request(user, Some(3), Some("0712345678"), 1000);
    assert first.Created? && first.enrollment.id == 0;
    var rejected := t.Reject(admin, Some(0));
    assert rejected == RejectedNotice;
    var second := t.Request(user, Some(3), Some("0712345678"), 2000);
    assert second.Created? && second.enrollment.id == 1;
    var approved := t.Approve(admin, Some(0));
    assert approved == Redirect("/admin/dashboard");
    assert IsActive(t.rows[0]) && IsActive(t.rows[1]) && t.rows[0].userId == t.rows[1].userId && t.rows[0].courseId == t.rows[1].courseId;
  }
}
