/**
 * The enrollment ledger (src/controllers/enrollment.controller.js). Each mutating
 * operation is a fixed chain of early-return checks (a pure `...Guard` function here)
 * followed by one state change: an insert that the unique index on (userId, courseId)
 * turns into insert-if-absent, or a `$set` of one progress key.
 */
module EnrollmentController {
  import opened Wrappers
  import opened JsString
  import opened Collections
  import opened Ordering
  import opened Http
  import opened CourseModel

  datatype Enrollment = Enrollment(
    id: string,
    userId: string,
    courseId: string,
    isPaid: bool,
    progress: map<string, bool>,
    createdAt: int)

  // ---------------------------------------------------------------------------
  // lookups

  function EnrollmentIndex(records: seq<Enrollment>, id: string): Option<nat> {
    FirstIndex(records, (e: Enrollment) => e.id == id)
  }

  /** The unique index on (userId, courseId) already holds this pair. */
  predicate PairTaken(records: seq<Enrollment>, userId: string, courseId: string) {
    exists i :: 0 <= i < |records| && records[i].userId == userId && records[i].courseId == courseId
  }

  ghost predicate OnePerPair(records: seq<Enrollment>) {
    forall i, j :: 0 <= i < j < |records| ==>
      records[i].userId != records[j].userId || records[i].courseId != records[j].courseId
  }

  ghost predicate UniqueIds(records: seq<Enrollment>) {
    forall i, j :: 0 <= i < j < |records| ==> records[i].id != records[j].id
  }

  // ---------------------------------------------------------------------------
  // the guard chains

  datatype Guard = Reject(status: int, message: string) | Proceed(course: Course)

  /** `enrollInCourse` up to the insert. */
  function FreeEnrollGuard(catalogue: seq<Course>, courseId: Option<string>): (g: Guard)
    ensures !Truthy(courseId) ==> g == Reject(400, "Course ID is required")
    ensures Truthy(courseId) && FindCourse(catalogue, courseId).None? ==> g == Reject(404, "Course not found")
    ensures Truthy(courseId) && FindCourse(catalogue, courseId).Some? && FindCourse(catalogue, courseId).value.price > 0
      ==> g == Reject(403, "Payment required for this course")
    ensures g.Proceed? <==> Truthy(courseId) && FindCourse(catalogue, courseId).Some? && FindCourse(catalogue, courseId).value.price <= 0
    ensures g.Proceed? ==> g.course == FindCourse(catalogue, courseId).value
  {
    if !Truthy(courseId) then Reject(400, "Course ID is required")
    else match FindCourse(catalogue, courseId)
      case None => Reject(404, "Course not found")
      case Some(c) => if c.price > 0 then Reject(403, "Payment required for this course") else Proceed(c)
  }

  /** `enrollPaidCourse` up to the insert: nothing about a payment is consulted. */
  function PaidEnrollGuard(catalogue: seq<Course>, courseId: Option<string>): (g: Guard)
    ensures g.Reject? ==> g == Reject(400, "Invalid paid course")
    ensures g.Proceed? <==> FindCourse(catalogue, courseId).Some? && FindCourse(catalogue, courseId).value.price != 0
    ensures g.Proceed? ==> g.course == FindCourse(catalogue, courseId).value
  {
    match FindCourse(catalogue, courseId)
    case None => Reject(400, "Invalid paid course")
    case Some(c) => if c.price == 0 then Reject(400, "Invalid paid course") else Proceed(c)
  }

  /** `course.lessons.some(l => l._id.toString() === lessonId)` */
  predicate HasLesson(course: Course, lessonId: string) {
    exists i :: 0 <= i < |course.lessons| && course.lessons[i].id == lessonId
  }

  /** `course.price === 0 || enrollment.isPaid === true` */
  predicate AccessGranted(course: Course, e: Enrollment) {
    course.price == 0 || e.isPaid
  }

  datatype ProgressDecision = Stop(status: int, message: string) | Write(index: nat)

  /** Every check `updateProgress` makes, in its order. */
  function ProgressGuard(records: seq<Enrollment>, catalogue: seq<Course>, caller: string, enrollmentId: string,
                         lessonId: Option<string>, completed: Option<bool>): (g: ProgressDecision)
    ensures !Truthy(lessonId) || completed.None? ==> g == Stop(400, "lessonId and completed(boolean) required")
    ensures Truthy(lessonId) && completed.Some? && EnrollmentIndex(records, enrollmentId).None?
      ==> g == Stop(404, "Enrollment not found")
    ensures Truthy(lessonId) && completed.Some? && EnrollmentIndex(records, enrollmentId).Some?
      && records[EnrollmentIndex(records, enrollmentId).value].userId != caller
      ==> g == Stop(403, "Not authorized")
    ensures Truthy(lessonId) && completed.Some? && EnrollmentIndex(records, enrollmentId).Some? ==>
              var e := records[EnrollmentIndex(records, enrollmentId).value];
              var c := FindCourse(catalogue, Some(e.courseId));
              && (e.userId == caller && c.None? ==> g == Stop(404, "Course not found"))
              && (e.userId == caller && c.Some? && !AccessGranted(c.value, e) ==>
                    g == Stop(403, "Payment verification required"))
              && (e.userId == caller && c.Some? && AccessGranted(c.value, e) && !HasLesson(c.value, lessonId.value) ==>
                    g == Stop(400, "Invalid lesson"))
    ensures g.Write? <==>
      && Truthy(lessonId) && completed.Some?
      && EnrollmentIndex(records, enrollmentId).Some?
      && var e := records[EnrollmentIndex(records, enrollmentId).value];
      && e.userId == caller
      && FindCourse(catalogue, Some(e.courseId)).Some?
      && AccessGranted(FindCourse(catalogue, Some(e.courseId)).value, e)
      && HasLesson(FindCourse(catalogue, Some(e.courseId)).value, lessonId.value)
    ensures g.Write? ==> g.index == EnrollmentIndex(records, enrollmentId).value && g.index < |records|
    ensures g.Stop? ==> g.status == 400 || g.status == 403 || g.status == 404
  {
    if !Truthy(lessonId) || completed.None? then Stop(400, "lessonId and completed(boolean) required")
    else match EnrollmentIndex(records, enrollmentId)
      case None => Stop(404, "Enrollment not found")
      case Some(i) =>
        var e := records[i];
        if e.userId != caller then Stop(403, "Not authorized")
        else match FindCourse(catalogue, Some(e.courseId))
          case None => Stop(404, "Course not found")
          case Some(c) =>
            if !AccessGranted(c, e) then Stop(403, "Payment verification required")
            else if !HasLesson(c, lessonId.value) then Stop(400, "Invalid lesson")
            else Write(i)
  }

  /** `updateOne({ _id }, { $set: { ["progress." + lessonId]: completed } })` */
  function SetProgress(records: seq<Enrollment>, i: nat, lessonId: string, completed: bool): seq<Enrollment>
    requires i < |records|
  {
    records[i := records[i].(progress := records[i].progress[lessonId := completed])]
  }

  // ---------------------------------------------------------------------------
  // the read projections

  /** Some entry of the listing is the enrollment `e`. */
  predicate Lists(r: seq<(Enrollment, Course)>, e: Enrollment) {
    exists k :: 0 <= k < |r| && r[k].0 == e
  }

  /** `getMyEnrollments`: the caller's enrollments, in order, each with its course; those whose course is gone are dropped. */
  function Mine(records: seq<Enrollment>, catalogue: seq<Course>, userId: string): (r: seq<(Enrollment, Course)>)
    ensures forall k :: 0 <= k < |r| ==>
      r[k].0 in records && r[k].0.userId == userId && FindCourse(catalogue, Some(r[k].0.courseId)) == Some(r[k].1)
  {
    if records == [] then []
    else
      var rest := Mine(records[1..], catalogue, userId);
      var e := records[0];
      var c := FindCourse(catalogue, Some(e.courseId));
      if e.userId == userId && c.Some? then [(e, c.value)] + rest else rest
  }

  /** Every enrollment of the caller whose course exists is listed. */
  lemma {:induction false} MineComplete(records: seq<Enrollment>, catalogue: seq<Course>, userId: string)
    ensures forall i | 0 <= i < |records| && records[i].userId == userId ::
              FindCourse(catalogue, Some(records[i].courseId)).Some? ==> Lists(Mine(records, catalogue, userId), records[i])
  {
    if records != [] {
      var r := Mine(records, catalogue, userId);
      var rest := Mine(records[1..], catalogue, userId);
      var e := records[0];
      var listed := e.userId == userId && FindCourse(catalogue, Some(e.courseId)).Some?;
      MineComplete(records[1..], catalogue, userId);
      forall i | 0 <= i < |records| && records[i].userId == userId && FindCourse(catalogue, Some(records[i].courseId)).Some?
        ensures Lists(r, records[i])
      {
        if i == 0 {
          assert r[0].0 == records[0];
        } else {
          assert records[i] == records[1..][i - 1];
          assert Lists(rest, records[1..][i - 1]);
          var k :| 0 <= k < |rest| && rest[k].0 == records[1..][i - 1];
          if listed {
            assert r[k + 1].0 == records[i];
          } else {
            assert r[k].0 == records[i];
          }
        }
      }
    }
  }

  /** `getAllEnrollments`: every enrollment, newest first. */
  function AllNewestFirst(records: seq<Enrollment>): (r: seq<Enrollment>)
    ensures NewestFirst(r, (e: Enrollment) => e.createdAt)
    ensures multiset(r) == multiset(records)
  {
    SortNewestFirst(records, (e: Enrollment) => e.createdAt)
  }

  // ---------------------------------------------------------------------------
  // the ledger

  class Ledger {
    var records: seq<Enrollment>

    ghost predicate Valid()
      reads this
    {
      OnePerPair(records) && UniqueIds(records)
    }

    constructor ()
      ensures Valid() && records == []
    {
      records := [];
    }

    /** `Enrollment.create`: the unique index makes it an atomic insert-if-absent on the pair. */
    method Create(e: Enrollment) returns (inserted: bool)
      requires Valid()
      requires EnrollmentIndex(records, e.id).None?
      modifies this
      ensures Valid()
      ensures inserted == !PairTaken(old(records), e.userId, e.courseId)
      ensures records == if inserted then old(records) + [e] else old(records)
    {
      if PairTaken(records, e.userId, e.courseId) {
        return false;
      }
      InsertKeepsLedgerValid(records, e);
      records := records + [e];
      return true;
    }

    /** `enrollInCourse`; `newId` and `now` are the id and `createdAt` the database assigns. */
    method EnrollInCourse(catalogue: seq<Course>, userId: string, courseId: Option<string>, newId: string, now: int)
      returns (r: Reply<Enrollment>)
      requires Valid()
      requires EnrollmentIndex(records, newId).None?
      modifies this
      ensures Valid()
      ensures var g := FreeEnrollGuard(catalogue, courseId);
        && (g.Reject? ==> r == Fail(g.status, g.message) && records == old(records))
        && (g.Proceed? && PairTaken(old(records), userId, courseId.value) ==>
              r == Fail(400, "Already enrolled") && records == old(records))
        && (g.Proceed? && !PairTaken(old(records), userId, courseId.value) ==>
              var e := Enrollment(newId, userId, courseId.value, false, map[], now);
              r == Ok(201, e) && records == old(records) + [e])
    {
      var g := FreeEnrollGuard(catalogue, courseId);
      if g.Reject? {
        return Fail(g.status, g.message);
      }
      var e := Enrollment(newId, userId, courseId.value, false, map[], now);
      var inserted := Create(e);
      if !inserted {
        return Fail(400, "Already enrolled");
      }
      r := Ok(201, e);
    }

    /** `enrollPaidCourse`: records a paid enrollment for any priced course, with no sign of a payment. */
    method EnrollPaidCourse(catalogue: seq<Course>, userId: string, courseId: Option<string>, newId: string, now: int)
      returns (r: Reply<Enrollment>)
      requires Valid()
      requires EnrollmentIndex(records, newId).None?
      modifies this
      ensures Valid()
      ensures var g := PaidEnrollGuard(catalogue, courseId);
        && (g.Reject? ==> r == Fail(400, "Invalid paid course") && records == old(records))
        && (g.Proceed? && PairTaken(old(records), userId, courseId.value) ==>
              r == Fail(400, "Already enrolled") && records == old(records))
        && (g.Proceed? && !PairTaken(old(records), userId, courseId.value) ==>
              var e := Enrollment(newId, userId, courseId.value, true, map[], now);
              r == Ok(201, e) && records == old(records) + [e])
    {
      var g := PaidEnrollGuard(catalogue, courseId);
      if g.Reject? {
        return Fail(g.status, g.message);
      }
      var e := Enrollment(newId, userId, courseId.value, true, map[], now);
      var inserted := Create(e);
      if !inserted {
        return Fail(400, "Already enrolled");
      }
      r := Ok(201, e);
    }

    /** `updateProgress`, addressed by the enrollment id in the path. */
    method UpdateProgress(catalogue: seq<Course>, caller: string, enrollmentId: string,
                          lessonId: Option<string>, completed: Option<bool>) returns (r: Reply<string>)
      requires Valid()
      modifies this
      ensures Valid()
      ensures var g := ProgressGuard(old(records), catalogue, caller, enrollmentId, lessonId, completed);
        && (g.Stop? ==> r == Fail(g.status, g.message) && records == old(records))
        && (g.Write? ==>
              r == Ok(200, "Progress updated")
              && records == SetProgress(old(records), g.index, lessonId.value, completed.value))
    {
      var g := ProgressGuard(records, catalogue, caller, enrollmentId, lessonId, completed);
      if g.Stop? {
        return Fail(g.status, g.message);
      }
      SetProgressKeepsLedgerValid(records, g.index, lessonId.value, completed.value);
      records := SetProgress(records, g.index, lessonId.value, completed.value);
      r := Ok(200, "Progress updated");
    }

    /** `getMyEnrollments` */
    function MyEnrollments(catalogue: seq<Course>, userId: string): seq<(Enrollment, Course)>
      reads this
    {
      Mine(records, catalogue, userId)
    }

    /** `getAllEnrollments` */
    function AllEnrollments(): seq<Enrollment>
      reads this
    {
      AllNewestFirst(records)
    }
  }

  // ---------------------------------------------------------------------------
  // properties of the ledger

  /** An insert that the unique index lets through keeps one enrollment per pair and unique ids. */
  lemma InsertKeepsLedgerValid(records: seq<Enrollment>, e: Enrollment)
    requires OnePerPair(records) && UniqueIds(records)
    requires !PairTaken(records, e.userId, e.courseId) && EnrollmentIndex(records, e.id).None?
    ensures OnePerPair(records + [e]) && UniqueIds(records + [e])
  {
    var s := records + [e];
    forall i, j | 0 <= i < j < |s| ensures s[i].userId != s[j].userId || s[i].courseId != s[j].courseId
    {
      if j == |records| {
        assert s[i] == records[i];
      }
    }
  }

  /** Two enrollment calls for the same pair: whatever path each takes, the second is refused. */
  lemma SecondEnrollRefused(records: seq<Enrollment>, e: Enrollment)
    ensures PairTaken(records + [e], e.userId, e.courseId)
  {
    assert (records + [e])[|records|] == e;
  }

  /** For a catalogued course with a non-negative price, exactly one of the two enroll paths proceeds. */
  lemma FreeAndPaidPartition(catalogue: seq<Course>, courseId: string)
    requires FindCourse(catalogue, Some(courseId)).Some? && FindCourse(catalogue, Some(courseId)).value.price >= 0
    requires courseId != ""
    ensures FreeEnrollGuard(catalogue, Some(courseId)).Proceed? != PaidEnrollGuard(catalogue, Some(courseId)).Proceed?
    ensures FindCourse(catalogue, Some(courseId)).value.price == 0 ==> PaidEnrollGuard(catalogue, Some(courseId)) == Reject(400, "Invalid paid course")
    ensures FindCourse(catalogue, Some(courseId)).value.price > 0 ==> FreeEnrollGuard(catalogue, Some(courseId)) == Reject(403, "Payment required for this course")
  {
  }

  /** A free course never asks for payment verification, whatever the enrollment's `isPaid`. */
  lemma FreeCourseCountsAsPaid(records: seq<Enrollment>, catalogue: seq<Course>, caller: string, enrollmentId: string,
                               lessonId: Option<string>, completed: Option<bool>)
    requires EnrollmentIndex(records, enrollmentId).Some?
    requires var e := records[EnrollmentIndex(records, enrollmentId).value];
      FindCourse(catalogue, Some(e.courseId)).Some? && FindCourse(catalogue, Some(e.courseId)).value.price == 0
    ensures ProgressGuard(records, catalogue, caller, enrollmentId, lessonId, completed) != Stop(403, "Payment verification required")
  {
  }

  /** Someone other than the owner never gets a write: the request is malformed (400) or refused (403), or the enrollment is missing. */
  lemma NonOwnerNeverWrites(records: seq<Enrollment>, catalogue: seq<Course>, caller: string, enrollmentId: string,
                            lessonId: Option<string>, completed: Option<bool>)
    requires EnrollmentIndex(records, enrollmentId).Some?
    requires records[EnrollmentIndex(records, enrollmentId).value].userId != caller
    ensures var g := ProgressGuard(records, catalogue, caller, enrollmentId, lessonId, completed);
      g.Stop? && (g.status == 400 || g.status == 403)
    ensures Truthy(lessonId) && completed.Some? ==>
      ProgressGuard(records, catalogue, caller, enrollmentId, lessonId, completed) == Stop(403, "Not authorized")
  {
  }

  /** A lesson id that is not one of the course's lesson `_id`s is never written. */
  lemma UnknownLessonNeverWritten(records: seq<Enrollment>, catalogue: seq<Course>, caller: string, enrollmentId: string,
                                  lessonId: string, completed: bool)
    requires EnrollmentIndex(records, enrollmentId).Some?
    requires var e := records[EnrollmentIndex(records, enrollmentId).value];
      FindCourse(catalogue, Some(e.courseId)).Some? && !HasLesson(FindCourse(catalogue, Some(e.courseId)).value, lessonId)
    ensures ProgressGuard(records, catalogue, caller, enrollmentId, Some(lessonId), Some(completed)).Stop?
    ensures var e := records[EnrollmentIndex(records, enrollmentId).value];
      lessonId != "" && e.userId == caller && AccessGranted(FindCourse(catalogue, Some(e.courseId)).value, e) ==>
        ProgressGuard(records, catalogue, caller, enrollmentId, Some(lessonId), Some(completed)) == Stop(400, "Invalid lesson")
  {
  }

  /** The `$set` writes one key of one enrollment: every other key, field and enrollment stays. */
  lemma SetProgressTouchesOneKey(records: seq<Enrollment>, i: nat, lessonId: string, completed: bool)
    requires i < |records|
    ensures var r := SetProgress(records, i, lessonId, completed);
      && |r| == |records|
      && (forall j :: 0 <= j < |records| && j != i ==> r[j] == records[j])
      && r[i].id == records[i].id && r[i].userId == records[i].userId && r[i].courseId == records[i].courseId
      && r[i].isPaid == records[i].isPaid && r[i].createdAt == records[i].createdAt
      && lessonId in r[i].progress && r[i].progress[lessonId] == completed
      && (forall k :: k != lessonId ==> (k in r[i].progress <==> k in records[i].progress))
      && (forall k :: k != lessonId && k in records[i].progress ==> r[i].progress[k] == records[i].progress[k])
  {
  }

  /** Writing the same key twice is writing it once. */
  lemma SetProgressIdempotent(records: seq<Enrollment>, i: nat, lessonId: string, completed: bool)
    requires i < |records|
    ensures SetProgress(SetProgress(records, i, lessonId, completed), i, lessonId, completed)
      == SetProgress(records, i, lessonId, completed)
  {
    var r := SetProgress(records, i, lessonId, completed);
    assert r[i].progress[lessonId := completed] == r[i].progress;
  }

  /** Writes to two different lessons commute, so neither clobbers the other. */
  lemma SetProgressCommutes(records: seq<Enrollment>, i: nat, a: string, x: bool, b: string, y: bool)
    requires i < |records| && a != b
    ensures SetProgress(SetProgress(records, i, a, x), i, b, y) == SetProgress(SetProgress(records, i, b, y), i, a, x)
  {
    assert records[i].progress[a := x][b := y] == records[i].progress[b := y][a := x];
  }

  /** The `$set` leaves users, courses and ids alone, so the ledger stays valid. */
  lemma SetProgressKeepsLedgerValid(records: seq<Enrollment>, i: nat, lessonId: string, completed: bool)
    requires i < |records| && OnePerPair(records) && UniqueIds(records)
    ensures OnePerPair(SetProgress(records, i, lessonId, completed)) && UniqueIds(SetProgress(records, i, lessonId, completed))
  {
  }

  /** Repeating a successful progress update decides the same write again and leaves the same state. */
  lemma RepeatedUpdateIsIdempotent(records: seq<Enrollment>, catalogue: seq<Course>, caller: string, enrollmentId: string,
                                   lessonId: string, completed: bool)
    requires ProgressGuard(records, catalogue, caller, enrollmentId, Some(lessonId), Some(completed)).Write?
    ensures var i := ProgressGuard(records, catalogue, caller, enrollmentId, Some(lessonId), Some(completed)).index;
      var once := SetProgress(records, i, lessonId, completed);
      && ProgressGuard(once, catalogue, caller, enrollmentId, Some(lessonId), Some(completed)) == Write(i)
      && SetProgress(once, i, lessonId, completed) == once
  {
    var i := ProgressGuard(records, catalogue, caller, enrollmentId, Some(lessonId), Some(completed)).index;
    var once := SetProgress(records, i, lessonId, completed);
    SameIdsSameIndex(records, once, enrollmentId);
    SetProgressIdempotent(records, i, lessonId, completed);
  }

  /** Two ledgers whose enrollments agree on ids find an id at the same place. */
  lemma {:induction false} SameIdsSameIndex(a: seq<Enrollment>, b: seq<Enrollment>, id: string)
    requires |a| == |b| && forall j :: 0 <= j < |a| ==> a[j].id == b[j].id
    ensures EnrollmentIndex(a, id) == EnrollmentIndex(b, id)
  {
    var p := (e: Enrollment) => e.id == id;
    if a != [] {
      SameIdsSameIndex(a[1..], b[1..], id);
    }
  }

  /** An enrollment whose course was deleted disappears from the caller's list. */
  lemma MineSkipsMissingCourses(records: seq<Enrollment>, catalogue: seq<Course>, userId: string, courseId: string)
    requires FindCourse(catalogue, Some(courseId)).None?
    ensures forall k :: 0 <= k < |Mine(records, catalogue, userId)| ==> Mine(records, catalogue, userId)[k].0.courseId != courseId
  {
  }

  /** A newly inserted enrollment whose course exists shows in its user's list. */
  lemma NewEnrollmentListed(records: seq<Enrollment>, catalogue: seq<Course>, e: Enrollment)
    requires FindCourse(catalogue, Some(e.courseId)).Some?
    ensures Lists(Mine(records + [e], catalogue, e.userId), e)
  {
    var s := records + [e];
    assert s[|records|] == e;
    MineComplete(s, catalogue, e.userId);
    var r := Mine(s, catalogue, e.userId);
    assert 0 <= |records| < |s| && s[|records|].userId == e.userId && FindCourse(catalogue, Some(s[|records|].courseId)).Some?;
    assert Lists(r, s[|records|]);
  }
}
