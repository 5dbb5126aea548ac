/** The enrollment body schemas (src/validators/enrollment.schema.js). */
module EnrollmentSchema {
  import opened Wrappers
  import opened JsString
  import opened Json

  datatype EnrollBody = EnrollBody(courseId: string)

  datatype EnrollPaidBody = EnrollPaidBody(courseId: string, sessionId: string)

  datatype ProgressBody = ProgressBody(lessonId: string, completed: bool)

  /** `enrollSchema`, which both `POST /` and `POST /paid` use. */
  function ParseEnroll(body: Value): Option<EnrollBody> {
    if !body.Obj? then None
    else match StringField(body, "courseId", 1)
      case Some(c) => Some(EnrollBody(c))
      case None => None
  }

  /** `enrollPaidSchema`, which no route uses. */
  function ParseEnrollPaid(body: Value): Option<EnrollPaidBody> {
    if !body.Obj? then None
    else match (StringField(body, "courseId", 1), StringField(body, "sessionId", 1))
      case (Some(c), Some(s)) => Some(EnrollPaidBody(c, s))
      case _ => None
  }

  /** `updateProgressSchema` */
  function ParseProgress(body: Value): Option<ProgressBody> {
    if !body.Obj? then None
    else match (StringField(body, "lessonId", 1), BoolField(body, "completed"))
      case (Some(l), Some(c)) => Some(ProgressBody(l, c))
      case _ => None
  }

  /** An enroll body is accepted exactly when it is an object whose `courseId` is a non-empty string. */
  lemma EnrollAcceptsIffCourseIdNonEmpty(body: Value)
    ensures ParseEnroll(body).Some? <==>
      body.Obj? && "courseId" in body.fields && body.fields["courseId"].Str? && body.fields["courseId"].s != ""
    ensures ParseEnroll(body).Some? ==> ParseEnroll(body).value.courseId == body.fields["courseId"].s
  {
    if body.Obj? && "courseId" in body.fields && body.fields["courseId"].Str? {
      Utf16AtLeastOneIffNonEmpty(body.fields["courseId"].s);
    }
  }

  /** The paid schema asks for everything the enroll schema asks for, and a session id besides. */
  lemma PaidSchemaIsStricter(body: Value)
    ensures ParseEnrollPaid(body).Some? ==>
      && ParseEnroll(body) == Some(EnrollBody(ParseEnrollPaid(body).value.courseId))
      && ParseEnrollPaid(body).value.sessionId != ""
  {
    if ParseEnrollPaid(body).Some? {
      Utf16AtLeastOneIffNonEmpty(ParseEnrollPaid(body).value.sessionId);
    }
  }

  /** A paid-enroll request without any payment session passes the schema the `/paid` route uses. */
  lemma PaidRouteNeedsNoSession(courseId: string)
    requires courseId != ""
    ensures ParseEnroll(Obj(map["courseId" := Str(courseId)])) == Some(EnrollBody(courseId))
    ensures ParseEnrollPaid(Obj(map["courseId" := Str(courseId)])).None?
  {
    Utf16AtLeastOneIffNonEmpty(courseId);
  }

  /** A progress body carries a non-empty lesson id and a genuine boolean. */
  lemma ProgressBodyShape(body: Value)
    requires ParseProgress(body).Some?
    ensures ParseProgress(body).value.lessonId != ""
    ensures Field(body, "lessonId") == Some(Str(ParseProgress(body).value.lessonId))
    ensures Field(body, "completed") == Some(Bool(ParseProgress(body).value.completed))
  {
    Utf16AtLeastOneIffNonEmpty(ParseProgress(body).value.lessonId);
  }

  /** `completed: "true"` (a string) is rejected. */
  lemma ProgressRejectsStringBoolean(lessonId: string)
    ensures ParseProgress(Obj(map["lessonId" := Str(lessonId), "completed" := Str("true")])).None?
  {
  }
}
