/**
 * The Mongoose course document (src/models/Course.js): its setters (`trim`,
 * `lowercase`), which rewrite values before validation, and its validators
 * (`required`, `enum`, `min`, `match`), which decide whether a document may be
 * stored.
 */
module CourseModel {
  import opened Wrappers
  import opened JsString
  import opened Collections

  datatype Lesson = Lesson(
    id: string,
    title: string,
    contentHtml: string,
    videoUrl: string,
    order: int)

  datatype Course = Course(
    id: string,
    title: string,
    slug: string,
    description: string,
    faculty: string,
    category: string,
    difficulty: string,
    price: int,
    thumbnailUrl: string,
    lessons: seq<Lesson>,
    createdAt: int)

  const Difficulties: seq<string> := ["beginner", "intermediate", "advanced"]

  // ---------------------------------------------------------------------------
  // setters

  function SetLesson(l: Lesson): Lesson {
    l.(title := Trim(l.title))
  }

  function SetLessons(ls: seq<Lesson>): (r: seq<Lesson>)
    ensures |r| == |ls|
    ensures forall i :: 0 <= i < |ls| ==> r[i] == SetLesson(ls[i])
  {
    if ls == [] then [] else [SetLesson(ls[0])] + SetLessons(ls[1..])
  }

  /** The slug path is `lowercase` and `trim`. */
  function SetSlug(s: string): string {
    Trim(LowerAscii(s))
  }

  /** What Mongoose stores for the given values, before any validator runs. */
  function Setters(c: Course): Course {
    c.(title := Trim(c.title),
       slug := SetSlug(c.slug),
       description := Trim(c.description),
       faculty := Trim(c.faculty),
       category := Trim(c.category),
       lessons := SetLessons(c.lessons))
  }

  // ---------------------------------------------------------------------------
  // validators

  predicate IsLineTerminator(c: char) {
    c == '\n' || c == '\r' || c == '\U{2028}' || c == '\U{2029}'
  }

  /** The regular expression `/^https?:\/\/.+/` finds a match. */
  predicate MatchesHttpUrl(u: string) {
    || (|u| > 7 && u[..7] == "http://" && !IsLineTerminator(u[7]))
    || (|u| > 8 && u[..8] == "https://" && !IsLineTerminator(u[8]))
  }

  /** Mongoose's `match` validator lets the empty string through, so the default "" is valid. */
  predicate ValidVideoUrl(u: string) {
    u == "" || MatchesHttpUrl(u)
  }

  predicate LessonValidates(l: Lesson) {
    && l.title != ""
    && ValidVideoUrl(l.videoUrl)
    && l.order >= 1
  }

  predicate Validates(c: Course) {
    && c.title != ""
    && c.slug != ""
    && c.description != ""
    && c.faculty != ""
    && c.category != ""
    && c.difficulty in Difficulties
    && c.price >= 0
    && forall i :: 0 <= i < |c.lessons| ==> LessonValidates(c.lessons[i])
  }

  /** A document as it sits in the collection: already through its setters, and valid. */
  predicate WellFormed(c: Course) {
    Setters(c) == c && Validates(c)
  }

  // ---------------------------------------------------------------------------
  // lookup

  function CourseIndex(catalogue: seq<Course>, id: string): Option<nat> {
    FirstIndex(catalogue, (c: Course) => c.id == id)
  }

  /** `Course.findById(courseId)`; an undefined id finds nothing. */
  function FindCourse(catalogue: seq<Course>, courseId: Option<string>): (r: Option<Course>)
    ensures r.Some? ==> courseId.Some? && r.value.id == courseId.value && r.value in catalogue
    ensures r.None? <==> courseId.None? || forall i :: 0 <= i < |catalogue| ==> catalogue[i].id != courseId.value
  {
    if courseId.None? then None
    else match CourseIndex(catalogue, courseId.value)
      case None => None
      case Some(i) => Some(catalogue[i])
  }

  // ---------------------------------------------------------------------------
  // properties of the schema

  lemma LowerCharKeepsWhite(c: char)
    ensures IsWhite(LowerChar(c)) <==> IsWhite(c)
    ensures !IsUpperAscii(LowerChar(c))
  {
  }

  /** The slug setter's output is lower-case and trimmed. */
  lemma SetSlugIsLowerAndTrimmed(s: string)
    ensures !HasUpper(SetSlug(s))
    ensures IsTrimmed(SetSlug(s))
  {
    SetSlugHasNoUpper(s);
    TrimIsTrimmed(LowerAscii(s));
  }

  lemma SetSlugHasNoUpper(s: string)
    ensures !HasUpper(SetSlug(s))
  {
    LowerAsciiHasNoUpper(s);
    TrimKeepsNoUpper(LowerAscii(s));
  }

  /** Running the slug setter again changes nothing. */
  lemma SetSlugIdempotent(s: string)
    ensures SetSlug(SetSlug(s)) == SetSlug(s)
  {
    SetSlugIsLowerAndTrimmed(s);
    var t := SetSlug(s);
    assert LowerAscii(t) == t by {
      forall k | 0 <= k < |t| ensures LowerChar(t[k]) == t[k] {
        assert !IsUpperAscii(t[k]);
      }
    }
    TrimmedIsFixpoint(t);
  }

  lemma SetLessonsIdempotent(ls: seq<Lesson>)
    ensures SetLessons(SetLessons(ls)) == SetLessons(ls)
  {
    var r := SetLessons(ls);
    forall i | 0 <= i < |r| ensures SetLesson(r[i]) == r[i] {
      TrimIdempotent(ls[i].title);
    }
  }

  /** Running the setters again changes nothing. */
  lemma SettersIdempotent(c: Course)
    ensures Setters(Setters(c)) == Setters(c)
  {
    TrimIdempotent(c.title);
    TrimIdempotent(c.description);
    TrimIdempotent(c.faculty);
    TrimIdempotent(c.category);
    SetSlugIdempotent(c.slug);
    SetLessonsIdempotent(c.lessons);
  }

  /** Whatever passes validation after the setters is what the collection stores. */
  lemma SetThenValidateIsWellFormed(c: Course)
    requires Validates(Setters(c))
    ensures WellFormed(Setters(c))
  {
    SettersIdempotent(c);
  }

  /** A title made only of white space fails `required`, because trimming empties it. */
  lemma BlankTitleRejected(c: Course)
    requires forall i :: 0 <= i < |c.title| ==> IsWhite(c.title[i])
    ensures !Validates(Setters(c))
  {
    assert TrimStart(c.title) == "";
  }

  /** Price `min: 0`: a negative price is never stored. */
  lemma NegativePriceRejected(c: Course)
    requires c.price < 0
    ensures !Validates(Setters(c))
  {
  }

  /** Difficulty `enum`: anything but the three values is rejected. */
  lemma UnknownDifficultyRejected(c: Course)
    requires c.difficulty != "beginner" && c.difficulty != "intermediate" && c.difficulty != "advanced"
    ensures !Validates(Setters(c))
  {
    SettersKeepDifficulty(c);
    OutsideEnumInvalid(Setters(c));
  }

  lemma SettersKeepDifficulty(c: Course)
    ensures Setters(c).difficulty == c.difficulty
  {
  }

  lemma OutsideEnumInvalid(c: Course)
    requires c.difficulty != "beginner" && c.difficulty != "intermediate" && c.difficulty != "advanced"
    ensures !Validates(c)
  {
  }

  /** The lesson defaults satisfy the lesson validators as soon as there is a title and an order >= 1. */
  lemma LessonDefaultsValid(id: string, title: string, order: int)
    requires Trim(title) != "" && order >= 1
    ensures LessonValidates(SetLesson(Lesson(id, title, "", "", order)))
  {
  }

  /** A video URL of the accepted form, for either scheme. */
  lemma HttpUrlsAccepted(rest: string)
    requires rest != [] && !IsLineTerminator(rest[0])
    ensures ValidVideoUrl("http://" + rest) && ValidVideoUrl("https://" + rest)
  {
    assert ("http://" + rest)[..7] == "http://";
    assert ("https://" + rest)[..8] == "https://";
  }

  /** A non-empty value that does not start with `http://` or `https://` is rejected, and so is a bare scheme. */
  lemma OtherSchemeRejected(u: string)
    requires u != ""
    requires !(|u| >= 7 && u[..7] == "http://") && !(|u| >= 8 && u[..8] == "https://")
    ensures !ValidVideoUrl(u)
    ensures !ValidVideoUrl("http://") && !ValidVideoUrl("https://")
  {
    assert |"http://"| == 7 && |"https://"| == 8;
    assert "http://"[..7] != "https://"[..7] by { assert "http://"[4] != "https://"[4]; }
  }

  /** For instance an `ftp://` URL. */
  lemma FtpUrlRejected()
    ensures !ValidVideoUrl("ftp://example.org/v.mp4")
  {
    var u := "ftp://example.org/v.mp4";
    assert u[..7][0] != "http://"[0];
    assert u[..8][0] != "https://"[0];
    OtherSchemeRejected(u);
  }
}
