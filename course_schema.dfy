/** The course body schemas (src/validators/course.schema.js). */
module CourseSchema {
  import opened Wrappers
  import opened JsString
  import opened Json

  datatype LessonBody = LessonBody(
    title: string,
    contentHtml: Option<string>,
    videoUrl: Option<string>,
    order: int)

  datatype CreateBody = CreateBody(
    title: string,
    description: string,
    category: string,
    difficulty: string,
    faculty: string,
    price: Option<int>,
    thumbnailUrl: Option<string>,
    lessons: Option<seq<LessonBody>>)

  datatype UpdateBody = UpdateBody(
    title: Option<string>,
    description: Option<string>,
    category: Option<string>,
    difficulty: Option<string>,
    faculty: Option<string>,
    price: Option<int>,
    thumbnailUrl: Option<string>,
    lessons: Option<seq<LessonBody>>)

  /** The schema repeats the model's enum on its own. */
  const Difficulties: seq<string> := ["beginner", "intermediate", "advanced"]

  /** The lesson `lessonSchema` */
  function ParseLesson(v: Value): Option<LessonBody> {
    match (StringField(v, "title", 1), OptionalString(v, "contentHtml"), OptionalString(v, "videoUrl"), NumberField(v, "order"))
    case (Some(t), Some(c), Some(u), Some(o)) => if v.Obj? then Some(LessonBody(t, c, u, o)) else None
    case _ => None
  }

  /** `z.array(lessonSchema)`: every element must pass. */
  function ParseLessons(items: seq<Value>): (r: Option<seq<LessonBody>>)
    ensures r.Some? ==> |r.value| == |items|
    ensures r.Some? ==> forall i :: 0 <= i < |items| ==> ParseLesson(items[i]) == Some(r.value[i])
    ensures r.None? ==> exists i :: 0 <= i < |items| && ParseLesson(items[i]).None?
  {
    if items == [] then Some([])
    else match (ParseLesson(items[0]), ParseLessons(items[1..]))
      case (Some(l), Some(ls)) => Some([l] + ls)
      case (None, _) => None
      case (_, None) =>
        var i :| 0 <= i < |items[1..]| && ParseLesson(items[1..][i]).None?;
        assert ParseLesson(items[i + 1]).None?;
        None
  }

  /** `lessons: z.array(lessonSchema).optional()` */
  function OptionalLessons(v: Value, key: string): Option<Option<seq<LessonBody>>> {
    match Field(v, key)
    case None => Some(None)
    case Some(Arr(items)) =>
      (match ParseLessons(items)
       case Some(ls) => Some(Some(ls))
       case None => None)
    case Some(_) => None
  }

  /** `thumbnailUrl: z.string().url().optional()`; `isUrl` stands for zod's `.url()` check. */
  function OptionalUrl(v: Value, key: string, isUrl: string -> bool): Option<Option<string>> {
    match OptionalString(v, key)
    case Some(Some(s)) => if isUrl(s) then Some(Some(s)) else None
    case other => other
  }

  /** `createCourseSchema` */
  function ParseCreate(v: Value, isUrl: string -> bool): Option<CreateBody> {
    match (StringField(v, "title", 1), StringField(v, "description", 1), StringField(v, "category", 1),
           EnumField(v, "difficulty", Difficulties), StringField(v, "faculty", 1))
    case (Some(t), Some(d), Some(c), Some(diff), Some(f)) =>
      (match (OptionalNumber(v, "price"), OptionalUrl(v, "thumbnailUrl", isUrl), OptionalLessons(v, "lessons"))
       case (Some(p), Some(u), Some(ls)) =>
         if v.Obj? && (p.None? || p.value >= 0) then Some(CreateBody(t, d, c, diff, f, p, u, ls)) else None
       case _ => None)
    case _ => None
  }

  /** `updateCourseSchema`: every field optional, no length rule on the strings, no sign rule on price. */
  function ParseUpdate(v: Value, isUrl: string -> bool): Option<UpdateBody> {
    match (OptionalString(v, "title"), OptionalString(v, "description"), OptionalString(v, "category"),
           OptionalDifficulty(v), OptionalString(v, "faculty"))
    case (Some(t), Some(d), Some(c), Some(diff), Some(f)) =>
      (match (OptionalNumber(v, "price"), OptionalUrl(v, "thumbnailUrl", isUrl), OptionalLessons(v, "lessons"))
       case (Some(p), Some(u), Some(ls)) =>
         if v.Obj? then Some(UpdateBody(t, d, c, diff, f, p, u, ls)) else None
       case _ => None)
    case _ => None
  }

  /** `difficulty: z.enum([...]).optional()` */
  function OptionalDifficulty(v: Value): Option<Option<string>> {
    match Field(v, "difficulty")
    case None => Some(None)
    case Some(Str(s)) => if s in Difficulties then Some(Some(s)) else None
    case Some(_) => None
  }

  /** The JSON object a lesson body reads back from. */
  function EncodeLesson(l: LessonBody): Value {
    var m := map["title" := Str(l.title), "order" := Num(l.order)];
    var m1 := if l.contentHtml.Some? then m["contentHtml" := Str(l.contentHtml.value)] else m;
    var m2 := if l.videoUrl.Some? then m1["videoUrl" := Str(l.videoUrl.value)] else m1;
    Obj(m2)
  }

  // ---------------------------------------------------------------------------
  // properties of the schemas

  /** A lesson with a non-empty title reads back from its JSON form unchanged. */
  lemma LessonRoundTrip(l: LessonBody)
    requires l.title != ""
    ensures ParseLesson(EncodeLesson(l)) == Some(l)
  {
    Utf16AtLeastOneIffNonEmpty(l.title);
    var v := EncodeLesson(l);
    assert Field(v, "title") == Some(Str(l.title));
    assert Field(v, "order") == Some(Num(l.order));
    assert l.contentHtml.None? ==> Field(v, "contentHtml").None?;
    assert l.videoUrl.None? ==> Field(v, "videoUrl").None?;
  }

  /** Every accepted lesson has a non-empty title and a numeric order. */
  lemma {:induction false} LessonsHaveTitleAndOrder(items: seq<Value>)
    requires ParseLessons(items).Some?
    ensures forall i :: 0 <= i < |items| ==>
      && ParseLessons(items).value[i].title != ""
      && Field(items[i], "order") == Some(Num(ParseLessons(items).value[i].order))
  {
    var ls := ParseLessons(items).value;
    forall i | 0 <= i < |items|
      ensures ls[i].title != "" && Field(items[i], "order") == Some(Num(ls[i].order))
    {
      assert ParseLesson(items[i]) == Some(ls[i]);
      Utf16AtLeastOneIffNonEmpty(ls[i].title);
    }
  }

  /** Create requires the four descriptive strings non-empty, a known difficulty, and no negative price. */
  lemma CreateRequirements(v: Value, isUrl: string -> bool)
    requires ParseCreate(v, isUrl).Some?
    ensures var b := ParseCreate(v, isUrl).value;
      && b.title != "" && b.description != "" && b.category != "" && b.faculty != ""
      && (b.difficulty == "beginner" || b.difficulty == "intermediate" || b.difficulty == "advanced")
      && (b.price.None? || b.price.value >= 0)
      && (b.price.None? <==> Field(v, "price").None?)
  {
    var b := ParseCreate(v, isUrl).value;
    Utf16AtLeastOneIffNonEmpty(b.title);
    Utf16AtLeastOneIffNonEmpty(b.description);
    Utf16AtLeastOneIffNonEmpty(b.category);
    Utf16AtLeastOneIffNonEmpty(b.faculty);
  }

  /** A create body with a negative price is rejected. */
  lemma CreateRejectsNegativePrice(v: Value, isUrl: string -> bool)
    requires Field(v, "price").Some? && Field(v, "price").value.Num? && Field(v, "price").value.n < 0
    ensures ParseCreate(v, isUrl).None?
  {
  }

  /** The empty update body is valid and sets nothing. */
  lemma EmptyUpdateAccepted(isUrl: string -> bool)
    ensures ParseUpdate(Obj(map[]), isUrl) == Some(UpdateBody(None, None, None, None, None, None, None, None))
  {
  }

  /** Update takes any numeric price, negative included, and an empty title. */
  lemma UpdateAcceptsNegativePriceAndEmptyTitle(p: int, isUrl: string -> bool)
    ensures ParseUpdate(Obj(map["price" := Num(p), "title" := Str("")]), isUrl)
      == Some(UpdateBody(Some(""), None, None, None, None, Some(p), None, None))
  {
    var v := Obj(map["price" := Num(p), "title" := Str("")]);
    assert Field(v, "description").None? && Field(v, "lessons").None?;
  }
}
